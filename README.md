# Clinic-scheduling data model in Dafny

This project models the durable data model of the doutor-agenda
clinic-scheduling application, declared in `doutor-agenda/src/db/schema.ts`.
There are six tables: `users`, `clinics`, `user_to_clinics`, `doctors`,
`patients` and `appointments`. The model keeps their integrity rules:

- uuid primary keys;
- `notNull` columns, with `avatarImageUrl` the one optional one;
- a `patient_sex` enum with three labels;
- a patient `email` that is unique across the whole store;
- seven foreign keys, all `ON DELETE CASCADE`;
- `createdAt` set at insert, and `updatedAt` refreshed by the on-update function.

The store is an immutable value (`Schema.Store`):

- a set of user ids;
- a map from id to row for clinics, doctors, patients and appointments;
- a sequence of rows for `user_to_clinics`, which has no primary key and allows duplicate rows.

Each write is a function from a store to `Result<Store, Error>`. When a write
breaks a constraint it returns `Err` with no store, so the caller still holds
the old store. `SchemaProperties.After` states this explicitly.

- Inserts check three things in turn. First required columns and the enum
  (`ValidationError`). Then the primary key and the email (`UniquenessViolation`).
  Then the foreign-key targets (`ReferentialIntegrityError`). The new row gets
  `createdAt = updatedAt = now`.
- Updates take a per-column `Change` (`Keep`, `SetTo(v)`, `SetNull`). They run the
  same checks on the patched row, keep `createdAt` and set `updatedAt` to `now`.
  An update of an id with no row returns `NotFoundError`.
- Deletes follow the cascades and always succeed. Deleting a clinic removes its
  memberships, doctors and patients. It also removes every appointment that names
  the clinic, one of its doctors, or one of its patients.

The global invariant `Schema.Valid` has two parts: every foreign key names an
existing row, and patient emails are pairwise distinct. Every write preserves it,
so it holds after any sequence of writes (`SchemaProperties.RunKeepsValid`).
`Schema.StampedBy(s, t)` says every row has `createdAt <= updatedAt <= t`. It is
preserved under a monotone clock.

Files:
- `wrappers.dfy`: `Option` and `Result`.
- `schema.dfy`: the rows, the store, the invariants and every write.
- `properties.dfy`: the cascade lemmas, the uniqueness and enum lemmas, the
  timestamp lemmas, the invariant over any sequence of writes, and a concrete scenario.

Ids are abstract numbers, and each insert receives the generated id as a
parameter. `Schema.FreshId` shows that an unused id always exists, so a primary-key
rejection happens only on a collision. The clock is a `nat` parameter of every
write.

A delete never fails. The source declares only `ON DELETE CASCADE` foreign
keys, so in a valid store deleting a missing id leaves the store unchanged
(`SchemaProperties.DeleteMissingClinicIsNoOp` and its siblings).

## Model

| member | source | states |
|---|---|---|
| `Schema.ParseSex` | doutor-agenda/src/db/schema.ts:74 | a label converts to the enum exactly when it is one of "male", "female", "other", and the value converts back to that label |
| `SchemaProperties.SexRoundTrip` | doutor-agenda/src/db/schema.ts:74 | every enum value converts to its label and back to itself |
| `SchemaProperties.UnknownSexRejected` | doutor-agenda/src/db/schema.ts:84 | inserting a patient with sex "unknown" fails with ValidationError and stores nothing |
| `Schema.FreshId` | doutor-agenda/src/db/schema.ts:6 | for any finite table there is an id that no row has (one larger than every key) |
| `Schema.Filter` | doutor-agenda/src/db/schema.ts:20-29 | the kept membership rows are exactly those the test accepts, each kept as many times as it occurs |
| `Schema.NewDoctor` | doutor-agenda/src/db/schema.ts:49-64 | a doctor row built from complete inputs reads back as the same caller-supplied columns, with the given stamps |
| `Schema.NewPatient` | doutor-agenda/src/db/schema.ts:76-87 | a patient row built from valid inputs reads back as the same columns (sex back as its label), with the given stamps |
| `Schema.NewAppointment` | doutor-agenda/src/db/schema.ts:97-111 | an appointment row built from complete inputs reads back as the same columns, with the given stamps |
| `Schema.InsertUser` | doutor-agenda/src/db/schema.ts:5-7 | succeeds exactly when the id is unused, otherwise UniquenessViolation; adds the one id; keeps the invariant |
| `Schema.InsertClinic` | doutor-agenda/src/db/schema.ts:13-18 | succeeds exactly when the name is present and the id unused; a null name is a ValidationError and a used id a UniquenessViolation; on success adds one clinic with createdAt = updatedAt = now; keeps the invariant and the stamps |
| `Schema.InsertMembership` | doutor-agenda/src/db/schema.ts:20-29 | succeeds exactly when both keys are present and name an existing user and clinic; a null key is a ValidationError, a missing target a ReferentialIntegrityError; on success appends one row stamped now, with no pair uniqueness; keeps the invariant |
| `Schema.InsertDoctor` | doutor-agenda/src/db/schema.ts:49-64 | succeeds exactly when every notNull column is present, the id is unused and the clinic exists; otherwise ValidationError, UniquenessViolation or ReferentialIntegrityError, each exactly in its case; on success adds exactly one row, which reads back as the input and is stamped now; keeps the invariant and the stamps |
| `Schema.InsertPatient` | doutor-agenda/src/db/schema.ts:76-87 | succeeds exactly when every column is present, sex is an enum label, the id is unused, no patient anywhere holds the email and the clinic exists; otherwise ValidationError, UniquenessViolation or ReferentialIntegrityError, each exactly in its case; on success adds exactly one row that reads back as the input; keeps email uniqueness and integrity |
| `Schema.InsertAppointment` | doutor-agenda/src/db/schema.ts:97-111 | succeeds exactly when the date and all three keys are present, the id is unused and the clinic, patient and doctor exist; otherwise ValidationError, UniquenessViolation or ReferentialIntegrityError, each exactly in its case; on success adds exactly one row stamped now; keeps the invariant |
| `Schema.UpdateClinic` | doutor-agenda/src/db/schema.ts:13-18 | succeeds exactly when the clinic exists and the patch does not null the name; otherwise NotFoundError or ValidationError; on success the name is patched, createdAt kept, updatedAt = now, other clinics unchanged; keeps the invariant and the stamps |
| `Schema.UpdateDoctor` | doutor-agenda/src/db/schema.ts:49-64 | succeeds exactly when the doctor exists, the patch nulls no notNull column and the resulting clinic exists; otherwise NotFoundError, ValidationError or ReferentialIntegrityError, each exactly in its case; on success the row is the old columns with the patch applied, createdAt kept, updatedAt = now, all else unchanged |
| `Schema.UpdatePatient` | doutor-agenda/src/db/schema.ts:76-87 | succeeds exactly when the patient exists, the patched row has every column and an enum sex, no other patient holds its email and its clinic exists; otherwise NotFoundError, ValidationError, UniquenessViolation or ReferentialIntegrityError, each exactly in its case; on success the row is patched, createdAt kept, updatedAt = now; keeps email uniqueness |
| `Schema.UpdateAppointment` | doutor-agenda/src/db/schema.ts:97-111 | succeeds exactly when the appointment exists, the patch nulls no column and the resulting clinic, patient and doctor exist; otherwise NotFoundError, ValidationError or ReferentialIntegrityError, each exactly in its case; on success the row is the old columns with the patch applied, createdAt kept, updatedAt = now |
| `Schema.DeleteUser` | doutor-agenda/src/db/schema.ts:21-23 | cascading through user_to_clinics.user_id keeps referential integrity and the stamps |
| `Schema.DeleteClinic` | doutor-agenda/src/db/schema.ts:24-108 | cascading through the four clinic_id keys, and through appointment doctor_id and patient_id, keeps referential integrity and the stamps |
| `Schema.DeleteDoctor` | doutor-agenda/src/db/schema.ts:106-108 | cascading through appointments.doctor_id keeps referential integrity and the stamps |
| `Schema.DeletePatient` | doutor-agenda/src/db/schema.ts:103-105 | cascading through appointments.patient_id keeps referential integrity and the stamps |
| `Schema.DeleteAppointment` | doutor-agenda/src/db/schema.ts:97-98 | removes exactly that appointment, which nothing references; every other appointment and every other table is unchanged; keeps the invariant |
| `Schema.DeleteMembership` | doutor-agenda/src/db/schema.ts:20-29 | removes exactly the rows of the (user, clinic) pair, counted with multiplicity; every other row and every other table is unchanged; keeps the invariant |
| `SchemaProperties.DeleteClinicExact` | doutor-agenda/src/db/schema.ts:24-108 | deleting a clinic removes exactly its memberships, doctors and patients, and exactly the appointments naming it or one of its doctors or patients; users and every surviving row are unchanged |
| `SchemaProperties.DeleteClinicLeavesNoReference` | doutor-agenda/src/db/schema.ts:24-108 | in a valid store, after a clinic delete, no membership, doctor, patient or appointment names the clinic, and no surviving appointment has a doctor or patient of it |
| `SchemaProperties.DeleteClinicAbsorbsDoctor` | doutor-agenda/src/db/schema.ts:51-53 | deleting one of the clinic's doctors before the clinic gives the same store as the clinic delete alone (the cascade is transitive) |
| `SchemaProperties.DeleteClinicAbsorbsPatient` | doutor-agenda/src/db/schema.ts:78-80 | deleting one of the clinic's patients before the clinic gives the same store as the clinic delete alone |
| `SchemaProperties.DeleteDoctorExact` | doutor-agenda/src/db/schema.ts:106-108 | deleting a doctor removes that doctor and exactly the appointments with its doctorId; users, clinics, memberships, patients and the other rows are unchanged |
| `SchemaProperties.DeletePatientExact` | doutor-agenda/src/db/schema.ts:103-105 | deleting a patient removes that patient and exactly the appointments with its patientId; nothing else changes |
| `SchemaProperties.DeleteUserExact` | doutor-agenda/src/db/schema.ts:21-23 | deleting a user removes exactly its membership rows, counted with multiplicity; clinics, doctors, patients and appointments are untouched |
| `SchemaProperties.DeleteMissingClinicIsNoOp` | doutor-agenda/src/db/schema.ts:24-26 | in a valid store, deleting a clinic id with no row changes nothing |
| `SchemaProperties.DeleteMissingDoctorIsNoOp` | doutor-agenda/src/db/schema.ts:106-108 | in a valid store, deleting a doctor id with no row changes nothing |
| `SchemaProperties.DeleteMissingPatientIsNoOp` | doutor-agenda/src/db/schema.ts:103-105 | in a valid store, deleting a patient id with no row changes nothing |
| `SchemaProperties.DeleteMissingUserIsNoOp` | doutor-agenda/src/db/schema.ts:21-23 | in a valid store, deleting a user id with no row changes nothing |
| `SchemaProperties.DuplicateEmailRejected` | doutor-agenda/src/db/schema.ts:82 | once a patient is stored, a valid patient with the same email is refused with UniquenessViolation, whatever its clinic |
| `SchemaProperties.DistinctEmailsBothAccepted` | doutor-agenda/src/db/schema.ts:82 | two valid patients of one existing clinic, with distinct unused emails and fresh ids, are both stored |
| `SchemaProperties.UpdateToTakenEmailRejected` | doutor-agenda/src/db/schema.ts:82 | changing a patient's email to another patient's email is refused with UniquenessViolation |
| `SchemaProperties.DuplicateMembershipAccepted` | doutor-agenda/src/db/schema.ts:20-29 | inserting the same (user, clinic) membership twice succeeds both times |
| `SchemaProperties.FreshIdNeverCollides` | doutor-agenda/src/db/schema.ts:6 | an id drawn fresh for its table never makes an insert fail with UniquenessViolation on the key; a fresh user id is always accepted |
| `SchemaProperties.After` | doutor-agenda/src/db/schema.ts:5-111 | a refused write leaves the store unchanged; every write keeps referential integrity, email uniqueness and the stamps |
| `SchemaProperties.RunKeepsValid` | doutor-agenda/src/db/schema.ts:20-108 | referential integrity and email uniqueness hold after any sequence of writes from a valid store |
| `SchemaProperties.ReachableIsValid` | doutor-agenda/src/db/schema.ts:20-108 | every store reached from the empty store by writes is valid |
| `SchemaProperties.RunKeepsStamps` | doutor-agenda/src/db/schema.ts:16-17 | with a non-decreasing clock, every row keeps createdAt <= updatedAt <= the latest clock reading |
| `SchemaProperties.StepKeepsClinicStamps` | doutor-agenda/src/db/schema.ts:16-17 | no write alters a surviving clinic's createdAt, and none moves its updatedAt backwards |
| `SchemaProperties.StepKeepsDoctorStamps` | doutor-agenda/src/db/schema.ts:62-63 | no write alters a surviving doctor's createdAt, and none moves its updatedAt backwards |
| `SchemaProperties.StepKeepsPatientStamps` | doutor-agenda/src/db/schema.ts:85-86 | no write alters a surviving patient's createdAt, and none moves its updatedAt backwards |
| `SchemaProperties.StepKeepsAppointmentStamps` | doutor-agenda/src/db/schema.ts:109-110 | no write alters a surviving appointment's createdAt, and none moves its updatedAt backwards |
| `SchemaProperties.DeleteDoctorScenario` | doutor-agenda/src/db/schema.ts:97-108 | create clinic, doctor (15000 cents), patient and appointment; deleting the doctor removes the appointment and keeps the clinic and the patient |

## Left out

- Drizzle and PostgreSQL mechanics (`pgTable`, column builders, SQL column names, the engine): these are library calls. The model keeps only the constraints they declare.
- Random uuid generation (`defaultRandom`) and the wall clock (`defaultNow`, `new Date()`): these are external. The id and the clock reading are parameters of each write.
- The `relations(...)` blocks: they are query metadata with no integrity behaviour. Only "doctors of clinic c" and "patients of clinic c" (`Schema.DoctorsOf`, `Schema.PatientsOf`) appear, as the sets the clinic cascade removes. The relation from users to clinics has no backing column and is not modelled.
- The `createdAt` and `updatedAt` columns carry no `notNull`, and a caller could write them directly. The model always sets them itself, as system-assigned columns.
- The `integer` column `appointmentPriceInCents` is an unbounded `int`. The 32-bit range of PostgreSQL's `integer` is not modelled.
- Updating a `user_to_clinics` row is not modelled. The table has no key to address a row, and its only non-stamp columns are its two foreign keys. Deleting a row is modelled (`Schema.DeleteMembership`), and so is the cascade to it.
- Changing a primary key is not modelled. Ids are system-assigned.
- On an update, the model checks every foreign key of the patched row. PostgreSQL re-checks only the keys the update changes. On a valid store the two agree.
- Reads (by id, by email, through a relation) are map lookups on the store and have no functions of their own.
- No constraint the schema lacks is added. There is no uniqueness on (userId, clinicId), no check that an appointment's doctor and patient belong to its clinic, no format check on the availability text columns, and no price range.
- Concurrency, transactions and isolation are not modelled. Each write is one atomic step.
- `NotFoundError` on an update is the model's own error category. An SQL UPDATE that matches no row raises no error and changes nothing, and the returned Err also leaves the store unchanged.
- A delete of a missing id reports no `NotFoundError`. The model follows the SQL behaviour there: such a delete succeeds and removes nothing.
- The source reads two clocks. `defaultNow()` is the database's `now()`, taken at insert. `$onUpdateFn(() => new Date())` is the client's clock, read on update. The model merges them into one monotone `now`. `createdAt <= updatedAt` (`Schema.StampedBy`, `SchemaProperties.RunKeepsStamps`) depends on that merge, and holds only if the two clocks agree.
