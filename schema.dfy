/**
 * The durable data model of the clinic-scheduling application: six tables
 * (users, clinics, user_to_clinics, doctors, patients, appointments), their
 * primary keys, required columns, the unique patient email, the patient_sex
 * enum, seven cascading foreign keys and the createdAt/updatedAt stamps.
 *
 * The store is a value; every write is a function from the old store to a
 * Result holding the new one. A write that violates a constraint returns Err
 * and carries no store, so the caller's store is the one it already had.
 */
module Schema {
  import opened Wrappers

  /** Every primary and foreign key is a uuid; here an abstract number. */
  type Uuid = nat

  /** A clock reading. The clock is a parameter of every write. */
  type Timestamp = nat

  /** The error categories a rejected write reports. */
  datatype Error =
    | ValidationError            // a required column is null, or an enum label is unknown
    | UniquenessViolation        // a primary key or the patient email is already taken
    | ReferentialIntegrityError  // a foreign key names no row
    | NotFoundError              // an update names no row

  /** The patient_sex enum: exactly three labels. */
  datatype Sex = Male | Female | Other

  function SexLabel(x: Sex): string
  {
    match x
    case Male => "male"
    case Female => "female"
    case Other => "other"
  }

  /** Coerces a text value to the enum, as the database does; any other label is refused. */
  function ParseSex(text: string): (r: Option<Sex>)
    ensures r.Some? <==> text == "male" || text == "female" || text == "other"
    ensures r.Some? ==> SexLabel(r.value) == text
  {
    if text == "male" then Some(Male)
    else if text == "female" then Some(Female)
    else if text == "other" then Some(Other)
    else None
  }

  // ---------------------------------------------------------------------------
  // Rows. The id of a row is its key in the table's map.
  // ---------------------------------------------------------------------------

  datatype Clinic = Clinic(name: string, createdAt: Timestamp, updatedAt: Timestamp)

  /** A user_to_clinics row; the table has no primary key and allows duplicates. */
  datatype Membership = Membership(userId: Uuid, clinicId: Uuid, createdAt: Timestamp, updatedAt: Timestamp)

  datatype Doctor = Doctor(
    clinicId: Uuid,
    name: string,
    avatarImageUrl: Option<string>,
    availableFromWeekDay: string,
    availableToWeekDay: string,
    availableFromTime: string,
    availableToTime: string,
    appointmentPriceInCents: int,
    specialty: string,
    createdAt: Timestamp,
    updatedAt: Timestamp)

  datatype Patient = Patient(
    clinicId: Uuid,
    name: string,
    email: string,
    phoneNumber: string,
    sex: Sex,
    createdAt: Timestamp,
    updatedAt: Timestamp)

  datatype Appointment = Appointment(
    date: Timestamp,
    clinicId: Uuid,
    patientId: Uuid,
    doctorId: Uuid,
    createdAt: Timestamp,
    updatedAt: Timestamp)

  /** The users table has a single column, its id, so it is a set of ids. */
  datatype Store = Store(
    users: set<Uuid>,
    clinics: map<Uuid, Clinic>,
    userToClinics: seq<Membership>,
    doctors: map<Uuid, Doctor>,
    patients: map<Uuid, Patient>,
    appointments: map<Uuid, Appointment>)

  const Empty := Store({}, map[], [], map[], map[], map[])

  // ---------------------------------------------------------------------------
  // Caller-supplied column values. None stands for a null or omitted column;
  // the id and both stamps are never caller-supplied.
  // ---------------------------------------------------------------------------

  datatype ClinicInput = ClinicInput(name: Option<string>)

  datatype MembershipInput = MembershipInput(userId: Option<Uuid>, clinicId: Option<Uuid>)

  datatype DoctorInput = DoctorInput(
    clinicId: Option<Uuid>,
    name: Option<string>,
    avatarImageUrl: Option<string>,
    availableFromWeekDay: Option<string>,
    availableToWeekDay: Option<string>,
    availableFromTime: Option<string>,
    availableToTime: Option<string>,
    appointmentPriceInCents: Option<int>,
    specialty: Option<string>)

  /** The sex column arrives as text and is coerced to the enum. */
  datatype PatientInput = PatientInput(
    clinicId: Option<Uuid>,
    name: Option<string>,
    email: Option<string>,
    phoneNumber: Option<string>,
    sex: Option<string>)

  datatype AppointmentInput = AppointmentInput(
    date: Option<Timestamp>,
    clinicId: Option<Uuid>,
    patientId: Option<Uuid>,
    doctorId: Option<Uuid>)

  /** What a partial update does to one column. */
  datatype Change<T> = Keep | SetTo(value: T) | SetNull

  function Apply<T>(c: Change<T>, current: Option<T>): Option<T>
  {
    match c
    case Keep => current
    case SetTo(v) => Some(v)
    case SetNull => None
  }

  datatype ClinicPatch = ClinicPatch(name: Change<string>)

  datatype DoctorPatch = DoctorPatch(
    clinicId: Change<Uuid>,
    name: Change<string>,
    avatarImageUrl: Change<string>,
    availableFromWeekDay: Change<string>,
    availableToWeekDay: Change<string>,
    availableFromTime: Change<string>,
    availableToTime: Change<string>,
    appointmentPriceInCents: Change<int>,
    specialty: Change<string>)

  datatype PatientPatch = PatientPatch(
    clinicId: Change<Uuid>,
    name: Change<string>,
    email: Change<string>,
    phoneNumber: Change<string>,
    sex: Change<string>)

  datatype AppointmentPatch = AppointmentPatch(
    date: Change<Timestamp>,
    clinicId: Change<Uuid>,
    patientId: Change<Uuid>,
    doctorId: Change<Uuid>)

  // ---------------------------------------------------------------------------
  // Integrity
  // ---------------------------------------------------------------------------

  /** user_to_clinics.user_id and .clinic_id name existing rows. */
  ghost predicate MembershipTargetsExist(s: Store)
  {
    forall m :: m in s.userToClinics ==> m.userId in s.users && m.clinicId in s.clinics
  }

  /** doctors.clinic_id names an existing clinic. */
  ghost predicate DoctorTargetsExist(s: Store)
  {
    forall d :: d in s.doctors ==> s.doctors[d].clinicId in s.clinics
  }

  /** patients.clinic_id names an existing clinic. */
  ghost predicate PatientTargetsExist(s: Store)
  {
    forall p :: p in s.patients ==> s.patients[p].clinicId in s.clinics
  }

  /** appointments.clinic_id, .patient_id and .doctor_id name existing rows. */
  ghost predicate AppointmentTargetsExist(s: Store)
  {
    forall a :: a in s.appointments ==>
      && s.appointments[a].clinicId in s.clinics
      && s.appointments[a].patientId in s.patients
      && s.appointments[a].doctorId in s.doctors
  }

  /** All seven foreign keys name existing rows. */
  ghost predicate ReferentialIntegrity(s: Store)
  {
    MembershipTargetsExist(s) && DoctorTargetsExist(s) && PatientTargetsExist(s) && AppointmentTargetsExist(s)
  }

  /** patients.email is unique across the whole store, not per clinic. */
  ghost predicate UniqueEmails(s: Store)
  {
    forall p, q :: p in s.patients && q in s.patients && p != q ==> s.patients[p].email != s.patients[q].email
  }

  /** The invariant every write keeps. */
  ghost predicate Valid(s: Store)
  {
    ReferentialIntegrity(s) && UniqueEmails(s)
  }

  /** Every row was created no later than it was last updated, and updated no later than t. */
  ghost predicate StampedBy(s: Store, t: Timestamp)
  {
    && (forall c :: c in s.clinics ==> s.clinics[c].createdAt <= s.clinics[c].updatedAt <= t)
    && (forall m :: m in s.userToClinics ==> m.createdAt <= m.updatedAt <= t)
    && (forall d :: d in s.doctors ==> s.doctors[d].createdAt <= s.doctors[d].updatedAt <= t)
    && (forall p :: p in s.patients ==> s.patients[p].createdAt <= s.patients[p].updatedAt <= t)
    && (forall a :: a in s.appointments ==> s.appointments[a].createdAt <= s.appointments[a].updatedAt <= t)
  }

  /** Some patient other than `except` already holds `email`. */
  predicate EmailHeldByOther(s: Store, email: string, except: Option<Uuid>)
  {
    exists p :: p in s.patients && s.patients[p].email == email && except != Some(p)
  }

  /**
   * An id no row of a table with keys `used` has. The database draws a random
   * uuid; this shows that one outside the table always exists.
   */
  ghost function FreshId(used: set<Uuid>): (id: Uuid)
    ensures id !in used
    ensures forall u :: u in used ==> u < id
    decreases used
  {
    if used == {} then 0
    else
      var x :| x in used;
      var above := FreshId(used - {x});
      assert forall u :: u in used ==> u == x || u in used - {x};
      if x < above then above else x + 1
  }

  /** The membership rows of `xs` that `keep` accepts, each as often as in `xs`. */
  function Filter(xs: seq<Membership>, keep: Membership -> bool): (r: seq<Membership>)
    ensures forall x :: x in r <==> x in xs && keep(x)
    ensures forall x :: multiset(r)[x] == if keep(x) then multiset(xs)[x] else 0
  {
    if xs == [] then []
    else
      var rest := Filter(xs[1..], keep);
      assert xs == [xs[0]] + xs[1..];
      assert multiset(xs) == multiset{xs[0]} + multiset(xs[1..]);
      if keep(xs[0]) then [xs[0]] + rest else rest
  }

  // ---------------------------------------------------------------------------
  // Rows built from inputs, and back
  // ---------------------------------------------------------------------------

  /** Every notNull doctor column is present; avatarImageUrl may be null. */
  predicate DoctorInputComplete(d: DoctorInput)
  {
    && d.clinicId.Some? && d.name.Some?
    && d.availableFromWeekDay.Some? && d.availableToWeekDay.Some?
    && d.availableFromTime.Some? && d.availableToTime.Some?
    && d.appointmentPriceInCents.Some? && d.specialty.Some?
  }

  /** The caller-visible columns of a doctor row. */
  function DoctorInputOf(x: Doctor): DoctorInput
  {
    DoctorInput(Some(x.clinicId), Some(x.name), x.avatarImageUrl,
      Some(x.availableFromWeekDay), Some(x.availableToWeekDay),
      Some(x.availableFromTime), Some(x.availableToTime),
      Some(x.appointmentPriceInCents), Some(x.specialty))
  }

  function NewDoctor(d: DoctorInput, createdAt: Timestamp, updatedAt: Timestamp): (x: Doctor)
    requires DoctorInputComplete(d)
    ensures DoctorInputOf(x) == d
    ensures x.createdAt == createdAt && x.updatedAt == updatedAt
  {
    Doctor(d.clinicId.value, d.name.value, d.avatarImageUrl,
      d.availableFromWeekDay.value, d.availableToWeekDay.value,
      d.availableFromTime.value, d.availableToTime.value,
      d.appointmentPriceInCents.value, d.specialty.value, createdAt, updatedAt)
  }

  function PatchDoctorInput(d: DoctorInput, p: DoctorPatch): DoctorInput
  {
    DoctorInput(Apply(p.clinicId, d.clinicId), Apply(p.name, d.name),
      Apply(p.avatarImageUrl, d.avatarImageUrl),
      Apply(p.availableFromWeekDay, d.availableFromWeekDay), Apply(p.availableToWeekDay, d.availableToWeekDay),
      Apply(p.availableFromTime, d.availableFromTime), Apply(p.availableToTime, d.availableToTime),
      Apply(p.appointmentPriceInCents, d.appointmentPriceInCents), Apply(p.specialty, d.specialty))
  }

  /** The patch sets some notNull doctor column to null. */
  predicate DoctorPatchNullsRequired(p: DoctorPatch)
  {
    || p.clinicId.SetNull? || p.name.SetNull?
    || p.availableFromWeekDay.SetNull? || p.availableToWeekDay.SetNull?
    || p.availableFromTime.SetNull? || p.availableToTime.SetNull?
    || p.appointmentPriceInCents.SetNull? || p.specialty.SetNull?
  }

  /** Every notNull patient column is present and sex is one of the enum's labels. */
  predicate PatientInputValid(p: PatientInput)
  {
    && p.clinicId.Some? && p.name.Some? && p.email.Some? && p.phoneNumber.Some?
    && p.sex.Some? && ParseSex(p.sex.value).Some?
  }

  function PatientInputOf(x: Patient): PatientInput
  {
    PatientInput(Some(x.clinicId), Some(x.name), Some(x.email), Some(x.phoneNumber), Some(SexLabel(x.sex)))
  }

  function NewPatient(p: PatientInput, createdAt: Timestamp, updatedAt: Timestamp): (x: Patient)
    requires PatientInputValid(p)
    ensures PatientInputOf(x) == p
    ensures x.createdAt == createdAt && x.updatedAt == updatedAt
  {
    Patient(p.clinicId.value, p.name.value, p.email.value, p.phoneNumber.value,
      ParseSex(p.sex.value).value, createdAt, updatedAt)
  }

  function PatchPatientInput(x: PatientInput, p: PatientPatch): PatientInput
  {
    PatientInput(Apply(p.clinicId, x.clinicId), Apply(p.name, x.name), Apply(p.email, x.email),
      Apply(p.phoneNumber, x.phoneNumber), Apply(p.sex, x.sex))
  }

  predicate AppointmentInputComplete(a: AppointmentInput)
  {
    a.date.Some? && a.clinicId.Some? && a.patientId.Some? && a.doctorId.Some?
  }

  function AppointmentInputOf(x: Appointment): AppointmentInput
  {
    AppointmentInput(Some(x.date), Some(x.clinicId), Some(x.patientId), Some(x.doctorId))
  }

  function NewAppointment(a: AppointmentInput, createdAt: Timestamp, updatedAt: Timestamp): (x: Appointment)
    requires AppointmentInputComplete(a)
    ensures AppointmentInputOf(x) == a
    ensures x.createdAt == createdAt && x.updatedAt == updatedAt
  {
    Appointment(a.date.value, a.clinicId.value, a.patientId.value, a.doctorId.value, createdAt, updatedAt)
  }

  function PatchAppointmentInput(x: AppointmentInput, p: AppointmentPatch): AppointmentInput
  {
    AppointmentInput(Apply(p.date, x.date), Apply(p.clinicId, x.clinicId),
      Apply(p.patientId, x.patientId), Apply(p.doctorId, x.doctorId))
  }

  /** The three foreign keys of an appointment name existing rows. */
  predicate AppointmentTargetsIn(s: Store, a: AppointmentInput)
    requires AppointmentInputComplete(a)
  {
    a.clinicId.value in s.clinics && a.patientId.value in s.patients && a.doctorId.value in s.doctors
  }

  // ---------------------------------------------------------------------------
  // Inserts: validation, then uniqueness, then foreign keys; the new row gets
  // createdAt = updatedAt = now.
  // ---------------------------------------------------------------------------

  function InsertUser(s: Store, id: Uuid): (r: Result<Store, Error>)
    ensures r.Ok? <==> id !in s.users
    ensures id in s.users <==> r == Err(UniquenessViolation)
    ensures r.Ok? ==> r.value == s.(users := s.users + {id})
    ensures r.Ok? && Valid(s) ==> Valid(r.value)
    ensures r.Ok? ==> forall t: Timestamp :: StampedBy(s, t) ==> StampedBy(r.value, t)
  {
    if id in s.users then Err(UniquenessViolation)
    else Ok(s.(users := s.users + {id}))
  }

  function InsertClinic(s: Store, id: Uuid, c: ClinicInput, now: Timestamp): (r: Result<Store, Error>)
    ensures r.Ok? <==> c.name.Some? && id !in s.clinics
    ensures c.name.None? <==> r == Err(ValidationError)
    ensures c.name.Some? && id in s.clinics <==> r == Err(UniquenessViolation)
    ensures r.Ok? ==> id !in s.clinics && r.value == s.(clinics := s.clinics[id := Clinic(c.name.value, now, now)])
    ensures r.Ok? && Valid(s) ==> Valid(r.value)
    ensures r.Ok? && StampedBy(s, now) ==> StampedBy(r.value, now)
  {
    if c.name.None? then Err(ValidationError)
    else if id in s.clinics then Err(UniquenessViolation)
    else Ok(s.(clinics := s.clinics[id := Clinic(c.name.value, now, now)]))
  }

  /** No uniqueness on (userId, clinicId): a duplicate membership is accepted. */
  function InsertMembership(s: Store, m: MembershipInput, now: Timestamp): (r: Result<Store, Error>)
    ensures r.Ok? <==> m.userId.Some? && m.clinicId.Some? && m.userId.value in s.users && m.clinicId.value in s.clinics
    ensures m.userId.None? || m.clinicId.None? <==> r == Err(ValidationError)
    ensures m.userId.Some? && m.clinicId.Some? ==>
      (r == Err(ReferentialIntegrityError) <==> m.userId.value !in s.users || m.clinicId.value !in s.clinics)
    ensures r.Ok? ==> r.value == s.(userToClinics := s.userToClinics + [Membership(m.userId.value, m.clinicId.value, now, now)])
    ensures r.Ok? && Valid(s) ==> Valid(r.value)
    ensures r.Ok? && StampedBy(s, now) ==> StampedBy(r.value, now)
  {
    if m.userId.None? || m.clinicId.None? then Err(ValidationError)
    else if m.userId.value !in s.users || m.clinicId.value !in s.clinics then Err(ReferentialIntegrityError)
    else Ok(s.(userToClinics := s.userToClinics + [Membership(m.userId.value, m.clinicId.value, now, now)]))
  }

  function InsertDoctor(s: Store, id: Uuid, d: DoctorInput, now: Timestamp): (r: Result<Store, Error>)
    ensures r.Ok? <==> DoctorInputComplete(d) && id !in s.doctors && d.clinicId.value in s.clinics
    ensures !DoctorInputComplete(d) <==> r == Err(ValidationError)
    ensures DoctorInputComplete(d) && id in s.doctors <==> r == Err(UniquenessViolation)
    ensures DoctorInputComplete(d) && id !in s.doctors ==>
      (r == Err(ReferentialIntegrityError) <==> d.clinicId.value !in s.clinics)
    ensures r.Ok? ==> id !in s.doctors && id in r.value.doctors
    ensures r.Ok? ==> DoctorInputOf(r.value.doctors[id]) == d
    ensures r.Ok? ==> r.value.doctors[id].createdAt == now && r.value.doctors[id].updatedAt == now
    ensures r.Ok? ==> r.value == s.(doctors := r.value.doctors) && r.value.doctors - {id} == s.doctors
    ensures r.Ok? && Valid(s) ==> Valid(r.value)
    ensures r.Ok? && StampedBy(s, now) ==> StampedBy(r.value, now)
  {
    if !DoctorInputComplete(d) then Err(ValidationError)
    else if id in s.doctors then Err(UniquenessViolation)
    else if d.clinicId.value !in s.clinics then Err(ReferentialIntegrityError)
    else
      var r := s.(doctors := s.doctors[id := NewDoctor(d, now, now)]);
      assert r.doctors - {id} == s.doctors;
      Ok(r)
  }

  function InsertPatient(s: Store, id: Uuid, p: PatientInput, now: Timestamp): (r: Result<Store, Error>)
    ensures r.Ok? <==> PatientInputValid(p) && id !in s.patients && !EmailHeldByOther(s, p.email.value, None)
                       && p.clinicId.value in s.clinics
    ensures !PatientInputValid(p) <==> r == Err(ValidationError)
    ensures PatientInputValid(p) && (id in s.patients || EmailHeldByOther(s, p.email.value, None))
      <==> r == Err(UniquenessViolation)
    ensures PatientInputValid(p) && id !in s.patients && !EmailHeldByOther(s, p.email.value, None) ==>
      (r == Err(ReferentialIntegrityError) <==> p.clinicId.value !in s.clinics)
    ensures r.Ok? ==> id !in s.patients && id in r.value.patients
    ensures r.Ok? ==> PatientInputOf(r.value.patients[id]) == p
    ensures r.Ok? ==> r.value.patients[id].createdAt == now && r.value.patients[id].updatedAt == now
    ensures r.Ok? ==> r.value == s.(patients := r.value.patients) && r.value.patients - {id} == s.patients
    ensures r.Ok? && Valid(s) ==> Valid(r.value)
    ensures r.Ok? && StampedBy(s, now) ==> StampedBy(r.value, now)
  {
    if !PatientInputValid(p) then Err(ValidationError)
    else if id in s.patients || EmailHeldByOther(s, p.email.value, None) then Err(UniquenessViolation)
    else if p.clinicId.value !in s.clinics then Err(ReferentialIntegrityError)
    else
      var r := s.(patients := s.patients[id := NewPatient(p, now, now)]);
      assert r.patients - {id} == s.patients;
      Ok(r)
  }

  function InsertAppointment(s: Store, id: Uuid, a: AppointmentInput, now: Timestamp): (r: Result<Store, Error>)
    ensures r.Ok? <==> AppointmentInputComplete(a) && id !in s.appointments && AppointmentTargetsIn(s, a)
    ensures !AppointmentInputComplete(a) <==> r == Err(ValidationError)
    ensures AppointmentInputComplete(a) && id in s.appointments <==> r == Err(UniquenessViolation)
    ensures AppointmentInputComplete(a) && id !in s.appointments ==>
      (r == Err(ReferentialIntegrityError) <==> !AppointmentTargetsIn(s, a))
    ensures r.Ok? ==> id !in s.appointments && id in r.value.appointments
    ensures r.Ok? ==> AppointmentInputOf(r.value.appointments[id]) == a
    ensures r.Ok? ==> r.value.appointments[id].createdAt == now && r.value.appointments[id].updatedAt == now
    ensures r.Ok? ==> r.value == s.(appointments := r.value.appointments) && r.value.appointments - {id} == s.appointments
    ensures r.Ok? && Valid(s) ==> Valid(r.value)
    ensures r.Ok? && StampedBy(s, now) ==> StampedBy(r.value, now)
  {
    if !AppointmentInputComplete(a) then Err(ValidationError)
    else if id in s.appointments then Err(UniquenessViolation)
    else if !AppointmentTargetsIn(s, a) then Err(ReferentialIntegrityError)
    else
      var r := s.(appointments := s.appointments[id := NewAppointment(a, now, now)]);
      assert r.appointments - {id} == s.appointments;
      Ok(r)
  }

  // ---------------------------------------------------------------------------
  // Updates: the patched row must still have every notNull column, meet the
  // email uniqueness and name existing rows; createdAt is kept and updatedAt
  // becomes now.
  // ---------------------------------------------------------------------------

  function UpdateClinic(s: Store, id: Uuid, p: ClinicPatch, now: Timestamp): (r: Result<Store, Error>)
    ensures r.Ok? <==> id in s.clinics && !p.name.SetNull?
    ensures id !in s.clinics <==> r == Err(NotFoundError)
    ensures id in s.clinics ==> (p.name.SetNull? <==> r == Err(ValidationError))
    ensures r.Ok? ==> id in s.clinics && id in r.value.clinics
    ensures r.Ok? ==> Some(r.value.clinics[id].name) == Apply(p.name, Some(s.clinics[id].name))
    ensures r.Ok? ==> r.value.clinics[id].createdAt == s.clinics[id].createdAt && r.value.clinics[id].updatedAt == now
    ensures r.Ok? ==> r.value == s.(clinics := r.value.clinics) && r.value.clinics.Keys == s.clinics.Keys
    ensures r.Ok? ==> forall c :: c in s.clinics && c != id ==> r.value.clinics[c] == s.clinics[c]
    ensures r.Ok? && Valid(s) ==> Valid(r.value)
    ensures r.Ok? && StampedBy(s, now) ==> StampedBy(r.value, now)
  {
    if id !in s.clinics then Err(NotFoundError)
    else
      var name := Apply(p.name, Some(s.clinics[id].name));
      if name.None? then Err(ValidationError)
      else Ok(s.(clinics := s.clinics[id := s.clinics[id].(name := name.value, updatedAt := now)]))
  }

  function UpdateDoctor(s: Store, id: Uuid, p: DoctorPatch, now: Timestamp): (r: Result<Store, Error>)
    ensures r.Ok? <==> id in s.doctors && !DoctorPatchNullsRequired(p)
                       && PatchDoctorInput(DoctorInputOf(s.doctors[id]), p).clinicId.value in s.clinics
    ensures id !in s.doctors <==> r == Err(NotFoundError)
    ensures id in s.doctors ==> (DoctorPatchNullsRequired(p) <==> r == Err(ValidationError))
    ensures id in s.doctors && !DoctorPatchNullsRequired(p) ==>
      (r == Err(ReferentialIntegrityError) <==>
       PatchDoctorInput(DoctorInputOf(s.doctors[id]), p).clinicId.value !in s.clinics)
    ensures id in s.doctors && !DoctorPatchNullsRequired(p) && p.clinicId.SetTo? ==>
      (r == Err(ReferentialIntegrityError) <==> p.clinicId.value !in s.clinics)
    ensures r.Ok? ==> id in s.doctors && id in r.value.doctors
    ensures r.Ok? ==> DoctorInputOf(r.value.doctors[id]) == PatchDoctorInput(DoctorInputOf(s.doctors[id]), p)
    ensures r.Ok? ==> r.value.doctors[id].createdAt == s.doctors[id].createdAt && r.value.doctors[id].updatedAt == now
    ensures r.Ok? ==> r.value == s.(doctors := r.value.doctors) && r.value.doctors.Keys == s.doctors.Keys
    ensures r.Ok? ==> forall d :: d in s.doctors && d != id ==> r.value.doctors[d] == s.doctors[d]
    ensures r.Ok? && Valid(s) ==> Valid(r.value)
    ensures r.Ok? && StampedBy(s, now) ==> StampedBy(r.value, now)
  {
    if id !in s.doctors then Err(NotFoundError)
    else
      var row := PatchDoctorInput(DoctorInputOf(s.doctors[id]), p);
      if !DoctorInputComplete(row) then Err(ValidationError)
      else if row.clinicId.value !in s.clinics then Err(ReferentialIntegrityError)
      else Ok(s.(doctors := s.doctors[id := NewDoctor(row, s.doctors[id].createdAt, now)]))
  }

  function UpdatePatient(s: Store, id: Uuid, p: PatientPatch, now: Timestamp): (r: Result<Store, Error>)
    ensures r.Ok? <==>
      && id in s.patients
      && PatientInputValid(PatchPatientInput(PatientInputOf(s.patients[id]), p))
      && !EmailHeldByOther(s, PatchPatientInput(PatientInputOf(s.patients[id]), p).email.value, Some(id))
      && PatchPatientInput(PatientInputOf(s.patients[id]), p).clinicId.value in s.clinics
    ensures id !in s.patients <==> r == Err(NotFoundError)
    ensures id in s.patients ==>
      (!PatientInputValid(PatchPatientInput(PatientInputOf(s.patients[id]), p)) <==> r == Err(ValidationError))
    ensures id in s.patients && PatientInputValid(PatchPatientInput(PatientInputOf(s.patients[id]), p)) ==>
      (EmailHeldByOther(s, PatchPatientInput(PatientInputOf(s.patients[id]), p).email.value, Some(id)) <==>
       r == Err(UniquenessViolation))
    ensures id in s.patients && PatientInputValid(PatchPatientInput(PatientInputOf(s.patients[id]), p))
            && !EmailHeldByOther(s, PatchPatientInput(PatientInputOf(s.patients[id]), p).email.value, Some(id)) ==>
      (r == Err(ReferentialIntegrityError) <==>
       PatchPatientInput(PatientInputOf(s.patients[id]), p).clinicId.value !in s.clinics)
    ensures r.Ok? ==> id in s.patients && id in r.value.patients
    ensures r.Ok? ==> PatientInputOf(r.value.patients[id]) == PatchPatientInput(PatientInputOf(s.patients[id]), p)
    ensures r.Ok? ==> r.value.patients[id].createdAt == s.patients[id].createdAt && r.value.patients[id].updatedAt == now
    ensures r.Ok? ==> r.value == s.(patients := r.value.patients) && r.value.patients.Keys == s.patients.Keys
    ensures r.Ok? ==> forall q :: q in s.patients && q != id ==> r.value.patients[q] == s.patients[q]
    ensures r.Ok? && Valid(s) ==> Valid(r.value)
    ensures r.Ok? && StampedBy(s, now) ==> StampedBy(r.value, now)
  {
    if id !in s.patients then Err(NotFoundError)
    else
      var row := PatchPatientInput(PatientInputOf(s.patients[id]), p);
      if !PatientInputValid(row) then Err(ValidationError)
      else if EmailHeldByOther(s, row.email.value, Some(id)) then Err(UniquenessViolation)
      else if row.clinicId.value !in s.clinics then Err(ReferentialIntegrityError)
      else Ok(s.(patients := s.patients[id := NewPatient(row, s.patients[id].createdAt, now)]))
  }

  function UpdateAppointment(s: Store, id: Uuid, p: AppointmentPatch, now: Timestamp): (r: Result<Store, Error>)
    ensures r.Ok? <==>
      && id in s.appointments
      && AppointmentInputComplete(PatchAppointmentInput(AppointmentInputOf(s.appointments[id]), p))
      && AppointmentTargetsIn(s, PatchAppointmentInput(AppointmentInputOf(s.appointments[id]), p))
    ensures id !in s.appointments <==> r == Err(NotFoundError)
    ensures id in s.appointments ==>
      (p.date.SetNull? || p.clinicId.SetNull? || p.patientId.SetNull? || p.doctorId.SetNull? <==> r == Err(ValidationError))
    ensures id in s.appointments && AppointmentInputComplete(PatchAppointmentInput(AppointmentInputOf(s.appointments[id]), p)) ==>
      (!AppointmentTargetsIn(s, PatchAppointmentInput(AppointmentInputOf(s.appointments[id]), p)) <==>
       r == Err(ReferentialIntegrityError))
    ensures r.Ok? ==> id in s.appointments && id in r.value.appointments
    ensures r.Ok? ==> AppointmentInputOf(r.value.appointments[id]) == PatchAppointmentInput(AppointmentInputOf(s.appointments[id]), p)
    ensures r.Ok? ==> r.value.appointments[id].createdAt == s.appointments[id].createdAt && r.value.appointments[id].updatedAt == now
    ensures r.Ok? ==> r.value == s.(appointments := r.value.appointments) && r.value.appointments.Keys == s.appointments.Keys
    ensures r.Ok? ==> forall a :: a in s.appointments && a != id ==> r.value.appointments[a] == s.appointments[a]
    ensures r.Ok? && Valid(s) ==> Valid(r.value)
    ensures r.Ok? && StampedBy(s, now) ==> StampedBy(r.value, now)
  {
    if id !in s.appointments then Err(NotFoundError)
    else
      var row := PatchAppointmentInput(AppointmentInputOf(s.appointments[id]), p);
      if !AppointmentInputComplete(row) then Err(ValidationError)
      else if !AppointmentTargetsIn(s, row) then Err(ReferentialIntegrityError)
      else Ok(s.(appointments := s.appointments[id := NewAppointment(row, s.appointments[id].createdAt, now)]))
  }

  // ---------------------------------------------------------------------------
  // Relations used by the cascades ("doctors of clinic c", ...)
  // ---------------------------------------------------------------------------

  function DoctorsOf(s: Store, c: Uuid): set<Uuid>
  {
    set d | d in s.doctors && s.doctors[d].clinicId == c
  }

  function PatientsOf(s: Store, c: Uuid): set<Uuid>
  {
    set p | p in s.patients && s.patients[p].clinicId == c
  }

  // ---------------------------------------------------------------------------
  // Deletes. Every foreign key is ON DELETE CASCADE, so a delete never fails;
  // deleting an id that has no row removes nothing.
  // ---------------------------------------------------------------------------

  /** Removes the user and, by user_to_clinics.user_id, its memberships. */
  function DeleteUser(s: Store, u: Uuid): (r: Store)
    ensures Valid(s) ==> Valid(r)
    ensures forall t: Timestamp :: StampedBy(s, t) ==> StampedBy(r, t)
  {
    s.(users := s.users - {u}, userToClinics := Filter(s.userToClinics, (m: Membership) => m.userId != u))
  }

  /**
   * Removes the clinic and, by the four clinic_id keys, its memberships,
   * doctors, patients and appointments; by appointments.doctor_id and
   * .patient_id also every appointment of a removed doctor or patient.
   */
  function DeleteClinic(s: Store, c: Uuid): (r: Store)
    ensures Valid(s) ==> Valid(r)
    ensures forall t: Timestamp :: StampedBy(s, t) ==> StampedBy(r, t)
  {
    var ds := DoctorsOf(s, c);
    var ps := PatientsOf(s, c);
    Store(
      s.users,
      s.clinics - {c},
      Filter(s.userToClinics, (m: Membership) => m.clinicId != c),
      s.doctors - ds,
      s.patients - ps,
      map a | a in s.appointments && s.appointments[a].clinicId != c
                && s.appointments[a].doctorId !in ds && s.appointments[a].patientId !in ps
        :: s.appointments[a])
  }

  /** Removes the doctor and, by appointments.doctor_id, its appointments. */
  function DeleteDoctor(s: Store, d: Uuid): (r: Store)
    ensures Valid(s) ==> Valid(r)
    ensures forall t: Timestamp :: StampedBy(s, t) ==> StampedBy(r, t)
  {
    s.(doctors := s.doctors - {d},
       appointments := map a | a in s.appointments && s.appointments[a].doctorId != d :: s.appointments[a])
  }

  /** Removes the patient and, by appointments.patient_id, its appointments. */
  function DeletePatient(s: Store, p: Uuid): (r: Store)
    ensures Valid(s) ==> Valid(r)
    ensures forall t: Timestamp :: StampedBy(s, t) ==> StampedBy(r, t)
  {
    s.(patients := s.patients - {p},
       appointments := map a | a in s.appointments && s.appointments[a].patientId != p :: s.appointments[a])
  }

  /** Appointments are referenced by nothing, so only the one row goes. */
  function DeleteAppointment(s: Store, a: Uuid): (r: Store)
    ensures r == s.(appointments := r.appointments)
    ensures r.appointments.Keys == s.appointments.Keys - {a}
    ensures forall k :: k in r.appointments ==> r.appointments[k] == s.appointments[k]
    ensures Valid(s) ==> Valid(r)
    ensures forall t: Timestamp :: StampedBy(s, t) ==> StampedBy(r, t)
  {
    s.(appointments := s.appointments - {a})
  }

  /** Memberships are referenced by nothing; every row for the pair goes. */
  function DeleteMembership(s: Store, u: Uuid, c: Uuid): (r: Store)
    ensures r == s.(userToClinics := r.userToClinics)
    ensures forall m :: multiset(r.userToClinics)[m] ==
                        (if m.userId == u && m.clinicId == c then 0 else multiset(s.userToClinics)[m])
    ensures Valid(s) ==> Valid(r)
    ensures forall t: Timestamp :: StampedBy(s, t) ==> StampedBy(r, t)
  {
    s.(userToClinics := Filter(s.userToClinics, (m: Membership) => !(m.userId == u && m.clinicId == c)))
  }
}
