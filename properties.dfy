/**
 * Properties of the schema model that relate several writes: the exact
 * dependents each cascade removes, the transitivity of the clinic cascade,
 * global uniqueness of patient email, the stamps across a run of writes, and
 * the invariant over any sequence of writes.
 */
module SchemaProperties {
  import opened Wrappers
  import opened Schema

  // ---------------------------------------------------------------------------
  // Cascades
  // ---------------------------------------------------------------------------

  /**
   * Deleting a clinic removes exactly its memberships, doctors and patients,
   * and exactly the appointments that name it, one of its doctors or one of
   * its patients. Everything that stays is unchanged.
   */
  lemma DeleteClinicExact(s: Store, c: Uuid)
    ensures DeleteClinic(s, c).users == s.users
    ensures DeleteClinic(s, c).clinics.Keys == s.clinics.Keys - {c}
    ensures forall k :: k in DeleteClinic(s, c).clinics ==> DeleteClinic(s, c).clinics[k] == s.clinics[k]
    ensures forall m :: multiset(DeleteClinic(s, c).userToClinics)[m] ==
                        (if m.clinicId == c then 0 else multiset(s.userToClinics)[m])
    ensures forall d :: d in DeleteClinic(s, c).doctors <==> d in s.doctors && s.doctors[d].clinicId != c
    ensures forall d :: d in DeleteClinic(s, c).doctors ==> DeleteClinic(s, c).doctors[d] == s.doctors[d]
    ensures forall p :: p in DeleteClinic(s, c).patients <==> p in s.patients && s.patients[p].clinicId != c
    ensures forall p :: p in DeleteClinic(s, c).patients ==> DeleteClinic(s, c).patients[p] == s.patients[p]
    ensures forall a :: a in DeleteClinic(s, c).appointments <==>
      && a in s.appointments
      && s.appointments[a].clinicId != c
      && !(s.appointments[a].doctorId in s.doctors && s.doctors[s.appointments[a].doctorId].clinicId == c)
      && !(s.appointments[a].patientId in s.patients && s.patients[s.appointments[a].patientId].clinicId == c)
    ensures forall a :: a in DeleteClinic(s, c).appointments ==> DeleteClinic(s, c).appointments[a] == s.appointments[a]
  {
  }

  /**
   * After a clinic is deleted from a valid store, no row refers to it, and no
   * appointment survives whose doctor or patient belonged to it.
   */
  lemma DeleteClinicLeavesNoReference(s: Store, c: Uuid)
    requires Valid(s)
    ensures c !in DeleteClinic(s, c).clinics
    ensures forall m :: m in DeleteClinic(s, c).userToClinics ==> m.clinicId != c
    ensures forall d :: d in DeleteClinic(s, c).doctors ==> DeleteClinic(s, c).doctors[d].clinicId != c
    ensures forall p :: p in DeleteClinic(s, c).patients ==> DeleteClinic(s, c).patients[p].clinicId != c
    ensures forall a :: a in DeleteClinic(s, c).appointments ==>
      && DeleteClinic(s, c).appointments[a].clinicId != c
      && s.doctors[DeleteClinic(s, c).appointments[a].doctorId].clinicId != c
      && s.patients[DeleteClinic(s, c).appointments[a].patientId].clinicId != c
  {

  }

  /** The clinic cascade subsumes the doctor cascade: deleting one of its doctors first changes nothing. */
  lemma DeleteClinicAbsorbsDoctor(s: Store, c: Uuid, d: Uuid)
    requires d in s.doctors && s.doctors[d].clinicId == c
    ensures DeleteClinic(DeleteDoctor(s, d), c) == DeleteClinic(s, c)
  {

  }

  /** The clinic cascade subsumes the patient cascade: deleting one of its patients first changes nothing. */
  lemma DeleteClinicAbsorbsPatient(s: Store, c: Uuid, p: Uuid)
    requires p in s.patients && s.patients[p].clinicId == c
    ensures DeleteClinic(DeletePatient(s, p), c) == DeleteClinic(s, c)
  {

  }

  /** Deleting a doctor removes exactly the appointments naming it; nothing else changes. */
  lemma DeleteDoctorExact(s: Store, d: Uuid)
    ensures DeleteDoctor(s, d).users == s.users && DeleteDoctor(s, d).clinics == s.clinics
    ensures DeleteDoctor(s, d).userToClinics == s.userToClinics && DeleteDoctor(s, d).patients == s.patients
    ensures DeleteDoctor(s, d).doctors.Keys == s.doctors.Keys - {d}
    ensures forall k :: k in DeleteDoctor(s, d).doctors ==> DeleteDoctor(s, d).doctors[k] == s.doctors[k]
    ensures forall a :: a in DeleteDoctor(s, d).appointments <==> a in s.appointments && s.appointments[a].doctorId != d
    ensures forall a :: a in DeleteDoctor(s, d).appointments ==> DeleteDoctor(s, d).appointments[a] == s.appointments[a]
  {
  }

  /** Deleting a patient removes exactly the appointments naming it; nothing else changes. */
  lemma DeletePatientExact(s: Store, p: Uuid)
    ensures DeletePatient(s, p).users == s.users && DeletePatient(s, p).clinics == s.clinics
    ensures DeletePatient(s, p).userToClinics == s.userToClinics && DeletePatient(s, p).doctors == s.doctors
    ensures DeletePatient(s, p).patients.Keys == s.patients.Keys - {p}
    ensures forall k :: k in DeletePatient(s, p).patients ==> DeletePatient(s, p).patients[k] == s.patients[k]
    ensures forall a :: a in DeletePatient(s, p).appointments <==> a in s.appointments && s.appointments[a].patientId != p
    ensures forall a :: a in DeletePatient(s, p).appointments ==> DeletePatient(s, p).appointments[a] == s.appointments[a]
  {
  }

  /** Deleting a user removes exactly its membership rows; clinics and clinic-scoped tables are untouched. */
  lemma DeleteUserExact(s: Store, u: Uuid)
    ensures DeleteUser(s, u).users == s.users - {u}
    ensures forall m :: multiset(DeleteUser(s, u).userToClinics)[m] ==
                        (if m.userId == u then 0 else multiset(s.userToClinics)[m])
    ensures DeleteUser(s, u).clinics == s.clinics && DeleteUser(s, u).doctors == s.doctors
    ensures DeleteUser(s, u).patients == s.patients && DeleteUser(s, u).appointments == s.appointments
  {
  }

  /** Filtering with a test every row passes keeps the table as it is. */
  lemma {:induction false} FilterKeepsAll(xs: seq<Membership>, keep: Membership -> bool)
    requires forall m :: m in xs ==> keep(m)
    ensures Filter(xs, keep) == xs
  {
    if xs != [] {
      assert forall m :: m in xs[1..] ==> m in xs;
      FilterKeepsAll(xs[1..], keep);
    }
  }

  /** In a valid store, deleting a clinic that does not exist removes nothing. */
  lemma DeleteMissingClinicIsNoOp(s: Store, c: Uuid)
    requires Valid(s) && c !in s.clinics
    ensures DeleteClinic(s, c) == s
  {
    var r := DeleteClinic(s, c);
    FilterKeepsAll(s.userToClinics, (m: Membership) => m.clinicId != c);
    assert r.userToClinics == s.userToClinics;
    assert r.clinics == s.clinics;
    assert DoctorsOf(s, c) == {} by {
      assert forall d :: d in s.doctors ==> s.doctors[d].clinicId != c;
    }
    assert PatientsOf(s, c) == {} by {
      assert forall p :: p in s.patients ==> s.patients[p].clinicId != c;
    }
    assert r.doctors == s.doctors;
    assert r.patients == s.patients;
    assert r.appointments == s.appointments;
  }

  /** In a valid store, deleting a doctor that does not exist removes nothing. */
  lemma DeleteMissingDoctorIsNoOp(s: Store, d: Uuid)
    requires Valid(s) && d !in s.doctors
    ensures DeleteDoctor(s, d) == s
  {

  }

  /** In a valid store, deleting a patient that does not exist removes nothing. */
  lemma DeleteMissingPatientIsNoOp(s: Store, p: Uuid)
    requires Valid(s) && p !in s.patients
    ensures DeletePatient(s, p) == s
  {

  }

  /** In a valid store, deleting a user that does not exist removes nothing. */
  lemma DeleteMissingUserIsNoOp(s: Store, u: Uuid)
    requires Valid(s) && u !in s.users
    ensures DeleteUser(s, u) == s
  {
    FilterKeepsAll(s.userToClinics, (m: Membership) => m.userId != u);
  }

  // ---------------------------------------------------------------------------
  // Patient email and sex
  // ---------------------------------------------------------------------------

  /** A second patient with an email already stored is refused, in any clinic. */
  lemma DuplicateEmailRejected(s: Store, id1: Uuid, p1: PatientInput, t1: Timestamp,
                               id2: Uuid, p2: PatientInput, t2: Timestamp)
    requires InsertPatient(s, id1, p1, t1).Ok?
    requires PatientInputValid(p2) && p2.email == p1.email
    ensures InsertPatient(InsertPatient(s, id1, p1, t1).value, id2, p2, t2) == Err(UniquenessViolation)
  {

  }

  /** Two patients of the same clinic with distinct new emails are both stored. */
  lemma DistinctEmailsBothAccepted(s: Store, c: Uuid, id1: Uuid, p1: PatientInput, t1: Timestamp,
                                   id2: Uuid, p2: PatientInput, t2: Timestamp)
    requires c in s.clinics && id1 != id2 && id1 !in s.patients && id2 !in s.patients
    requires PatientInputValid(p1) && PatientInputValid(p2)
    requires p1.clinicId == Some(c) && p2.clinicId == Some(c)
    requires p1.email != p2.email
    requires !EmailHeldByOther(s, p1.email.value, None) && !EmailHeldByOther(s, p2.email.value, None)
    ensures InsertPatient(s, id1, p1, t1).Ok?
    ensures InsertPatient(InsertPatient(s, id1, p1, t1).value, id2, p2, t2).Ok?
  {

  }

  /** Changing a patient's email to one another patient holds is refused. */
  lemma UpdateToTakenEmailRejected(s: Store, id: Uuid, other: Uuid, p: PatientPatch, now: Timestamp)
    requires id in s.patients && other in s.patients && id != other
    requires p.email == SetTo(s.patients[other].email)
    requires PatientInputValid(PatchPatientInput(PatientInputOf(s.patients[id]), p))
    ensures UpdatePatient(s, id, p, now) == Err(UniquenessViolation)
  {

  }

  /** The enum labels read back as the values they name. */
  lemma SexRoundTrip(x: Sex)
    ensures ParseSex(SexLabel(x)) == Some(x)
  {
  }

  /** A patient whose sex is not one of the three labels is refused and nothing is stored. */
  lemma UnknownSexRejected(s: Store, id: Uuid, p: PatientInput, now: Timestamp)
    requires p.sex == Some("unknown")
    ensures InsertPatient(s, id, p, now) == Err(ValidationError)
  {

  }

  /** Memberships carry no uniqueness: the same pair can be inserted twice. */
  lemma DuplicateMembershipAccepted(s: Store, m: MembershipInput, t1: Timestamp, t2: Timestamp)
    requires InsertMembership(s, m, t1).Ok?
    ensures InsertMembership(InsertMembership(s, m, t1).value, m, t2).Ok?
  {
  }

  /** An id drawn fresh for its table never trips the primary-key check of an insert. */
  lemma FreshIdNeverCollides(s: Store, c: ClinicInput, d: DoctorInput, p: PatientInput, a: AppointmentInput, now: Timestamp)
    ensures InsertUser(s, FreshId(s.users)).Ok?
    ensures InsertClinic(s, FreshId(s.clinics.Keys), c, now) != Err(UniquenessViolation)
    ensures InsertDoctor(s, FreshId(s.doctors.Keys), d, now) != Err(UniquenessViolation)
    ensures InsertAppointment(s, FreshId(s.appointments.Keys), a, now) != Err(UniquenessViolation)
    ensures PatientInputValid(p) && !EmailHeldByOther(s, p.email.value, None) ==>
      InsertPatient(s, FreshId(s.patients.Keys), p, now) != Err(UniquenessViolation)
  {
  }

  // ---------------------------------------------------------------------------
  // Any sequence of writes
  // ---------------------------------------------------------------------------

  /** One write statement against the store. */
  datatype Command =
    | AddUser(userId: Uuid)
    | AddClinic(clinicId: Uuid, clinic: ClinicInput)
    | AddMembership(membership: MembershipInput)
    | AddDoctor(doctorId: Uuid, doctor: DoctorInput)
    | AddPatient(patientId: Uuid, patient: PatientInput)
    | AddAppointment(appointmentId: Uuid, appointment: AppointmentInput)
    | EditClinic(clinicId: Uuid, clinicPatch: ClinicPatch)
    | EditDoctor(doctorId: Uuid, doctorPatch: DoctorPatch)
    | EditPatient(patientId: Uuid, patientPatch: PatientPatch)
    | EditAppointment(appointmentId: Uuid, appointmentPatch: AppointmentPatch)
    | RemoveUser(userId: Uuid)
    | RemoveClinic(clinicId: Uuid)
    | RemoveMembership(userId: Uuid, clinicId: Uuid)
    | RemoveDoctor(doctorId: Uuid)
    | RemovePatient(patientId: Uuid)
    | RemoveAppointment(appointmentId: Uuid)

  function Execute(s: Store, cmd: Command, now: Timestamp): Result<Store, Error>
  {
    match cmd
    case AddUser(u) => InsertUser(s, u)
    case AddClinic(id, c) => InsertClinic(s, id, c, now)
    case AddMembership(m) => InsertMembership(s, m, now)
    case AddDoctor(id, d) => InsertDoctor(s, id, d, now)
    case AddPatient(id, p) => InsertPatient(s, id, p, now)
    case AddAppointment(id, a) => InsertAppointment(s, id, a, now)
    case EditClinic(id, p) => UpdateClinic(s, id, p, now)
    case EditDoctor(id, p) => UpdateDoctor(s, id, p, now)
    case EditPatient(id, p) => UpdatePatient(s, id, p, now)
    case EditAppointment(id, p) => UpdateAppointment(s, id, p, now)
    case RemoveUser(u) => Ok(DeleteUser(s, u))
    case RemoveClinic(c) => Ok(DeleteClinic(s, c))
    case RemoveMembership(u, c) => Ok(DeleteMembership(s, u, c))
    case RemoveDoctor(d) => Ok(DeleteDoctor(s, d))
    case RemovePatient(p) => Ok(DeletePatient(s, p))
    case RemoveAppointment(a) => Ok(DeleteAppointment(s, a))
  }

  /** The store after one write: the new store, or the old one when the write is refused. */
  function After(s: Store, cmd: Command, now: Timestamp): (r: Store)
    ensures Execute(s, cmd, now).Err? ==> r == s
    ensures Valid(s) ==> Valid(r)
    ensures StampedBy(s, now) ==> StampedBy(r, now)
  {
    match Execute(s, cmd, now)
    case Ok(t) => t
    case Err(_) => s
  }

  /** The clock readings of a log never go backwards, starting from t. */
  ghost predicate ClockFrom(t: Timestamp, log: seq<(Command, Timestamp)>)
    decreases |log|
  {
    log == [] || (t <= log[0].1 && ClockFrom(log[0].1, log[1..]))
  }

  function LastTime(t: Timestamp, log: seq<(Command, Timestamp)>): Timestamp
    decreases |log|
  {
    if log == [] then t else LastTime(log[0].1, log[1..])
  }

  /** Runs the writes of a log in order, each at its own clock reading. */
  function Run(s: Store, log: seq<(Command, Timestamp)>): Store
    decreases |log|
  {
    if log == [] then s else Run(After(s, log[0].0, log[0].1), log[1..])
  }

  /** Referential integrity and email uniqueness hold after any sequence of writes. */
  lemma {:induction false} RunKeepsValid(s: Store, log: seq<(Command, Timestamp)>)
    requires Valid(s)
    ensures Valid(Run(s, log))
    decreases |log|
  {
    if log != [] {
      RunKeepsValid(After(s, log[0].0, log[0].1), log[1..]);
    }
  }

  /** With a monotone clock every row keeps createdAt <= updatedAt <= the latest reading. */
  lemma {:induction false} RunKeepsStamps(s: Store, t: Timestamp, log: seq<(Command, Timestamp)>)
    requires StampedBy(s, t) && ClockFrom(t, log)
    ensures StampedBy(Run(s, log), LastTime(t, log))
    decreases |log|
  {
    if log != [] {
      var now := log[0].1;
      assert StampedBy(s, now);
      RunKeepsStamps(After(s, log[0].0, now), now, log[1..]);
    }
  }

  /** Every store reachable from the empty one is valid. */
  lemma ReachableIsValid(log: seq<(Command, Timestamp)>)
    ensures Valid(Run(Empty, log))
  {
    RunKeepsValid(Empty, log);
  }

  /**
   * No write alters the createdAt of a doctor that is there before and after
   * it, and with a monotone clock none moves its updatedAt backwards.
   */
  lemma StepKeepsDoctorStamps(s: Store, cmd: Command, now: Timestamp, id: Uuid)
    requires StampedBy(s, now)
    requires id in s.doctors && id in After(s, cmd, now).doctors
    ensures After(s, cmd, now).doctors[id].createdAt == s.doctors[id].createdAt
    ensures s.doctors[id].updatedAt <= After(s, cmd, now).doctors[id].updatedAt
  {
  }

  /** As StepKeepsDoctorStamps, for patients. */
  lemma StepKeepsPatientStamps(s: Store, cmd: Command, now: Timestamp, id: Uuid)
    requires StampedBy(s, now)
    requires id in s.patients && id in After(s, cmd, now).patients
    ensures After(s, cmd, now).patients[id].createdAt == s.patients[id].createdAt
    ensures s.patients[id].updatedAt <= After(s, cmd, now).patients[id].updatedAt
  {
  }

  /** As StepKeepsDoctorStamps, for clinics. */
  lemma StepKeepsClinicStamps(s: Store, cmd: Command, now: Timestamp, id: Uuid)
    requires StampedBy(s, now)
    requires id in s.clinics && id in After(s, cmd, now).clinics
    ensures After(s, cmd, now).clinics[id].createdAt == s.clinics[id].createdAt
    ensures s.clinics[id].updatedAt <= After(s, cmd, now).clinics[id].updatedAt
  {
  }

  /** As StepKeepsDoctorStamps, for appointments. */
  lemma StepKeepsAppointmentStamps(s: Store, cmd: Command, now: Timestamp, id: Uuid)
    requires StampedBy(s, now)
    requires id in s.appointments && id in After(s, cmd, now).appointments
    ensures After(s, cmd, now).appointments[id].createdAt == s.appointments[id].createdAt
    ensures s.appointments[id].updatedAt <= After(s, cmd, now).appointments[id].updatedAt
  {
  }

  // ---------------------------------------------------------------------------
  // A concrete scenario
  // ---------------------------------------------------------------------------

  /**
   * Clinic 1, doctor 2 at 15000 cents, patient 3 and appointment 4 of both;
   * deleting doctor 2 removes appointment 4 and keeps clinic 1 and patient 3.
   */
  lemma DeleteDoctorScenario()
    ensures
      var s1 := InsertClinic(Empty, 1, ClinicInput(Some("C1")), 10);
      s1.Ok? &&
      var s2 := InsertDoctor(s1.value, 2, DoctorInput(Some(1), Some("D1"), None, Some("1"), Some("5"),
                  Some("08:00"), Some("18:00"), Some(15000), Some("cardiology")), 11);
      s2.Ok? &&
      var s3 := InsertPatient(s2.value, 3, PatientInput(Some(1), Some("P1"), Some("p1@example.org"),
                  Some("555"), Some("female")), 12);
      s3.Ok? &&
      var s4 := InsertAppointment(s3.value, 4, AppointmentInput(Some(100), Some(1), Some(3), Some(2)), 13);
      s4.Ok? &&
      var s5 := DeleteDoctor(s4.value, 2);
      4 !in s5.appointments && 1 in s5.clinics && 3 in s5.patients && 2 !in s5.doctors
  {

  }
}
