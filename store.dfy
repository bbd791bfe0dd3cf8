/** The database: one map or set per table, the integrity facts the tables
    keep (primary keys, unique columns, the appointment time order), and the
    lookups of a caller's own doctor or patient profile. */
module Store {
  import opened Common
  import opened AppointmentModel
  import opened UserModel
  import opened DoctorModel
  import opened PatientModel
  import opened MeetingModel

  /** Every appointment is stored under its own id and ends after it starts. */
  ghost predicate TableWellFormed(rows: map<Id, Appointment>) {
    forall k :: k in rows ==> rows[k].id == k && rows[k].startsAt < rows[k].endsAt
  }

  /** Accounts are keyed by id, e-mails are unique and stored lower-cased,
      and two-factor login is on only with a stored secret. */
  ghost predicate UsersWellFormed(users: map<Id, User>) {
    && (forall k :: k in users ==> users[k].id == k)
    && (forall k :: k in users ==> Lower(users[k].email) == users[k].email && TwoFaConsistent(users[k]))
    && (forall j, k :: j in users && k in users && users[j].email == users[k].email ==> j == k)
  }

  /** `doctors.user_id` is unique: at most one profile per account. */
  ghost predicate UniqueDoctorUsers(doctors: map<Id, Doctor>) {
    forall j, k :: j in doctors && k in doctors && doctors[j].userId.Some? && doctors[j].userId == doctors[k].userId ==> j == k
  }

  /** `patients.user_id` is unique: at most one profile per account. */
  ghost predicate UniquePatientUsers(patients: map<Id, Patient>) {
    forall j, k :: j in patients && k in patients && patients[j].userId.Some? && patients[j].userId == patients[k].userId ==> j == k
  }

  /** The directory tables the scheduler reads: profiles, clinics and the two
      membership link tables of (clinic_id, member_id) pairs. */
  datatype Directory = Directory(
    doctors: map<Id, Doctor>,
    patients: map<Id, Patient>,
    clinics: set<Id>,
    clinicDoctors: set<(Id, Id)>,
    clinicPatients: set<(Id, Id)>)
  {
    ghost predicate Valid() {
      && (forall k :: k in doctors ==> doctors[k].id == k)
      && (forall k :: k in patients ==> patients[k].id == k)
      && UniqueDoctorUsers(doctors)
      && UniquePatientUsers(patients)
    }
  }

  /** `select(Doctor.id).where(Doctor.user_id == uid)`: the profile linked to an account. */
  function DoctorForUserId(doctors: map<Id, Doctor>, uid: Id): (r: Option<Id>)
    requires UniqueDoctorUsers(doctors)
    ensures r.Some? <==> exists d :: d in doctors && doctors[d].userId == Some(uid)
    ensures r.Some? ==> r.value in doctors && doctors[r.value].userId == Some(uid)
  {
    if exists d :: d in doctors && doctors[d].userId == Some(uid) then
      var d :| d in doctors && doctors[d].userId == Some(uid); Some(d)
    else None
  }

  /** `_get_doctor_id_for_user`: only a doctor account has a doctor profile id. */
  function DoctorIdForUser(doctors: map<Id, Doctor>, u: User): (r: Option<Id>)
    requires UniqueDoctorUsers(doctors)
    ensures r.Some? ==> u.role == DoctorRole
    ensures u.role == DoctorRole ==> (r.Some? <==> exists d :: d in doctors && doctors[d].userId == Some(u.id))
    ensures r.Some? ==> r.value in doctors && doctors[r.value].userId == Some(u.id)
  {
    if u.role == DoctorRole then DoctorForUserId(doctors, u.id) else None
  }

  /** `select(Patient).where(Patient.user_id == uid)`: the profile linked to an account. */
  function PatientForUserId(patients: map<Id, Patient>, uid: Id): (r: Option<Id>)
    requires UniquePatientUsers(patients)
    ensures r.Some? <==> exists p :: p in patients && patients[p].userId == Some(uid)
    ensures r.Some? ==> r.value in patients && patients[r.value].userId == Some(uid)
  {
    if exists p :: p in patients && patients[p].userId == Some(uid) then
      var p :| p in patients && patients[p].userId == Some(uid); Some(p)
    else None
  }

  /** `_get_patient_id_for_user`: only a patient account has a patient profile id. */
  function PatientIdForUser(patients: map<Id, Patient>, u: User): (r: Option<Id>)
    requires UniquePatientUsers(patients)
    ensures r.Some? ==> u.role == PatientRole
    ensures u.role == PatientRole ==> (r.Some? <==> exists p :: p in patients && patients[p].userId == Some(u.id))
    ensures r.Some? ==> r.value in patients && patients[r.value].userId == Some(u.id)
  {
    if u.role == PatientRole then PatientForUserId(patients, u.id) else None
  }

  /** The database session the endpoints share: each field is one table. */
  class Db {
    var users: map<Id, User>
    var doctors: map<Id, Doctor>
    var patients: map<Id, Patient>
    var clinics: set<Id>
    var clinicDoctors: set<(Id, Id)>
    var clinicPatients: set<(Id, Id)>
    var appointments: map<Id, Appointment>
    /** `appointment_zooms`, keyed by appointment id; the foreign key (with
        `ON DELETE CASCADE`) keeps every meeting attached to a booking. */
    var meetings: map<Id, Meeting>

    function Dir(): Directory
      reads this
    {
      Directory(doctors, patients, clinics, clinicDoctors, clinicPatients)
    }

    ghost predicate Valid()
      reads this
    {
      && UsersWellFormed(users)
      && Dir().Valid()
      && TableWellFormed(appointments)
      && meetings.Keys <= appointments.Keys
    }

    constructor ()
      ensures Valid()
      ensures users == map[] && doctors == map[] && patients == map[] && clinics == {}
      ensures clinicDoctors == {} && clinicPatients == {} && appointments == map[] && meetings == map[]
    {
      users, doctors, patients, clinics := map[], map[], map[], {};
      clinicDoctors, clinicPatients, appointments, meetings := {}, {}, map[], map[];
    }
  }
}
