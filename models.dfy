/** The records the backend stores and exchanges: the appointment row with
    its two enumerations and its create/update request shapes, the user
    account, the doctor and patient profiles, and the video-meeting row. */
module AppointmentModel {
  import opened Common

  /** `ApptType`: a visit at the clinic, or a video consultation. */
  datatype ApptType = Presencial | Virtual

  /** `ApptStatus`: a cancelled booking stays in the table but frees its slot. */
  datatype ApptStatus = Pending | Confirmed | Cancelled

  /** The stored and serialised value of a type. */
  function TypeName(t: ApptType): (s: string)
    ensures s in {"presencial", "virtual"}
    ensures s == "virtual" <==> t == Virtual
  {
    match t
    case Presencial => "presencial"
    case Virtual => "virtual"
  }

  /** The stored and serialised value of a status. */
  function StatusName(st: ApptStatus): (s: string)
    ensures s in {"pending", "confirmed", "cancelled"}
    ensures s == "cancelled" <==> st == Cancelled
  {
    match st
    case Pending => "pending"
    case Confirmed => "confirmed"
    case Cancelled => "cancelled"
  }

  /** A status given as text: only the three stored names denote a status. */
  function ParseStatus(s: string): (r: Option<ApptStatus>)
    ensures r.Some? <==> s in {"pending", "confirmed", "cancelled"}
    ensures r.Some? ==> StatusName(r.value) == s
  {
    if s == "pending" then Some(Pending)
    else if s == "confirmed" then Some(Confirmed)
    else if s == "cancelled" then Some(Cancelled)
    else None
  }

  lemma StatusNameRoundTrip(st: ApptStatus)
    ensures ParseStatus(StatusName(st)) == Some(st)
  {
  }

  /** An appointment row, which is also `AppointmentOut`: the flat record
      {id, doctor_id, patient_id, clinic_id, starts_at, ends_at, type, status}
      every appointment endpoint returns.  Timestamps are naive seconds.  The
      column defaults give a row without an explicit type or status the
      values `presencial` and `pending`. */
  datatype Appointment = Appointment(
    id: Id,
    doctorId: Id,
    patientId: Id,
    clinicId: Id,
    startsAt: int,
    endsAt: int,
    kind: ApptType := Presencial,
    status: ApptStatus := Pending)

  /** `AppointmentCreate`: the doctor may be omitted (a doctor caller then books
      for their own profile); type and status default as in the table. */
  datatype AppointmentCreate = AppointmentCreate(
    patientId: Id,
    clinicId: Id,
    startsAt: int,
    endsAt: int,
    doctorId: Option<Id> := None,
    kind: ApptType := Presencial,
    status: ApptStatus := Pending)

  /** A request body with only the required fields gets the documented defaults. */
  lemma CreateDefaults(patientId: Id, clinicId: Id, startsAt: int, endsAt: int)
    ensures AppointmentCreate(patientId, clinicId, startsAt, endsAt).doctorId == None
    ensures AppointmentCreate(patientId, clinicId, startsAt, endsAt).kind == Presencial
    ensures AppointmentCreate(patientId, clinicId, startsAt, endsAt).status == Pending
  {
  }

  /** `AppointmentUpdate` after `model_dump(exclude_unset=True)`: `Some` marks
      a field the request set.  The schema has no doctor field, so no patch
      can name a new doctor. */
  datatype AppointmentUpdate = AppointmentUpdate(
    patientId: Option<Id> := None,
    clinicId: Option<Id> := None,
    startsAt: Option<int> := None,
    endsAt: Option<int> := None,
    kind: Option<ApptType> := None,
    status: Option<ApptStatus> := None)
  {
    /** The patch names `starts_at`, `ends_at`, `doctor_id` or `clinic_id`;
        the last-but-one can never be present. */
    predicate TouchesSlot() {
      startsAt.Some? || endsAt.Some? || clinicId.Some?
    }
  }

  /** The `setattr` loop: every field the patch sets takes the patched value,
      every other field keeps its value, and the id and doctor never change. */
  function ApplyPatch(ap: Appointment, p: AppointmentUpdate): (r: Appointment)
    ensures r.id == ap.id && r.doctorId == ap.doctorId
    ensures p.patientId.Some? ==> r.patientId == p.patientId.value
    ensures p.patientId.None? ==> r.patientId == ap.patientId
    ensures p.clinicId.Some? ==> r.clinicId == p.clinicId.value
    ensures p.clinicId.None? ==> r.clinicId == ap.clinicId
    ensures p.startsAt.Some? ==> r.startsAt == p.startsAt.value
    ensures p.startsAt.None? ==> r.startsAt == ap.startsAt
    ensures p.endsAt.Some? ==> r.endsAt == p.endsAt.value
    ensures p.endsAt.None? ==> r.endsAt == ap.endsAt
    ensures p.kind.Some? ==> r.kind == p.kind.value
    ensures p.kind.None? ==> r.kind == ap.kind
    ensures p.status.Some? ==> r.status == p.status.value
    ensures p.status.None? ==> r.status == ap.status
  {
    ap.(patientId := p.patientId.GetOr(ap.patientId),
        clinicId := p.clinicId.GetOr(ap.clinicId),
        startsAt := p.startsAt.GetOr(ap.startsAt),
        endsAt := p.endsAt.GetOr(ap.endsAt),
        kind := p.kind.GetOr(ap.kind),
        status := p.status.GetOr(ap.status))
  }

  /** An empty patch changes nothing, and applying a patch twice is the same
      as applying it once. */
  lemma ApplyPatchIdempotent(ap: Appointment, p: AppointmentUpdate)
    ensures ApplyPatch(ap, AppointmentUpdate()) == ap
    ensures ApplyPatch(ApplyPatch(ap, p), p) == ApplyPatch(ap, p)
  {
  }
}

module UserModel {
  import opened Common

  /** A user account.  New accounts are active, with two-factor login off and
      no secret. */
  datatype User = User(
    id: Id,
    email: string,
    fullName: string,
    role: Role,
    hashedPassword: string,
    isActive: bool := true,
    is2faEnabled: bool := false,
    twofaSecret: Option<string> := None)

  /** Two-factor login is only ever on while a secret is stored. */
  predicate TwoFaConsistent(u: User) {
    u.is2faEnabled ==> Truthy(u.twofaSecret)
  }
}

module DoctorModel {
  import opened Common

  /** The profile fields `DoctorUpdate` may set. */
  datatype DoctorField = Name | Specialty | Email | Phone | Color | License
                       | SignaturePng | StampPng | PhotoUrl | Sex | BirthDate
  {
    /** `name` and `specialty` are the columns of `doctors` declared NOT NULL. */
    predicate Required() {
      this == Name || this == Specialty
    }
  }

  /** A patch that sets a NOT NULL column to null, which the commit refuses. */
  predicate ClearsRequired(patch: map<DoctorField, Option<string>>) {
    exists f :: f in patch && f.Required() && patch[f].None?
  }

  /** A doctor profile, optionally linked to the user account it belongs to. */
  datatype Doctor = Doctor(id: Id, userId: Option<Id>, attrs: map<DoctorField, Option<string>>)
}

module PatientModel {
  import opened Common

  /** The profile fields `PatientUpdate` may set. */
  datatype PatientField = Name | Email | DocId | Phone | Notes | InsuranceProvider
                        | InsurancePlan | InsuranceMemberId | PhotoUrl | Sex | BirthDate
  {
    /** `name` is the one column of `patients` declared NOT NULL. */
    predicate Required() {
      this == Name
    }
  }

  /** A patch that sets a NOT NULL column to null, which the commit refuses. */
  predicate ClearsRequired(patch: map<PatientField, Option<string>>) {
    exists f :: f in patch && f.Required() && patch[f].None?
  }

  /** A patient profile, optionally linked to the user account it belongs to. */
  datatype Patient = Patient(id: Id, userId: Option<Id>, attrs: map<PatientField, Option<string>>)
}

module MeetingModel {
  /** `AppointmentZoom`: the video meeting of one virtual appointment, stored
      under the appointment's id. */
  datatype Meeting = Meeting(meetingId: string, startUrl: string, joinUrl: string, passcode: string)
}
