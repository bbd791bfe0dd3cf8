/** Video meetings of virtual appointments: who may fetch a meeting link and
    which link they get, and the idempotent creation of the meeting row.  The
    meeting provider (its OAuth tokens and HTTP API) is a parameter. */
module Meetings {
  import opened Common
  import opened AppointmentModel
  import opened UserModel
  import opened MeetingModel
  import opened Store
  import Appointments

  // ---------- get_zoom_link ----------

  /** The participant test of `get_zoom_link`: an admin, the doctor whose
      linked profile id equals the booking's doctor, or the patient whose
      linked profile id equals the booking's patient. */
  predicate IsParticipant(u: User, ap: Appointment, myDoc: Option<Id>, myPat: Option<Id>) {
    || u.role == AdminRole
    || (u.role == DoctorRole && myDoc == Some(ap.doctorId))
    || (u.role == PatientRole && myPat == Some(ap.patientId))
  }

  /** For bookings with non-empty doctor and patient ids, the participants
      of a meeting are exactly those who may view the booking. */
  lemma ParticipantsAreViewers(u: User, ap: Appointment, myDoc: Option<Id>, myPat: Option<Id>)
    requires ap.doctorId != "" && ap.patientId != ""
    ensures IsParticipant(u, ap, myDoc, myPat) <==> Appointments.CanView(u, ap, myDoc, myPat)
  {
  }

  /** The answer of `get_zoom_link`: the caller's part, the URL to open and the passcode. */
  datatype ZoomLink = ZoomLink(role: string, url: string, passcode: string)

  /** `get_zoom_link`: 404 for a missing or non-virtual booking, 403 for a
      non-participant, 400 while no meeting exists; otherwise admins and the
      owning doctor get the host URL (labelled "admin" or "doctor") and the
      patient gets the join URL, always with the passcode. */
  function GetZoomLink(rows: map<Id, Appointment>, dir: Directory, meetings: map<Id, Meeting>, caller: User, apptId: Id)
    : (r: Outcome<ZoomLink>)
    requires dir.Valid()
    ensures r == Fail(NotFound) <==> apptId !in rows || rows[apptId].kind != Virtual
    ensures r == Fail(Forbidden) <==>
      && apptId in rows && rows[apptId].kind == Virtual
      && !IsParticipant(caller, rows[apptId], DoctorIdForUser(dir.doctors, caller), PatientIdForUser(dir.patients, caller))
    ensures r == Fail(BadRequest) <==>
      && apptId in rows && rows[apptId].kind == Virtual
      && IsParticipant(caller, rows[apptId], DoctorIdForUser(dir.doctors, caller), PatientIdForUser(dir.patients, caller))
      && apptId !in meetings
    ensures r.Ok? <==>
      && apptId in rows && rows[apptId].kind == Virtual
      && IsParticipant(caller, rows[apptId], DoctorIdForUser(dir.doctors, caller), PatientIdForUser(dir.patients, caller))
      && apptId in meetings
    ensures r.Ok? ==> apptId in meetings && r.value.passcode == meetings[apptId].passcode
    ensures r.Ok? && caller.role == AdminRole ==> r.value == ZoomLink("admin", meetings[apptId].startUrl, meetings[apptId].passcode)
    ensures r.Ok? && caller.role == DoctorRole ==> r.value == ZoomLink("doctor", meetings[apptId].startUrl, meetings[apptId].passcode)
    ensures r.Ok? && caller.role == PatientRole ==> r.value == ZoomLink("patient", meetings[apptId].joinUrl, meetings[apptId].passcode)
  {
    if apptId !in rows || rows[apptId].kind != Virtual then Fail(NotFound)
    else
      var ap := rows[apptId];
      var isAdmin := caller.role == AdminRole;
      var isDoctor := caller.role == DoctorRole && DoctorIdForUser(dir.doctors, caller) == Some(ap.doctorId);
      var isPatient := caller.role == PatientRole && PatientIdForUser(dir.patients, caller) == Some(ap.patientId);
      if !(isAdmin || isDoctor || isPatient) then Fail(Forbidden)
      else if apptId !in meetings then Fail(BadRequest)
      else
        var z := meetings[apptId];
        if isAdmin || isDoctor then Ok(ZoomLink(if isDoctor then "doctor" else "admin", z.startUrl, z.passcode))
        else Ok(ZoomLink("patient", z.joinUrl, z.passcode))
  }

  // ---------- ensure_meeting ----------

  /** `max(15, int((ends_at - starts_at).seconds / 60))`: `timedelta.seconds`
      is the part of the difference below one day, always in 0..86399 (so
      whole days are dropped, and a negative difference wraps), and the
      result is never below 15 minutes. */
  function DurationMinutes(startsAt: int, endsAt: int): (m: int)
    ensures 15 <= m < 1440
    ensures 900 <= endsAt - startsAt < 86400 ==> m == (endsAt - startsAt) / 60
    ensures 0 <= endsAt - startsAt < 900 ==> m == 15
  {
    Max(15, ((endsAt - startsAt) % 86400) / 60)
  }

  /** The day part of the difference is dropped: a booking lasting one day
      longer asks for a meeting of the same length, and a 25-hour booking
      asks for a one-hour meeting. */
  lemma DurationDropsWholeDays(startsAt: int, endsAt: int)
    ensures DurationMinutes(startsAt, endsAt + 86400) == DurationMinutes(startsAt, endsAt)
    ensures DurationMinutes(0, 90000) == 60
  {
    var d := endsAt - startsAt;
    assert (d + 86400) % 86400 == d % 86400;
  }

  /** What the meeting provider is asked for: a meeting hosted by the doctor's
      user account, starting with the booking, for a duration in minutes. */
  datatype MeetingRequest = MeetingRequest(hostUserId: Id, startsAt: int, durationMin: int)

  /** What the provider answers: its meeting id, the two URLs, and the
      optional password. */
  datatype MeetingData = MeetingData(id: string, startUrl: string, joinUrl: string, password: Option<string>)

  /** The answer of `ensure_meeting`: `{"ok": false}` for a missing or
      non-virtual booking, otherwise the booking's meeting. */
  datatype Ensured = NotEligible | Ready(meeting: Meeting)

  /** The request `ensure_meeting` sends for a booking whose doctor is linked
      to the account `hostUserId`. */
  function RequestFor(ap: Appointment, hostUserId: Id): (q: MeetingRequest)
    ensures q.hostUserId == hostUserId && q.startsAt == ap.startsAt
    ensures q.durationMin == DurationMinutes(ap.startsAt, ap.endsAt) && 15 <= q.durationMin
  {
    MeetingRequest(hostUserId, ap.startsAt, DurationMinutes(ap.startsAt, ap.endsAt))
  }

  /** The decision of `ensure_meeting`.  `createMeeting` is the provider call. */
  function EnsureOutcome(rows: map<Id, Appointment>, doctors: map<Id, DoctorModel.Doctor>, meetings: map<Id, Meeting>,
                         apptId: Id, createMeeting: MeetingRequest -> MeetingData): (r: Outcome<Ensured>)
    ensures r == Ok(NotEligible) <==> apptId !in rows || rows[apptId].kind != Virtual
    ensures apptId in rows && rows[apptId].kind == Virtual && apptId in meetings ==> r == Ok(Ready(meetings[apptId]))
    ensures r == Fail(NotFound) <==> apptId in rows && rows[apptId].kind == Virtual && apptId !in meetings
                                     && rows[apptId].doctorId !in doctors
    ensures r == Fail(BadRequest) <==> apptId in rows && rows[apptId].kind == Virtual && apptId !in meetings
                                       && rows[apptId].doctorId in doctors && !Truthy(doctors[rows[apptId].doctorId].userId)
    ensures apptId in rows && rows[apptId].kind == Virtual && apptId !in meetings
            && rows[apptId].doctorId in doctors && Truthy(doctors[rows[apptId].doctorId].userId)
            ==> r.Ok? && r.value.Ready?
    ensures r.Ok? && r.value.Ready? && apptId !in meetings ==>
      var data := createMeeting(RequestFor(rows[apptId], doctors[rows[apptId].doctorId].userId.value));
      r.value.meeting == Meeting(data.id, data.startUrl, data.joinUrl, data.password.GetOr(""))
  {
    if apptId !in rows || rows[apptId].kind != Virtual then Ok(NotEligible)
    else if apptId in meetings then Ok(Ready(meetings[apptId]))
    else
      var ap := rows[apptId];
      if ap.doctorId !in doctors then Fail(NotFound)
      else
        var host := doctors[ap.doctorId].userId;
        if !Truthy(host) then Fail(BadRequest)
        else
          var data := createMeeting(RequestFor(ap, host.value));
          Ok(Ready(Meeting(data.id, data.startUrl, data.joinUrl, data.password.GetOr(""))))
  }

  /** Ensuring twice is ensuring once: once a meeting has been stored, asking
      again returns that same meeting, whatever the provider would now say. */
  lemma EnsureIdempotent(rows: map<Id, Appointment>, doctors: map<Id, DoctorModel.Doctor>, meetings: map<Id, Meeting>,
                          apptId: Id, createMeeting: MeetingRequest -> MeetingData,
                          laterCreateMeeting: MeetingRequest -> MeetingData)
    requires EnsureOutcome(rows, doctors, meetings, apptId, createMeeting).Ok?
    requires EnsureOutcome(rows, doctors, meetings, apptId, createMeeting).value.Ready?
    ensures var m := EnsureOutcome(rows, doctors, meetings, apptId, createMeeting).value.meeting;
      EnsureOutcome(rows, doctors, meetings[apptId := m], apptId, laterCreateMeeting) == Ok(Ready(m))
  {
  }

  /** `ensure_meeting`, for any signed-in caller: a new meeting row is stored
      only when the booking is virtual, has none yet, and its doctor is linked
      to a user account; nothing else changes. */
  method EnsureMeeting(db: Db, apptId: Id, createMeeting: MeetingRequest -> MeetingData) returns (r: Outcome<Ensured>)
    requires db.Valid()
    modifies db`meetings
    ensures db.Valid()
    ensures r == EnsureOutcome(db.appointments, db.doctors, old(db.meetings), apptId, createMeeting)
    ensures db.meetings == if r.Ok? && r.value.Ready? && apptId !in old(db.meetings)
                           then old(db.meetings)[apptId := r.value.meeting] else old(db.meetings)
  {
    if apptId !in db.appointments {
      return Ok(NotEligible);
    }
    var ap := db.appointments[apptId];
    if ap.kind != Virtual {
      return Ok(NotEligible);
    }
    if apptId in db.meetings {
      return Ok(Ready(db.meetings[apptId]));
    }
    if ap.doctorId !in db.doctors {
      return Fail(NotFound);
    }
    var doc := db.doctors[ap.doctorId];
    if !Truthy(doc.userId) {
      return Fail(BadRequest);
    }
    var data := createMeeting(RequestFor(ap, doc.userId.value));
    var z := Meeting(data.id, data.startUrl, data.joinUrl, data.password.GetOr(""));
    db.meetings := db.meetings[apptId := z];
    r := Ok(Ready(z));
  }
}
