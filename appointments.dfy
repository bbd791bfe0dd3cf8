/** The appointment endpoints: who may see and change a booking, how a
    booking is created (doctor resolution, time order, existence, clinic
    membership, overlap), how a partial update is checked and applied, and
    how bookings are read, listed and deleted. */
module Appointments {
  import opened Common
  import opened AppointmentModel
  import opened UserModel
  import opened Store
  import opened Overlap
  import opened Listing
  import Deps

  // ---------- access predicates ----------

  /** `_can_view`: an admin; the doctor whose linked profile owns the booking;
      the patient whose linked profile the booking is for. */
  predicate CanView(u: User, ap: Appointment, myDoc: Option<Id>, myPat: Option<Id>) {
    || u.role == AdminRole
    || (u.role == DoctorRole && Truthy(myDoc) && ap.doctorId == myDoc.value)
    || (u.role == PatientRole && Truthy(myPat) && ap.patientId == myPat.value)
  }

  /** `_can_edit`: an admin, or the doctor whose linked profile owns the booking. */
  predicate CanEdit(u: User, ap: Appointment, myDoc: Option<Id>) {
    u.role == AdminRole || (u.role == DoctorRole && myDoc == Some(ap.doctorId))
  }

  /** Patients never edit; whoever may edit a booking (with a real doctor id)
      may also view it; a doctor edits exactly the bookings of their profile. */
  lemma AccessRules(u: User, ap: Appointment, myDoc: Option<Id>, myPat: Option<Id>)
    ensures u.role == PatientRole ==> !CanEdit(u, ap, myDoc)
    ensures ap.doctorId != "" && CanEdit(u, ap, myDoc) ==> CanView(u, ap, myDoc, myPat)
    ensures u.role == DoctorRole ==> (CanEdit(u, ap, myDoc) <==> myDoc == Some(ap.doctorId))
    ensures u.role == AdminRole ==> CanEdit(u, ap, myDoc) && CanView(u, ap, myDoc, myPat)
  {
  }

  /** `_validate_times`: 400 unless the booking ends strictly after it starts. */
  function ValidateTimes(startsAt: int, endsAt: int): (r: Option<HttpError>)
    ensures r.None? <==> startsAt < endsAt
    ensures r.Some? ==> r.value == BadRequest
  {
    if endsAt <= startsAt then Some(BadRequest) else None
  }

  // ---------- create ----------

  /** The doctor of a new booking.  A doctor caller needs a linked profile
      (400 otherwise) and books for it unless the request names a doctor;
      any other caller must name one (400 otherwise). */
  function ResolveDoctor(caller: User, requested: Option<Id>, myDoc: Option<Id>): (r: Outcome<Id>)
    ensures r.Ok? ==> r.value != ""
    ensures r.Fail? ==> r.error == BadRequest
    ensures caller.role == DoctorRole && !Truthy(myDoc) ==> r.Fail?
    ensures caller.role == DoctorRole && Truthy(myDoc) && !Truthy(requested) ==> r == Ok(myDoc.value)
    ensures Truthy(requested) && (caller.role == DoctorRole ==> Truthy(myDoc)) ==> r == Ok(requested.value)
    ensures caller.role != DoctorRole && !Truthy(requested) ==> r.Fail?
  {
    var doctorId :=
      if caller.role == DoctorRole && Truthy(myDoc) && !Truthy(requested) then myDoc else requested;
    if caller.role == DoctorRole && !Truthy(myDoc) then Fail(BadRequest)
    else if !Truthy(doctorId) then Fail(BadRequest)
    else Ok(doctorId.value)
  }

  /** What `create_appointment` answers, and the row it stores on success. */
  ghost function CreateOutcome(rows: map<Id, Appointment>, dir: Directory, caller: User, p: AppointmentCreate, newId: Id)
    : (r: Outcome<Appointment>)
    requires dir.Valid()
    ensures p.endsAt <= p.startsAt ==> r == Fail(BadRequest)
    ensures ResolveDoctor(caller, p.doctorId, DoctorIdForUser(dir.doctors, caller)).Fail? ==> r == Fail(BadRequest)
    ensures r.Fail? ==> r.error in {BadRequest, NotFound, ServerError}
    ensures r.Ok? <==>
      && ResolveDoctor(caller, p.doctorId, DoctorIdForUser(dir.doctors, caller)).Ok?
      && var d := ResolveDoctor(caller, p.doctorId, DoctorIdForUser(dir.doctors, caller)).value;
      && p.startsAt < p.endsAt
      && d in dir.doctors && p.patientId in dir.patients && p.clinicId in dir.clinics
      && (p.clinicId, d) in dir.clinicDoctors && (p.clinicId, p.patientId) in dir.clinicPatients
      && ConflictIds(rows, d, p.clinicId, p.startsAt, p.endsAt, None) == {}
      && newId !in rows
    ensures r.Ok? ==>
      && ResolveDoctor(caller, p.doctorId, DoctorIdForUser(dir.doctors, caller)) == Ok(r.value.doctorId)
      && r.value == Appointment(newId, r.value.doctorId, p.patientId, p.clinicId, p.startsAt, p.endsAt, p.kind, p.status)
      && newId !in rows
      && r.value.startsAt < r.value.endsAt
      && r.value.doctorId in dir.doctors && p.patientId in dir.patients && p.clinicId in dir.clinics
      && (p.clinicId, r.value.doctorId) in dir.clinicDoctors
      && (p.clinicId, p.patientId) in dir.clinicPatients
      && ConflictIds(rows, r.value.doctorId, p.clinicId, p.startsAt, p.endsAt, None) == {}
  {
    match ResolveDoctor(caller, p.doctorId, DoctorIdForUser(dir.doctors, caller))
    case Fail(err) => Fail(err)
    case Ok(d) =>
      if ValidateTimes(p.startsAt, p.endsAt).Some? then Fail(BadRequest)
      else if d !in dir.doctors || p.patientId !in dir.patients || p.clinicId !in dir.clinics then Fail(NotFound)
      else if (p.clinicId, d) !in dir.clinicDoctors then Fail(BadRequest)
      else if (p.clinicId, p.patientId) !in dir.clinicPatients then Fail(BadRequest)
      else if OverlapError(ConflictIds(rows, d, p.clinicId, p.startsAt, p.endsAt, None)).Some? then Fail(BadRequest)
      else if newId in rows then Fail(ServerError)
      else Ok(Appointment(newId, d, p.patientId, p.clinicId, p.startsAt, p.endsAt, p.kind, p.status))
  }

  /** Once the doctor is resolved and the times are in order: a missing
      doctor, patient or clinic is 404; a doctor or patient outside the clinic
      is 400; otherwise the booking is refused with 400 exactly when an
      active booking of that doctor at that clinic overlaps it, and without
      such a booking it is stored exactly when the fresh id is unused. */
  lemma CreateChecks(rows: map<Id, Appointment>, dir: Directory, caller: User, p: AppointmentCreate, newId: Id, d: Id)
    requires dir.Valid()
    requires ResolveDoctor(caller, p.doctorId, DoctorIdForUser(dir.doctors, caller)) == Ok(d)
    requires p.startsAt < p.endsAt
    ensures d !in dir.doctors || p.patientId !in dir.patients || p.clinicId !in dir.clinics
            ==> CreateOutcome(rows, dir, caller, p, newId) == Fail(NotFound)
    ensures d in dir.doctors && p.patientId in dir.patients && p.clinicId in dir.clinics
            && ((p.clinicId, d) !in dir.clinicDoctors || (p.clinicId, p.patientId) !in dir.clinicPatients)
            ==> CreateOutcome(rows, dir, caller, p, newId) == Fail(BadRequest)
    ensures d in dir.doctors && p.patientId in dir.patients && p.clinicId in dir.clinics
            && (p.clinicId, d) in dir.clinicDoctors && (p.clinicId, p.patientId) in dir.clinicPatients
            ==> (CreateOutcome(rows, dir, caller, p, newId) == Fail(BadRequest)
                 <==> exists k :: k in rows && Blocks(rows[k], d, p.clinicId, p.startsAt, p.endsAt, None))
    ensures d in dir.doctors && p.patientId in dir.patients && p.clinicId in dir.clinics
            && (p.clinicId, d) in dir.clinicDoctors && (p.clinicId, p.patientId) in dir.clinicPatients
            && !(exists k :: k in rows && Blocks(rows[k], d, p.clinicId, p.startsAt, p.endsAt, None))
            ==> (CreateOutcome(rows, dir, caller, p, newId)
                 == if newId in rows then Fail(ServerError)
                    else Ok(Appointment(newId, d, p.patientId, p.clinicId, p.startsAt, p.endsAt, p.kind, p.status)))
  {
    var c := ConflictIds(rows, d, p.clinicId, p.startsAt, p.endsAt, None);
    if exists k :: k in rows && Blocks(rows[k], d, p.clinicId, p.startsAt, p.endsAt, None) {
      var k :| k in rows && Blocks(rows[k], d, p.clinicId, p.startsAt, p.endsAt, None);
      assert k in c;
    }
  }

  /** A successful create keeps every booking well-formed and keeps the
      table free of double bookings. */
  lemma CreateKeepsInvariants(rows: map<Id, Appointment>, dir: Directory, caller: User, p: AppointmentCreate, newId: Id)
    requires dir.Valid() && TableWellFormed(rows)
    requires CreateOutcome(rows, dir, caller, p, newId).Ok?
    ensures TableWellFormed(rows[newId := CreateOutcome(rows, dir, caller, p, newId).value])
    ensures NoDoubleBooking(rows) ==> NoDoubleBooking(rows[newId := CreateOutcome(rows, dir, caller, p, newId).value])
  {
    var a := CreateOutcome(rows, dir, caller, p, newId).value;
    if NoDoubleBooking(rows) {
      WriteWithoutConflictKeepsNoDoubleBooking(rows, a, None);
    }
  }

  /** `create_appointment`: the checks in the order the endpoint runs them,
      then the insert of one fresh row.  `newId` is the uuid the row's
      default would draw; if it already names a row the insert fails. */
  method CreateAppointment(db: Db, caller: User, p: AppointmentCreate, newId: Id) returns (r: Outcome<Appointment>)
    requires db.Valid()
    modifies db`appointments
    ensures db.Valid()
    ensures r == CreateOutcome(old(db.appointments), db.Dir(), caller, p, newId)
    ensures db.appointments == if r.Ok? then old(db.appointments)[newId := r.value] else old(db.appointments)
    ensures NoDoubleBooking(old(db.appointments)) ==> NoDoubleBooking(db.appointments)
  {
    var doctorId := p.doctorId;
    if caller.role == DoctorRole {
      var myDoc := DoctorIdForUser(db.doctors, caller);
      if !Truthy(myDoc) {
        return Fail(BadRequest);
      }
      if !Truthy(doctorId) {
        doctorId := myDoc;
      }
    }
    if !Truthy(doctorId) {
      return Fail(BadRequest);
    }
    var d := doctorId.value;
    if p.endsAt <= p.startsAt {
      return Fail(BadRequest);
    }
    if d !in db.doctors || p.patientId !in db.patients || p.clinicId !in db.clinics {
      return Fail(NotFound);
    }
    if (p.clinicId, d) !in db.clinicDoctors || (p.clinicId, p.patientId) !in db.clinicPatients {
      return Fail(BadRequest);
    }
    var hit := FindConflict(db.appointments, d, p.clinicId, p.startsAt, p.endsAt, None);
    if hit.Some? {
      return Fail(BadRequest);
    }
    if newId in db.appointments {
      return Fail(ServerError);
    }
    var ap := Appointment(newId, d, p.patientId, p.clinicId, p.startsAt, p.endsAt, p.kind, p.status);
    CreateKeepsInvariants(db.appointments, db.Dir(), caller, p, newId);
    db.appointments := db.appointments[newId := ap];
    r := Ok(ap);
  }

  // ---------- update ----------

  /** What `update_appointment` answers, and the new value of the row. */
  ghost function UpdateOutcome(rows: map<Id, Appointment>, dir: Directory, caller: User, id: Id, patch: AppointmentUpdate)
    : (r: Outcome<Appointment>)
    requires dir.Valid()
    ensures id !in rows ==> r == Fail(NotFound)
    ensures id in rows && !CanEdit(caller, rows[id], DoctorIdForUser(dir.doctors, caller)) ==> r == Fail(Forbidden)
    ensures id in rows && CanEdit(caller, rows[id], DoctorIdForUser(dir.doctors, caller)) && !patch.TouchesSlot()
            ==> r == Ok(ApplyPatch(rows[id], patch))
    ensures r.Fail? ==> r.error in {NotFound, Forbidden, BadRequest}
    ensures r.Ok? ==> id in rows && r.value == ApplyPatch(rows[id], patch)
    ensures id in rows && CanEdit(caller, rows[id], DoctorIdForUser(dir.doctors, caller)) && patch.TouchesSlot() ==>
      var s := patch.startsAt.GetOr(rows[id].startsAt);
      var e := patch.endsAt.GetOr(rows[id].endsAt);
      var c := patch.clinicId.GetOr(rows[id].clinicId);
      (r.Ok? <==> s < e && ConflictIds(rows, rows[id].doctorId, c, s, e, Some(rows[id].id)) == {})
    ensures r.Ok? && patch.TouchesSlot() ==>
      && r.value.startsAt < r.value.endsAt
      && ConflictIds(rows, r.value.doctorId, r.value.clinicId, r.value.startsAt, r.value.endsAt, Some(rows[id].id)) == {}
  {
    if id !in rows then Fail(NotFound)
    else
      var ap := rows[id];
      if !CanEdit(caller, ap, DoctorIdForUser(dir.doctors, caller)) then Fail(Forbidden)
      else if patch.TouchesSlot() then
        var s := patch.startsAt.GetOr(ap.startsAt);
        var e := patch.endsAt.GetOr(ap.endsAt);
        var c := patch.clinicId.GetOr(ap.clinicId);
        if ValidateTimes(s, e).Some? then Fail(BadRequest)
        else if OverlapError(ConflictIds(rows, ap.doctorId, c, s, e, Some(ap.id))).Some? then Fail(BadRequest)
        else Ok(ApplyPatch(ap, patch))
      else Ok(ApplyPatch(ap, patch))
  }

  /** A permitted patch that moves the slot is refused with 400 exactly when
      the effective times are out of order or another active booking of the
      same doctor at the effective clinic overlaps them, and is applied
      otherwise; the booking itself never counts. */
  lemma UpdateSlotChecks(rows: map<Id, Appointment>, dir: Directory, caller: User, id: Id, patch: AppointmentUpdate)
    requires dir.Valid() && TableWellFormed(rows)
    requires id in rows && CanEdit(caller, rows[id], DoctorIdForUser(dir.doctors, caller))
    requires patch.TouchesSlot()
    ensures var ap := rows[id];
      var s := patch.startsAt.GetOr(ap.startsAt);
      var e := patch.endsAt.GetOr(ap.endsAt);
      var c := patch.clinicId.GetOr(ap.clinicId);
      (UpdateOutcome(rows, dir, caller, id, patch) == Fail(BadRequest)
       <==> e <= s || exists k :: k in rows && k != id && Blocks(rows[k], ap.doctorId, c, s, e, None))
    ensures var ap := rows[id];
      var s := patch.startsAt.GetOr(ap.startsAt);
      var e := patch.endsAt.GetOr(ap.endsAt);
      var c := patch.clinicId.GetOr(ap.clinicId);
      s < e && !(exists k :: k in rows && k != id && Blocks(rows[k], ap.doctorId, c, s, e, None))
      ==> UpdateOutcome(rows, dir, caller, id, patch) == Ok(ApplyPatch(ap, patch))
  {
    var ap := rows[id];
    var s := patch.startsAt.GetOr(ap.startsAt);
    var e := patch.endsAt.GetOr(ap.endsAt);
    var c := patch.clinicId.GetOr(ap.clinicId);
    var conflicts := ConflictIds(rows, ap.doctorId, c, s, e, Some(ap.id));
    if exists k :: k in rows && k != id && Blocks(rows[k], ap.doctorId, c, s, e, None) {
      var k :| k in rows && k != id && Blocks(rows[k], ap.doctorId, c, s, e, None);
      assert k in conflicts;
    }
  }

  /** A successful update keeps every booking well-formed; one that moves
      the slot also keeps the table free of double bookings. */
  lemma UpdateKeepsInvariants(rows: map<Id, Appointment>, dir: Directory, caller: User, id: Id, patch: AppointmentUpdate)
    requires dir.Valid() && TableWellFormed(rows)
    requires UpdateOutcome(rows, dir, caller, id, patch).Ok?
    ensures TableWellFormed(rows[id := UpdateOutcome(rows, dir, caller, id, patch).value])
    ensures patch.TouchesSlot() && NoDoubleBooking(rows)
            ==> NoDoubleBooking(rows[id := UpdateOutcome(rows, dir, caller, id, patch).value])
  {
    var a := UpdateOutcome(rows, dir, caller, id, patch).value;
    if patch.TouchesSlot() && NoDoubleBooking(rows) {
      WriteWithoutConflictKeepsNoDoubleBooking(rows, a, Some(id));
    }
  }

  /** An update never consults clinics or membership links: moving a booking
      to a clinic its doctor does not belong to is not refused. */
  lemma UpdateIgnoresMembership(rows: map<Id, Appointment>, dir: Directory, caller: User, id: Id, patch: AppointmentUpdate)
    requires dir.Valid()
    ensures UpdateOutcome(rows, dir, caller, id, patch)
         == UpdateOutcome(rows, dir.(clinics := {}, clinicDoctors := {}, clinicPatients := {}), caller, id, patch)
  {
  }

  /** A booking alone in its doctor's schedule can be moved anywhere, even
      onto part of its own old slot. */
  lemma MoveWithinOwnSlot(ap: Appointment, dir: Directory, caller: User, s: int, e: int)
    requires dir.Valid() && s < e
    requires CanEdit(caller, ap, DoctorIdForUser(dir.doctors, caller))
    ensures UpdateOutcome(map[ap.id := ap], dir, caller, ap.id, AppointmentUpdate(startsAt := Some(s), endsAt := Some(e)))
         == Ok(ap.(startsAt := s, endsAt := e))
  {
    var rows := map[ap.id := ap];
    assert ConflictIds(rows, ap.doctorId, ap.clinicId, s, e, Some(ap.id)) == {};
  }

  /** The quirk of status-only patches: two bookings of the same slot, one of
      them cancelled, do not double-book; a patch that only sets the
      cancelled one back to pending skips the overlap check, succeeds, and
      leaves the slot double-booked. */
  lemma StatusOnlyPatchCanDoubleBook()
    ensures var admin := User("U", "admin@clinic", "Admin", AdminRole, "h");
      var dir := Directory(map[], map[], {}, {}, {});
      var rows := map["A" := ScenarioRow("A", 36000, 37800, Confirmed),
                      "B" := ScenarioRow("B", 36000, 37800, Cancelled)];
      var patch := AppointmentUpdate(status := Some(Pending));
      && NoDoubleBooking(rows)
      && UpdateOutcome(rows, dir, admin, "B", patch) == Ok(ScenarioRow("B", 36000, 37800, Pending))
      && !NoDoubleBooking(rows["B" := ScenarioRow("B", 36000, 37800, Pending)])
  {
    var rows := map["A" := ScenarioRow("A", 36000, 37800, Confirmed),
                    "B" := ScenarioRow("B", 36000, 37800, Cancelled)];
    var after := rows["B" := ScenarioRow("B", 36000, 37800, Pending)];
    assert "A" in after && "B" in after && Active(after["A"]) && Active(after["B"]);
  }

  /** `update_appointment`: 404, 403, then (only when the slot moves) the
      time and overlap checks on the effective values, then the patch is
      applied to that one row. */
  method UpdateAppointment(db: Db, caller: User, id: Id, patch: AppointmentUpdate) returns (r: Outcome<Appointment>)
    requires db.Valid()
    modifies db`appointments
    ensures db.Valid()
    ensures r == UpdateOutcome(old(db.appointments), db.Dir(), caller, id, patch)
    ensures db.appointments == if r.Ok? then old(db.appointments)[id := r.value] else old(db.appointments)
  {
    if id !in db.appointments {
      return Fail(NotFound);
    }
    var ap := db.appointments[id];
    var myDoc := DoctorIdForUser(db.doctors, caller);
    if !CanEdit(caller, ap, myDoc) {
      return Fail(Forbidden);
    }
    if patch.TouchesSlot() {
      var s := patch.startsAt.GetOr(ap.startsAt);
      var e := patch.endsAt.GetOr(ap.endsAt);
      var c := patch.clinicId.GetOr(ap.clinicId);
      if ValidateTimes(s, e).Some? {
        return Fail(BadRequest);
      }
      var hit := FindConflict(db.appointments, ap.doctorId, c, s, e, Some(ap.id));
      if hit.Some? {
        return Fail(BadRequest);
      }
    }
    var updated := ApplyPatch(ap, patch);
    UpdateKeepsInvariants(db.appointments, db.Dir(), caller, id, patch);
    db.appointments := db.appointments[id := updated];
    r := Ok(updated);
  }

  // ---------- get / delete ----------

  /** `get_appointment`: 404 for an unknown id, 403 unless the caller may
      view the booking, else the booking. */
  function GetAppointment(rows: map<Id, Appointment>, dir: Directory, caller: User, id: Id): (r: Outcome<Appointment>)
    requires dir.Valid()
    ensures r == Fail(NotFound) <==> id !in rows
    ensures r.Ok? <==> id in rows && CanView(caller, rows[id], DoctorIdForUser(dir.doctors, caller), PatientIdForUser(dir.patients, caller))
    ensures r.Ok? ==> r.value == rows[id]
    ensures r.Fail? ==> r.error in {NotFound, Forbidden}
  {
    if id !in rows then Fail(NotFound)
    else if !CanView(caller, rows[id], DoctorIdForUser(dir.doctors, caller), PatientIdForUser(dir.patients, caller)) then Fail(Forbidden)
    else Ok(rows[id])
  }

  /** What `delete_appointment` answers: 404, then 403 unless the caller may edit. */
  function DeleteOutcome(rows: map<Id, Appointment>, dir: Directory, caller: User, id: Id): (r: Outcome<()>)
    requires dir.Valid()
    ensures r == Fail(NotFound) <==> id !in rows
    ensures r.Ok? <==> id in rows && CanEdit(caller, rows[id], DoctorIdForUser(dir.doctors, caller))
    ensures r.Fail? ==> r.error in {NotFound, Forbidden}
  {
    if id !in rows then Fail(NotFound)
    else if !CanEdit(caller, rows[id], DoctorIdForUser(dir.doctors, caller)) then Fail(Forbidden)
    else Ok(())
  }

  /** `delete_appointment`: a hard delete of that one row; the database's
      `ON DELETE CASCADE` removes its meeting row with it. */
  method DeleteAppointment(db: Db, caller: User, id: Id) returns (r: Outcome<()>)
    requires db.Valid()
    modifies db`appointments, db`meetings
    ensures db.Valid()
    ensures r == DeleteOutcome(old(db.appointments), db.Dir(), caller, id)
    ensures r.Ok? ==> db.appointments == old(db.appointments) - {id} && db.meetings == old(db.meetings) - {id}
    ensures r.Fail? ==> db.appointments == old(db.appointments) && db.meetings == old(db.meetings)
    ensures NoDoubleBooking(old(db.appointments)) ==> NoDoubleBooking(db.appointments)
  {
    r := DeleteOutcome(db.appointments, db.Dir(), caller, id);
    if r.Ok? {
      db.appointments := db.appointments - {id};
      db.meetings := db.meetings - {id};
    }
  }

  // ---------- list ----------

  /** The query parameters of `list_appointments`, with their defaults. */
  datatype ListQuery = ListQuery(
    dateFrom: Option<int> := None,
    dateTo: Option<int> := None,
    clinicId: Option<Id> := None,
    status: Option<string> := None,
    limit: int := 50,
    offset: int := 0)

  /** Which bookings a caller's listing starts from. */
  datatype Scope = Everything | OfDoctor(doctorId: Id) | OfPatient(patientId: Id)

  /** The role scoping of the listing: a doctor or a patient with a linked
      profile sees only their own bookings; everyone else, an unlinked doctor
      or patient included, starts from every booking. */
  function ListScope(caller: User, myDoc: Option<Id>, myPat: Option<Id>): (s: Scope)
    ensures caller.role == DoctorRole && Truthy(myDoc) ==> s == OfDoctor(myDoc.value)
    ensures caller.role == PatientRole && Truthy(myPat) ==> s == OfPatient(myPat.value)
    ensures s == Everything <==> !(caller.role == DoctorRole && Truthy(myDoc)) && !(caller.role == PatientRole && Truthy(myPat))
  {
    if caller.role == DoctorRole && Truthy(myDoc) then OfDoctor(myDoc.value)
    else if caller.role == PatientRole && Truthy(myPat) then OfPatient(myPat.value)
    else Everything
  }

  predicate InScope(s: Scope, a: Appointment) {
    match s
    case Everything => true
    case OfDoctor(d) => a.doctorId == d
    case OfPatient(p) => a.patientId == p
  }

  /** The `status` filter: a known status name filters, anything else is ignored. */
  function StatusFilter(status: Option<string>): (r: Option<ApptStatus>)
    ensures r.Some? <==> status.Some? && status.value in {"pending", "confirmed", "cancelled"}
    ensures r.Some? ==> StatusName(r.value) == status.value
  {
    if status.Some? then ParseStatus(status.value) else None
  }

  /** A booking the scoped, filtered query returns. */
  predicate Selects(s: Scope, q: ListQuery, a: Appointment) {
    && InScope(s, a)
    && (Truthy(q.clinicId) ==> a.clinicId == q.clinicId.value)
    && (q.dateFrom.Some? ==> q.dateFrom.value <= a.startsAt)
    && (q.dateTo.Some? ==> a.startsAt < q.dateTo.value)
    && (StatusFilter(q.status).Some? ==> a.status == StatusFilter(q.status).value)
  }

  /** `order` lists the ids of the selected bookings, each once, by start time. */
  ghost predicate Lists(order: seq<Id>, rows: map<Id, Appointment>, s: Scope, q: ListQuery) {
    && Distinct(order)
    && (forall k :: k in order <==> k in rows && Selects(s, q, rows[k]))
    && (forall i, j :: 0 <= i < j < |order| ==> rows[order[i]].startsAt <= rows[order[j]].startsAt)
  }

  /** The selected bookings, ordered by start time. */
  method SelectOrdered(rows: map<Id, Appointment>, s: Scope, q: ListQuery) returns (order: seq<Id>)
    ensures Lists(order, rows, s, q)
  {
    var sel := (k: Id) => k in rows && Selects(s, q, rows[k]);
    var rank := (k: Id) => if k in rows then rows[k].startsAt else 0;
    order := CollectSorted(rows.Keys, sel, rank);
    assert forall i, j :: 0 <= i < j < |order| ==> rank(order[i]) <= rank(order[j]);
  }

  /** `list_appointments`: 422 for a limit outside 1..200 or a negative
      offset; otherwise the scoped, filtered bookings ordered by start time,
      from `offset`, at most `limit` of them. */
  method ListAppointments(db: Db, caller: User, q: ListQuery) returns (r: Outcome<seq<Appointment>>, order: seq<Id>)
    requires db.Valid()
    ensures r.Fail? <==> !(1 <= q.limit <= 200 && 0 <= q.offset)
    ensures r.Fail? ==> r.error == Unprocessable
    ensures r.Ok? && 0 <= q.offset && 0 <= q.limit ==>
      && Lists(order, db.appointments, ListScope(caller, DoctorIdForUser(db.doctors, caller), PatientIdForUser(db.patients, caller)), q)
      && r.value == Rows(db.appointments, Window(order, q.offset, q.limit))
    ensures r.Ok? ==> |r.value| <= q.limit
    ensures r.Ok? ==> forall i, j :: 0 <= i < j < |r.value| ==> r.value[i].startsAt <= r.value[j].startsAt
    ensures r.Ok? ==> forall x :: x in r.value ==>
      && x.id in db.appointments && db.appointments[x.id] == x
      && Selects(ListScope(caller, DoctorIdForUser(db.doctors, caller), PatientIdForUser(db.patients, caller)), q, x)
  {
    order := [];
    if !(1 <= q.limit <= 200 && 0 <= q.offset) {
      return Fail(Unprocessable), order;
    }
    var scope := ListScope(caller, DoctorIdForUser(db.doctors, caller), PatientIdForUser(db.patients, caller));
    order := SelectOrdered(db.appointments, scope, q);
    var page := Window(order, q.offset, q.limit);
    r := Ok(Rows(db.appointments, page));
    forall x | x in r.value
      ensures x.id in db.appointments && db.appointments[x.id] == x && Selects(scope, q, x)
    {
      var i :| 0 <= i < |r.value| && r.value[i] == x;
      assert page[i] in order;
    }
  }

  /** `my_doctor_appointments`: doctors only (403 otherwise); an unlinked
      doctor gets nothing; otherwise every booking of their profile by start
      time, with no paging. */
  method MyDoctorAppointments(db: Db, caller: User) returns (r: Outcome<seq<Appointment>>, order: seq<Id>)
    requires db.Valid()
    ensures r.Fail? <==> caller.role != DoctorRole
    ensures r.Fail? ==> r.error == Forbidden
    ensures r.Ok? && !Truthy(DoctorIdForUser(db.doctors, caller)) ==> r.value == []
    ensures r.Ok? && Truthy(DoctorIdForUser(db.doctors, caller)) ==>
      && Lists(order, db.appointments, OfDoctor(DoctorIdForUser(db.doctors, caller).value), ListQuery())
      && r.value == Rows(db.appointments, order)
  {
    order := [];
    var guard := Deps.RequireRoles({DoctorRole}, caller);
    if guard.Fail? {
      return Fail(guard.error), order;
    }
    var myDoc := DoctorIdForUser(db.doctors, caller);
    if !Truthy(myDoc) {
      return Ok([]), order;
    }
    order := SelectOrdered(db.appointments, OfDoctor(myDoc.value), ListQuery());
    r := Ok(Rows(db.appointments, order));
  }

  /** `my_patient_appointments`: patients only (403 otherwise); an unlinked
      patient gets nothing; otherwise every booking for their profile by start
      time, with no paging. */
  method MyPatientAppointments(db: Db, caller: User) returns (r: Outcome<seq<Appointment>>, order: seq<Id>)
    requires db.Valid()
    ensures r.Fail? <==> caller.role != PatientRole
    ensures r.Fail? ==> r.error == Forbidden
    ensures r.Ok? && !Truthy(PatientIdForUser(db.patients, caller)) ==> r.value == []
    ensures r.Ok? && Truthy(PatientIdForUser(db.patients, caller)) ==>
      && Lists(order, db.appointments, OfPatient(PatientIdForUser(db.patients, caller).value), ListQuery())
      && r.value == Rows(db.appointments, order)
  {
    order := [];
    var guard := Deps.RequireRoles({PatientRole}, caller);
    if guard.Fail? {
      return Fail(guard.error), order;
    }
    var myPat := PatientIdForUser(db.patients, caller);
    if !Truthy(myPat) {
      return Ok([]), order;
    }
    order := SelectOrdered(db.appointments, OfPatient(myPat.value), ListQuery());
    r := Ok(Rows(db.appointments, order));
  }
}
