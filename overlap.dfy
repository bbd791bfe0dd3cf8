/** The overlap rule of the booking engine: a candidate slot [s, e) for a
    doctor at a clinic is refused when a non-cancelled booking of the same
    doctor at the same clinic (other than the one being moved) shares an
    instant with it.  Intervals are half-open, so back-to-back bookings never
    clash. */
module Overlap {
  import opened Common
  import opened AppointmentModel

  /** The half-open intervals [s1, e1) and [s2, e2) share an instant. */
  predicate Intersects(s1: int, e1: int, s2: int, e2: int) {
    s1 < e2 && s2 < e1
  }

  /** The row condition of the overlap query: same doctor, same clinic, not
      the excluded row, `starts_at < e`, `ends_at > s`, and not cancelled. */
  predicate Blocks(a: Appointment, doctorId: Id, clinicId: Id, s: int, e: int, exclude: Option<Id>) {
    && a.doctorId == doctorId
    && a.clinicId == clinicId
    && (exclude.None? || a.id != exclude.value)
    && Intersects(a.startsAt, a.endsAt, s, e)
    && a.status != Cancelled
  }

  /** The ids of the rows the overlap query returns. */
  ghost function ConflictIds(rows: map<Id, Appointment>, doctorId: Id, clinicId: Id, s: int, e: int, exclude: Option<Id>): set<Id> {
    set k | k in rows && Blocks(rows[k], doctorId, clinicId, s, e, exclude)
  }

  /** The overlap query as a scan of the table: finds a blocking row if
      there is one. */
  method FindConflict(rows: map<Id, Appointment>, doctorId: Id, clinicId: Id, s: int, e: int, exclude: Option<Id>)
    returns (hit: Option<Id>)
    ensures hit.None? <==> ConflictIds(rows, doctorId, clinicId, s, e, exclude) == {}
    ensures hit.Some? ==> hit.value in ConflictIds(rows, doctorId, clinicId, s, e, exclude)
  {
    hit := None;
    var rest := rows.Keys;
    while rest != {} && hit.None?
      invariant rest <= rows.Keys
      invariant hit.None? ==> forall k :: k in rows.Keys - rest ==> !Blocks(rows[k], doctorId, clinicId, s, e, exclude)
      invariant hit.Some? ==> hit.value in ConflictIds(rows, doctorId, clinicId, s, e, exclude)
      decreases rest
    {
      var k :| k in rest;
      rest := rest - {k};
      if Blocks(rows[k], doctorId, clinicId, s, e, exclude) {
        hit := Some(k);
      }
    }
  }

  /** The answer to the overlap query as the endpoints evidently intend it:
      carry on when no row matched, 400 as soon as one did. */
  function OverlapError(conflicts: set<Id>): (r: Option<HttpError>)
    ensures r.None? <==> conflicts == {}
    ensures r.Some? ==> r.value == BadRequest
  {
    if conflicts == {} then None else Some(BadRequest)
  }

  /** The answer as written: `scalar_one_or_none()` returns the single
      matching id (400) but raises `MultipleResultsFound` when two or more
      rows match, which the framework answers with 500. */
  function OverlapErrorAsWritten(conflicts: set<Id>): (r: Option<HttpError>)
    ensures r.None? <==> conflicts == {}
    ensures |conflicts| >= 2 ==> r == Some(ServerError)
    ensures |conflicts| == 1 ==> r == Some(BadRequest)
  {
    if conflicts == {} then None
    else if |conflicts| == 1 then Some(BadRequest)
    else Some(ServerError)
  }

  /** A non-cancelled booking occupies its slot. */
  predicate Active(a: Appointment) {
    a.status != Cancelled
  }

  /** No two non-cancelled bookings of one doctor at one clinic overlap. */
  ghost predicate NoDoubleBooking(rows: map<Id, Appointment>) {
    forall j, k :: j in rows && k in rows && j != k && Active(rows[j]) && Active(rows[k])
      && rows[j].doctorId == rows[k].doctorId && rows[j].clinicId == rows[k].clinicId
      ==> !Intersects(rows[j].startsAt, rows[j].endsAt, rows[k].startsAt, rows[k].endsAt)
  }

  /** Back-to-back slots and cancelled bookings never block; an identical
      slot of an active booking always does. */
  lemma BlockingEdgeCases(a: Appointment, s: int, e: int)
    ensures a.endsAt == s ==> !Blocks(a, a.doctorId, a.clinicId, s, e, None)
    ensures e == a.startsAt ==> !Blocks(a, a.doctorId, a.clinicId, s, e, None)
    ensures a.status == Cancelled ==> !Blocks(a, a.doctorId, a.clinicId, s, e, None)
    ensures Active(a) && a.startsAt < a.endsAt ==> Blocks(a, a.doctorId, a.clinicId, a.startsAt, a.endsAt, None)
    ensures !Blocks(a, a.doctorId, a.clinicId, s, e, Some(a.id))
  {
  }

  /** Writing row `a` whose slot the overlap query found free (excluding
      only `a` itself, if anything) keeps the table free of double bookings. */
  lemma {:induction false} WriteWithoutConflictKeepsNoDoubleBooking(rows: map<Id, Appointment>, a: Appointment, exclude: Option<Id>)
    requires NoDoubleBooking(rows)
    requires forall k :: k in rows ==> rows[k].id == k
    requires exclude.None? || exclude == Some(a.id)
    requires ConflictIds(rows, a.doctorId, a.clinicId, a.startsAt, a.endsAt, exclude) == {}
    ensures NoDoubleBooking(rows[a.id := a])
  {
    var t := rows[a.id := a];
    forall j, k | j in t && k in t && j != k && Active(t[j]) && Active(t[k])
        && t[j].doctorId == t[k].doctorId && t[j].clinicId == t[k].clinicId
      ensures !Intersects(t[j].startsAt, t[j].endsAt, t[k].startsAt, t[k].endsAt)
    {
      if j == a.id {
        assert k in rows && rows[k].id == k && k !in ConflictIds(rows, a.doctorId, a.clinicId, a.startsAt, a.endsAt, exclude);
      } else if k == a.id {
        assert j in rows && rows[j].id == j && j !in ConflictIds(rows, a.doctorId, a.clinicId, a.startsAt, a.endsAt, exclude);
      }
    }
  }

  /** Excluding a row from the query is the same as asking without it. */
  lemma ExcludeIsRemoval(rows: map<Id, Appointment>, id: Id, doctorId: Id, clinicId: Id, s: int, e: int)
    requires forall k :: k in rows ==> rows[k].id == k
    ensures ConflictIds(rows, doctorId, clinicId, s, e, Some(id)) == ConflictIds(rows - {id}, doctorId, clinicId, s, e, None)
  {
  }

  /** A booking of the scenario: doctor "D" at clinic "C". */
  function ScenarioRow(id: Id, s: int, e: int, st: ApptStatus): Appointment {
    Appointment(id, "D", "P", "C", s, e, Presencial, st)
  }

  /** With a confirmed booking 10:00-10:30 (seconds of the day), a request for
      10:15-10:45 clashes, while 10:30-11:00 and 09:00-10:00 are free; once
      the booking is cancelled the identical slot is free again. */
  lemma BookingScenario()
    ensures var rows := map["A" := ScenarioRow("A", 36000, 37800, Confirmed)];
      && ConflictIds(rows, "D", "C", 36900, 38700, None) == {"A"}
      && ConflictIds(rows, "D", "C", 37800, 39600, None) == {}
      && ConflictIds(rows, "D", "C", 32400, 36000, None) == {}
    ensures var rows := map["A" := ScenarioRow("A", 36000, 37800, Cancelled)];
      ConflictIds(rows, "D", "C", 36000, 37800, None) == {}
  {
    var rows := map["A" := ScenarioRow("A", 36000, 37800, Confirmed)];
    assert "A" in ConflictIds(rows, "D", "C", 36900, 38700, None);
  }

  /** The source bug: two back-to-back bookings 10:00-10:30 and 10:30-11:00,
      which do not double-book, and a request for 10:15-10:45 that overlaps
      both.  The query matches two rows, so the endpoint answers 500 where the
      intended answer is the 400 "slot taken". */
  lemma StraddlingRequestIsServerError()
    ensures var rows := map["A" := ScenarioRow("A", 36000, 37800, Confirmed),
                            "B" := ScenarioRow("B", 37800, 39600, Pending)];
      && NoDoubleBooking(rows)
      && ConflictIds(rows, "D", "C", 36900, 38700, None) == {"A", "B"}
      && OverlapErrorAsWritten(ConflictIds(rows, "D", "C", 36900, 38700, None)) == Some(ServerError)
      && OverlapError(ConflictIds(rows, "D", "C", 36900, 38700, None)) == Some(BadRequest)
  {
    var rows := map["A" := ScenarioRow("A", 36000, 37800, Confirmed),
                    "B" := ScenarioRow("B", 37800, 39600, Pending)];
    var c := ConflictIds(rows, "D", "C", 36900, 38700, None);
    assert "A" in c && "B" in c;
    assert c == {"A", "B"};
    assert |c| == 2;
  }
}
