/** The doctor endpoints that change profiles and clinic membership, and the
    doctor directory listing. */
module Doctors {
  import opened Common
  import opened UserModel
  import opened DoctorModel
  import opened Store
  import opened Listing
  import opened Links
  import Deps

  /** `_can_edit_doctor`: an admin, or the doctor account the profile is linked to. */
  predicate CanEditDoctor(u: User, d: Doctor) {
    u.role == AdminRole || (u.role == DoctorRole && d.userId == Some(u.id))
  }

  /** Patients never edit a doctor profile, and a doctor edits only the
      profile linked to their own account. */
  lemma DoctorEditRules(u: User, d: Doctor)
    ensures u.role == PatientRole ==> !CanEditDoctor(u, d)
    ensures u.role == DoctorRole ==> (CanEditDoctor(u, d) <==> d.userId == Some(u.id))
    ensures u.role == AdminRole ==> CanEditDoctor(u, d)
  {
  }

  /** Replacing a profile by one with the same id and the same account link
      keeps the directory consistent. */
  lemma ReplaceDoctorKeepsValid(dir: Directory, d: Doctor)
    requires dir.Valid() && d.id in dir.doctors && dir.doctors[d.id].userId == d.userId
    ensures dir.(doctors := dir.doctors[d.id := d]).Valid()
  {
    var ds := dir.doctors[d.id := d];
    forall j, k | j in ds && k in ds && ds[j].userId.Some? && ds[j].userId == ds[k].userId
      ensures j == k
    {
      assert ds[j].userId == dir.doctors[j].userId && ds[k].userId == dir.doctors[k].userId;
    }
  }

  /** `update_doctor`: 404 for an unknown profile, 403 unless the caller may
      edit it; a patch that nulls `name` or `specialty` fails at the commit
      (500) and changes nothing; otherwise the fields the patch names are set
      on that one row. */
  method UpdateDoctor(db: Db, caller: User, id: Id, patch: map<DoctorField, Option<string>>) returns (r: Outcome<Doctor>)
    requires db.Valid()
    modifies db`doctors
    ensures db.Valid()
    ensures r == Fail(NotFound) <==> id !in old(db.doctors)
    ensures r == Fail(Forbidden) <==> id in old(db.doctors) && !CanEditDoctor(caller, old(db.doctors)[id])
    ensures r == Fail(ServerError) <==> id in old(db.doctors) && CanEditDoctor(caller, old(db.doctors)[id]) && ClearsRequired(patch)
    ensures r.Ok? <==> id in old(db.doctors) && CanEditDoctor(caller, old(db.doctors)[id]) && !ClearsRequired(patch)
    ensures r.Fail? ==> db.doctors == old(db.doctors)
    ensures r.Ok? ==>
      && id in old(db.doctors)
      && r.value.id == id && r.value.userId == old(db.doctors)[id].userId
      && r.value.attrs.Keys == old(db.doctors)[id].attrs.Keys + patch.Keys
      && (forall f :: f in patch ==> r.value.attrs[f] == patch[f])
      && (forall f :: f in old(db.doctors)[id].attrs && f !in patch ==> r.value.attrs[f] == old(db.doctors)[id].attrs[f])
      && db.doctors == old(db.doctors)[id := r.value]
  {
    if id !in db.doctors {
      return Fail(NotFound);
    }
    var d := db.doctors[id];
    if !CanEditDoctor(caller, d) {
      return Fail(Forbidden);
    }
    if ClearsRequired(patch) {
      return Fail(ServerError);
    }
    var attrs := ApplyFieldPatch(d.attrs, patch);
    var updated := d.(attrs := attrs);
    ReplaceDoctorKeepsValid(db.Dir(), updated);
    db.doctors := db.doctors[id := updated];
    r := Ok(updated);
  }

  /** `delete_doctor` (admins only, 403 otherwise): every clinic link of the
      doctor goes, then the profile row; an unknown id is not an error. */
  method DeleteDoctor(db: Db, caller: User, id: Id) returns (r: Outcome<()>)
    requires db.Valid()
    modifies db`doctors, db`clinicDoctors
    ensures db.Valid()
    ensures r.Fail? <==> caller.role != AdminRole
    ensures r.Fail? ==> r.error == Forbidden && db.doctors == old(db.doctors) && db.clinicDoctors == old(db.clinicDoctors)
    ensures r.Ok? ==> db.clinicDoctors == DropMember(old(db.clinicDoctors), id)
    ensures r.Ok? ==> db.doctors == old(db.doctors) - {id}
  {
    var guard := Deps.RequireRoles({AdminRole}, caller);
    if guard.Fail? {
      return Fail(guard.error);
    }
    db.clinicDoctors := DropMember(db.clinicDoctors, id);
    db.doctors := db.doctors - {id};
    r := Ok(());
  }

  /** `assign_doctor_to_clinic` (admins only): 404 for an unknown doctor or
      clinic, otherwise the (clinic, doctor) link exists afterwards; a link
      already there is left alone. */
  method AssignDoctorToClinic(db: Db, caller: User, id: Id, clinicId: Id) returns (r: Outcome<()>)
    requires db.Valid()
    modifies db`clinicDoctors
    ensures db.Valid()
    ensures r == Fail(Forbidden) <==> caller.role != AdminRole
    ensures r == Fail(NotFound) <==> caller.role == AdminRole && (id !in db.doctors || clinicId !in db.clinics)
    ensures r.Ok? <==> caller.role == AdminRole && id in db.doctors && clinicId in db.clinics
    ensures r.Ok? ==> db.clinicDoctors == Link(old(db.clinicDoctors), clinicId, id)
    ensures r.Fail? ==> db.clinicDoctors == old(db.clinicDoctors)
  {
    var guard := Deps.RequireRoles({AdminRole}, caller);
    if guard.Fail? {
      return Fail(guard.error);
    }
    if id !in db.doctors || clinicId !in db.clinics {
      return Fail(NotFound);
    }
    if (clinicId, id) !in db.clinicDoctors {
      db.clinicDoctors := db.clinicDoctors + {(clinicId, id)};
    }
    r := Ok(());
  }

  /** `unassign_doctor_from_clinic` (admins only): removes that one link,
      and succeeds whether or not it existed. */
  method UnassignDoctorFromClinic(db: Db, caller: User, id: Id, clinicId: Id) returns (r: Outcome<()>)
    requires db.Valid()
    modifies db`clinicDoctors
    ensures db.Valid()
    ensures r.Fail? <==> caller.role != AdminRole
    ensures r.Fail? ==> r.error == Forbidden && db.clinicDoctors == old(db.clinicDoctors)
    ensures r.Ok? ==> db.clinicDoctors == Unlink(old(db.clinicDoctors), clinicId, id)
  {
    var guard := Deps.RequireRoles({AdminRole}, caller);
    if guard.Fail? {
      return Fail(guard.error);
    }
    db.clinicDoctors := db.clinicDoctors - {(clinicId, id)};
    r := Ok(());
  }

  /** `order` lists each profile the query selects exactly once. */
  ghost predicate ListsDoctors(order: seq<Id>, doctors: map<Id, Doctor>, links: LinkTable, clinicId: Option<Id>) {
    Distinct(order) && forall k :: k in order <==> k in doctors && InClinic(links, clinicId, k)
  }

  /** `list_doctors` (no login needed): 422 for a limit outside 1..200 or a
      negative offset; otherwise the profiles, restricted to the members of
      `clinic_id` when one is given, in the database's order, from `offset`,
      at most `limit` of them. */
  method ListDoctors(db: Db, clinicId: Option<Id>, limit: int, offset: int) returns (r: Outcome<seq<Doctor>>, order: seq<Id>)
    requires db.Valid()
    ensures r.Fail? <==> !(1 <= limit <= 200 && 0 <= offset)
    ensures r.Fail? ==> r.error == Unprocessable
    ensures r.Ok? && 0 <= offset && 0 <= limit ==>
      && ListsDoctors(order, db.doctors, db.clinicDoctors, clinicId)
      && r.value == Rows(db.doctors, Window(order, offset, limit))
    ensures r.Ok? ==> |r.value| <= limit
    ensures r.Ok? ==> forall d :: d in r.value ==>
      d.id in db.doctors && db.doctors[d.id] == d && InClinic(db.clinicDoctors, clinicId, d.id)
  {
    order := [];
    if !(1 <= limit <= 200 && 0 <= offset) {
      return Fail(Unprocessable), order;
    }
    var doctors, links := db.doctors, db.clinicDoctors;
    order := CollectSorted(doctors.Keys, k => InClinic(links, clinicId, k), k => 0);
    var page := Window(order, offset, limit);
    r := Ok(Rows(doctors, page));
    forall d | d in r.value
      ensures d.id in db.doctors && db.doctors[d.id] == d && InClinic(db.clinicDoctors, clinicId, d.id)
    {
      var i :| 0 <= i < |r.value| && r.value[i] == d;
      assert page[i] in order;
    }
  }
}
