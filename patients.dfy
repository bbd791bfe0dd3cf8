/** The patient endpoints that change profiles and clinic membership, the
    patient directory listing, and a patient's own profile. */
module Patients {
  import opened Common
  import opened UserModel
  import opened PatientModel
  import opened Store
  import opened Listing
  import opened Links
  import Deps

  /** `_can_edit_patient`: an admin, or the patient account the profile is linked to. */
  predicate CanEditPatient(u: User, p: Patient) {
    u.role == AdminRole || (u.role == PatientRole && p.userId == Some(u.id))
  }

  /** Who `update_patient` lets through: whoever `_can_edit_patient` admits,
      and besides every doctor, whichever profile it is. */
  predicate MayUpdatePatient(u: User, p: Patient) {
    CanEditPatient(u, p) || u.role in {DoctorRole, AdminRole}
  }

  /** Doctors and admins may update any profile; a patient only the profile
      linked to their own account. */
  lemma PatientEditRules(u: User, p: Patient)
    ensures u.role != PatientRole ==> MayUpdatePatient(u, p)
    ensures u.role == PatientRole ==> (MayUpdatePatient(u, p) <==> p.userId == Some(u.id))
    ensures u.role == DoctorRole ==> !CanEditPatient(u, p)
  {
  }

  /** Replacing a profile by one with the same id and the same account link
      keeps the directory consistent. */
  lemma ReplacePatientKeepsValid(dir: Directory, p: Patient)
    requires dir.Valid() && p.id in dir.patients && dir.patients[p.id].userId == p.userId
    ensures dir.(patients := dir.patients[p.id := p]).Valid()
  {
    var ps := dir.patients[p.id := p];
    forall j, k | j in ps && k in ps && ps[j].userId.Some? && ps[j].userId == ps[k].userId
      ensures j == k
    {
      assert ps[j].userId == dir.patients[j].userId && ps[k].userId == dir.patients[k].userId;
    }
  }

  /** `update_patient`: 404 for an unknown profile, 403 for a patient
      updating someone else's profile; a patch that nulls `name` fails at
      the commit (500) and changes nothing; otherwise the fields the patch
      names are set on that one row. */
  method UpdatePatient(db: Db, caller: User, id: Id, patch: map<PatientField, Option<string>>) returns (r: Outcome<Patient>)
    requires db.Valid()
    modifies db`patients
    ensures db.Valid()
    ensures r == Fail(NotFound) <==> id !in old(db.patients)
    ensures r == Fail(Forbidden) <==> id in old(db.patients) && !MayUpdatePatient(caller, old(db.patients)[id])
    ensures r == Fail(ServerError) <==> id in old(db.patients) && MayUpdatePatient(caller, old(db.patients)[id]) && ClearsRequired(patch)
    ensures r.Ok? <==> id in old(db.patients) && MayUpdatePatient(caller, old(db.patients)[id]) && !ClearsRequired(patch)
    ensures r.Fail? ==> db.patients == old(db.patients)
    ensures r.Ok? ==>
      && id in old(db.patients)
      && r.value.id == id && r.value.userId == old(db.patients)[id].userId
      && r.value.attrs.Keys == old(db.patients)[id].attrs.Keys + patch.Keys
      && (forall f :: f in patch ==> r.value.attrs[f] == patch[f])
      && (forall f :: f in old(db.patients)[id].attrs && f !in patch ==> r.value.attrs[f] == old(db.patients)[id].attrs[f])
      && db.patients == old(db.patients)[id := r.value]
  {
    if id !in db.patients {
      return Fail(NotFound);
    }
    var p := db.patients[id];
    if !CanEditPatient(caller, p) && caller.role !in {DoctorRole, AdminRole} {
      return Fail(Forbidden);
    }
    if ClearsRequired(patch) {
      return Fail(ServerError);
    }
    var attrs := ApplyFieldPatch(p.attrs, patch);
    var updated := p.(attrs := attrs);
    ReplacePatientKeepsValid(db.Dir(), updated);
    db.patients := db.patients[id := updated];
    r := Ok(updated);
  }

  /** `delete_patient` (admins only, 403 otherwise): every clinic link of the
      patient goes, then the profile row; an unknown id is not an error. */
  method DeletePatient(db: Db, caller: User, id: Id) returns (r: Outcome<()>)
    requires db.Valid()
    modifies db`patients, db`clinicPatients
    ensures db.Valid()
    ensures r.Fail? <==> caller.role != AdminRole
    ensures r.Fail? ==> r.error == Forbidden && db.patients == old(db.patients) && db.clinicPatients == old(db.clinicPatients)
    ensures r.Ok? ==> db.clinicPatients == DropMember(old(db.clinicPatients), id)
    ensures r.Ok? ==> db.patients == old(db.patients) - {id}
  {
    var guard := Deps.RequireRoles({AdminRole}, caller);
    if guard.Fail? {
      return Fail(guard.error);
    }
    db.clinicPatients := DropMember(db.clinicPatients, id);
    db.patients := db.patients - {id};
    r := Ok(());
  }

  /** `assign_patient_to_clinic` (admins and doctors): 404 for an unknown
      patient or clinic, otherwise the (clinic, patient) link exists
      afterwards; a link already there is left alone. */
  method AssignPatientToClinic(db: Db, caller: User, id: Id, clinicId: Id) returns (r: Outcome<()>)
    requires db.Valid()
    modifies db`clinicPatients
    ensures db.Valid()
    ensures r == Fail(Forbidden) <==> caller.role == PatientRole
    ensures r == Fail(NotFound) <==> caller.role != PatientRole && (id !in db.patients || clinicId !in db.clinics)
    ensures r.Ok? <==> caller.role != PatientRole && id in db.patients && clinicId in db.clinics
    ensures r.Ok? ==> db.clinicPatients == Link(old(db.clinicPatients), clinicId, id)
    ensures r.Fail? ==> db.clinicPatients == old(db.clinicPatients)
  {
    var guard := Deps.RequireRoles({AdminRole, DoctorRole}, caller);
    if guard.Fail? {
      return Fail(guard.error);
    }
    if id !in db.patients || clinicId !in db.clinics {
      return Fail(NotFound);
    }
    if (clinicId, id) !in db.clinicPatients {
      db.clinicPatients := db.clinicPatients + {(clinicId, id)};
    }
    r := Ok(());
  }

  /** `unassign_patient_from_clinic` (admins and doctors): removes that one
      link, and succeeds whether or not it existed. */
  method UnassignPatientFromClinic(db: Db, caller: User, id: Id, clinicId: Id) returns (r: Outcome<()>)
    requires db.Valid()
    modifies db`clinicPatients
    ensures db.Valid()
    ensures r.Fail? <==> caller.role == PatientRole
    ensures r.Fail? ==> r.error == Forbidden && db.clinicPatients == old(db.clinicPatients)
    ensures r.Ok? ==> db.clinicPatients == Unlink(old(db.clinicPatients), clinicId, id)
  {
    var guard := Deps.RequireRoles({AdminRole, DoctorRole}, caller);
    if guard.Fail? {
      return Fail(guard.error);
    }
    db.clinicPatients := db.clinicPatients - {(clinicId, id)};
    r := Ok(());
  }

  /** `order` lists each profile the query selects exactly once. */
  ghost predicate ListsPatients(order: seq<Id>, patients: map<Id, Patient>, links: LinkTable, clinicId: Option<Id>) {
    Distinct(order) && forall k :: k in order <==> k in patients && InClinic(links, clinicId, k)
  }

  /** `list_patients` (admins and doctors, 403 otherwise): every profile, or
      only the members of `clinic_id` when one is given, in the database's
      order and without paging. */
  method ListPatients(db: Db, caller: User, clinicId: Option<Id>) returns (r: Outcome<seq<Patient>>, order: seq<Id>)
    requires db.Valid()
    ensures r.Fail? <==> caller.role == PatientRole
    ensures r.Fail? ==> r.error == Forbidden
    ensures r.Ok? ==> ListsPatients(order, db.patients, db.clinicPatients, clinicId) && r.value == Rows(db.patients, order)
    ensures r.Ok? ==> forall p :: p in r.value ==>
      p.id in db.patients && db.patients[p.id] == p && InClinic(db.clinicPatients, clinicId, p.id)
  {
    order := [];
    var guard := Deps.RequireRoles({AdminRole, DoctorRole}, caller);
    if guard.Fail? {
      return Fail(guard.error), order;
    }
    var patients, links := db.patients, db.clinicPatients;
    order := CollectSorted(patients.Keys, k => InClinic(links, clinicId, k), k => 0);
    r := Ok(Rows(patients, order));
    forall p | p in r.value
      ensures p.id in db.patients && db.patients[p.id] == p && InClinic(db.clinicPatients, clinicId, p.id)
    {
      var i :| 0 <= i < |r.value| && r.value[i] == p;
      assert order[i] in order;
    }
  }

  /** `get_my_patient` (patients only, 403 otherwise): the profile linked to
      the caller's account, or 404 when there is none. */
  function GetMyPatient(dir: Directory, caller: User): (r: Outcome<Patient>)
    requires dir.Valid()
    ensures r == Fail(Forbidden) <==> caller.role != PatientRole
    ensures r == Fail(NotFound) <==> caller.role == PatientRole && !exists p :: p in dir.patients && dir.patients[p].userId == Some(caller.id)
    ensures r.Ok? <==> caller.role == PatientRole && exists p :: p in dir.patients && dir.patients[p].userId == Some(caller.id)
    ensures r.Ok? ==> r.value in dir.patients.Values && r.value.userId == Some(caller.id)
    ensures r.Ok? ==> forall p :: p in dir.patients && dir.patients[p].userId == Some(caller.id) ==> r.value == dir.patients[p]
  {
    match Deps.RequireRoles({PatientRole}, caller)
    case Fail(e) => Fail(e)
    case Ok(_) =>
      match PatientForUserId(dir.patients, caller.id)
      case None => Fail(NotFound)
      case Some(p) => Ok(dir.patients[p])
  }
}
