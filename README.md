# Clinic Hub scheduling core, modelled and verified in Dafny

This project models the appointment booking engine of the Clinic Hub backend,
and the smaller pieces around it.

**Appointment engine** (`app/api/v1/appointment.py`):
- **Create.** The doctor is resolved from the caller's own profile. Then come the strict time-order check, the existence checks (404) and the clinic-membership checks (400).
- **Overlap rule.** Intervals are half-open. Only rows of the same doctor at the same clinic count, cancelled rows never block, and an update skips the row being moved.
- **Partial update.** A patch applies only the fields it sets.
- **Access predicates.** `_can_view` and `_can_edit` decide who may read or change a booking.
- **Listing.** Rows are scoped by role, filtered, ordered by start time and paged.
- **Delete.**

**Around it:**
- clinic membership and profile updates for doctors and patients (`doctor.py`, `patient.py`);
- registration, the login gate and the TOTP two-factor state machine (`auth.py`);
- the authentication and role guards (`deps.py`);
- meeting links and the idempotent creation of video meetings (`zoom.py`);
- the appointment enumerations, defaults and request shapes (`models/appointment.py`, `schemas/appointment.py`).

## How the model is built

**The database** is one object, `Store.Db`. Each table is one field:
- `users`, `doctors`, `patients` and `appointments` are maps from id to row;
- `clinics` is a set of ids;
- the link tables `clinicDoctors` and `clinicPatients` are sets of `(clinic_id, member_id)` pairs;
- `meetings` maps an appointment id to its meeting row.

`Db.Valid` states the integrity the tables keep:
- primary keys are row ids;
- e-mails are unique and lower-cased;
- two-factor login is on only while a secret is stored;
- a user account has at most one doctor profile and at most one patient profile;
- every booking ends after it starts;
- every meeting belongs to an existing booking.

**Endpoints.** Each endpoint that writes is a module-level method that takes the `db: Db` object. Its `modifies` clause names the fields (tables) of `db` it writes, such as ``db`appointments``. Its contract ties the answer to a specification function of the old tables, and states the new tables exactly. Lemmas then prove what the backend promises about those functions.

Read-only decisions are functions: `_can_view`, `get_zoom_link`, and the login gate. Scans of a table are methods with loop invariants: the overlap query, the e-mail lookup, the listing sort, and the `setattr` patch loop.

**HTTP answers.** Each endpoint answers with `Outcome`: either the value it returns, or the HTTP error it raises. 401 and 403 come from the guards, and 422 from request validation. A database error is 500 (`ServerError`).

**Things outside the program are parameters:**
- the caller, as the account `get_current_user` resolved;
- the fresh uuid a row's default would draw;
- the bcrypt hash of a new password;
- the results of `verify_password` and `verify_totp`, as function parameters;
- the video-meeting provider, as a function from the meeting request to the provider's answer.

**Time** is whole seconds, and `ends_at - starts_at` is an integer difference.

### Behaviour modelled as the code has it

These behaviours are deliberately kept, not fixed:

- **A patch that touches no slot field skips the overlap check.** A patch sets none of `starts_at`, `ends_at` or `clinic_id` (the schema has no `doctor_id`), so it runs no time or overlap check. For this reason "no two active bookings of one doctor at one clinic overlap" is proved for create (`Appointments.CreateKeepsInvariants`), and for an update only when the patch moves the slot (`Appointments.UpdateKeepsInvariants`). `Appointments.StatusOnlyPatchCanDoubleBook` shows a status-only patch re-creating a double booking.
- **An update never changes the doctor, and never checks existence or membership.** The update schema has no `doctor_id` field, and `update_appointment` runs no existence or membership query. The model follows the code (`Appointments.UpdateIgnoresMembership`).
- **Unlinked callers see every booking.** A doctor or patient account without a linked profile gets no role scoping in `list_appointments` (`Appointments.ListScope`).
- **Any role can self-register.** `register` gives the account whatever role the request names, admin included.
- **Some endpoints check less than one might expect.**
  - `list_doctors` requires no login.
  - `create_appointment` accepts any signed-in role, patients included.
  - `update_patient` lets every doctor through, whichever profile it is.
  - `ensure_meeting` lets every signed-in account through, without a participant check.
- **`duration_min` drops whole days.** It uses `timedelta.seconds`, so a 25-hour booking asks for a 60-minute meeting (`Meetings.DurationDropsWholeDays`).

## Model

| member | source | states |
|---|---|---|
| `Common.Lower` | app/api/v1/auth.py:18-23 | the lowered address has the same length, maps each letter A-Z to a-z, keeps every other character, and contains no upper-case letter |
| `Common.LowerIdempotent` | app/api/v1/auth.py:18-23 | lowering an address that is already lowered changes nothing, so the stored address is found again by a lookup that lowers its input |
| `Common.ApplyFieldPatch` | app/api/v1/doctor.py:75-76 | the patch loop sets every field the patch names to the patched value (an explicit null included), keeps every other field, and adds no other field |
| `Listing.Window` | app/api/v1/appointment.py:187 | `OFFSET`/`LIMIT`: at most `limit` rows, exactly the rows of the ordered result from position `offset` on, in order |
| `Listing.CollectSorted` | app/api/v1/appointment.py:187 | the scan yields each selected key exactly once, and nothing else, in non-decreasing rank (ties in an unspecified order) |
| `AppointmentModel.TypeName` | app/models/appointment.py:10-12 | a type is stored as `presencial` or `virtual`, and as `virtual` exactly for virtual visits |
| `AppointmentModel.StatusName` | app/models/appointment.py:14-17 | a status is stored as one of `pending`, `confirmed`, `cancelled`, and as `cancelled` exactly for cancelled bookings |
| `AppointmentModel.ParseStatus` | app/api/v1/appointment.py:182-183 | a text names a status exactly when it is one of the three stored names, and then names the status stored under it |
| `AppointmentModel.StatusNameRoundTrip` | app/models/appointment.py:14-17 | reading a stored status name gives back the status |
| `AppointmentModel.CreateDefaults` | app/schemas/appointment.py:8-15 | a create request with only the required fields has no doctor, type `presencial` and status `pending` |
| `AppointmentModel.ApplyPatch` | app/api/v1/appointment.py:268-269 | each field the patch sets takes the patched value, each other field keeps its value, and the id and doctor never change |
| `AppointmentModel.ApplyPatchIdempotent` | app/schemas/appointment.py:17-23 | an empty patch changes nothing, and applying a patch twice equals applying it once |
| `Store.DoctorForUserId` | app/api/v1/appointment.py:24-25 | a profile id is found exactly when a doctor profile is linked to the account, and it is that profile |
| `Store.DoctorIdForUser` | app/api/v1/appointment.py:21-25 | only a doctor account gets a doctor profile id; a doctor gets one exactly when a profile is linked to the account, and it is that profile |
| `Store.PatientForUserId` | app/api/v1/appointment.py:30-31 | a profile id is found exactly when a patient profile is linked to the account, and it is that profile |
| `Store.PatientIdForUser` | app/api/v1/appointment.py:27-31 | only a patient account gets a patient profile id; a patient gets one exactly when a profile is linked to the account, and it is that profile |
| `Overlap.FindConflict` | app/api/v1/appointment.py:119-127 | the overlap query finds a row exactly when some row of the same doctor and clinic, not excluded and not cancelled, overlaps the half-open slot, and a row it finds is such a row |
| `Overlap.OverlapError` | app/api/v1/appointment.py:126-131 | the intended answer: no error when no row matched, and 400 as soon as one did |
| `Overlap.OverlapErrorAsWritten` | app/api/v1/appointment.py:126-131 | the answer as written: none for no match, 400 for exactly one match, 500 for two or more |
| `Overlap.BlockingEdgeCases` | app/api/v1/appointment.py:119-125 | back-to-back slots and cancelled rows never block, an active row blocks its own slot, and an excluded row never blocks |
| `Overlap.WriteWithoutConflictKeepsNoDoubleBooking` | app/api/v1/appointment.py:119-143 | writing a row whose slot the overlap query found free keeps the table free of double bookings |
| `Overlap.ExcludeIsRemoval` | app/api/v1/appointment.py:253-260 | excluding the moved row from the query is the same as querying the table without it |
| `Overlap.BookingScenario` | app/api/v1/appointment.py:119-131 | against a confirmed 10:00-10:30 booking, 10:15-10:45 clashes while 10:30-11:00 and 09:00-10:00 are free, and cancelling frees the slot |
| `Overlap.StraddlingRequestIsServerError` | app/api/v1/appointment.py:126-131 | two back-to-back bookings and a request overlapping both: the table has no double booking, the query matches both rows, the code answers 500, and the intended answer is 400 |
| `Deps.GetCurrentUser` | app/api/deps.py:18-34 | 401 for an undecodable token, an empty or missing `sub`, or an unknown account; 403 for an inactive account; otherwise exactly that account |
| `Deps.RequireRoles` | app/api/deps.py:41-46 | 403 exactly when the account's role is not allowed; otherwise the same account |
| `Deps.GuardedEndpointAdmits` | app/api/deps.py:13-46 | a guarded endpoint runs exactly for a decodable token naming an active account with an allowed role, and refuses only with 401 or 403 |
| `Appointments.AccessRules` | app/api/v1/appointment.py:45-56 | patients never edit; admins edit and view; a doctor edits exactly the bookings of their own profile; whoever may edit may also view |
| `Appointments.ValidateTimes` | app/api/v1/appointment.py:58-60 | no error exactly when the booking ends strictly after it starts; otherwise 400 |
| `Appointments.ResolveDoctor` | app/api/v1/appointment.py:74-88 | a doctor without a linked profile is refused with 400; a doctor who names no doctor books for their own profile; a named doctor is kept; a non-doctor who names none is refused with 400 |
| `Appointments.CreateOutcome` | app/api/v1/appointment.py:69-145 | an out-of-order slot is 400, and so is a doctor that does not resolve; errors are 400, 404 or 500; the request succeeds exactly when the doctor resolves, the times are in order, the doctor, patient and clinic exist, both belong to the clinic, no active booking blocks the slot and the fresh id is unused; a success stores the request's fields under the fresh id with the resolved doctor |
| `Appointments.CreateChecks` | app/api/v1/appointment.py:90-145 | once the doctor and time are fine: a missing doctor, patient or clinic is 404; a doctor or patient outside the clinic is 400; otherwise 400 exactly when an active booking of that doctor at that clinic overlaps, and without one the booking is stored under the fresh id (500 only when the id is taken) |
| `Appointments.CreateKeepsInvariants` | app/api/v1/appointment.py:119-143 | a successful create keeps every booking well-formed and keeps the table free of double bookings |
| `Appointments.CreateAppointment` | app/api/v1/appointment.py:69-145 | answers as `CreateOutcome` says; on success the table gains exactly the new row; no double booking is introduced; the database stays valid |
| `Appointments.UpdateOutcome` | app/api/v1/appointment.py:235-272 | 404 for an unknown id, 403 unless the caller may edit; a patch that does not touch the slot always succeeds; a permitted patch that moves the slot succeeds exactly when the effective times are in order and no other active booking blocks them; a success is the patched row |
| `Appointments.UpdateSlotChecks` | app/api/v1/appointment.py:243-272 | a permitted patch that moves the slot is refused with 400 exactly when the effective times are out of order or another active booking of the doctor at the effective clinic overlaps them, and otherwise gives the patched row |
| `Appointments.UpdateKeepsInvariants` | app/api/v1/appointment.py:243-272 | a successful update keeps every booking well-formed, and one that moves the slot keeps the table free of double bookings |
| `Appointments.UpdateIgnoresMembership` | app/api/v1/appointment.py:235-272 | the outcome of an update does not depend on clinics or membership links |
| `Appointments.MoveWithinOwnSlot` | app/api/v1/appointment.py:256 | a booking alone in the table can be moved to any in-order slot, overlapping its old one included |
| `Appointments.StatusOnlyPatchCanDoubleBook` | app/api/v1/appointment.py:243 | a status-only patch that reactivates a cancelled booking succeeds and turns a table without double bookings into one with a double booking |
| `Appointments.UpdateAppointment` | app/api/v1/appointment.py:235-272 | answers as `UpdateOutcome` says; on success only that row changes, to the patched row; the database stays valid |
| `Appointments.GetAppointment` | app/api/v1/appointment.py:225-231 | 404 exactly for an unknown id, the booking exactly when the caller may view it, and 403 otherwise |
| `Appointments.DeleteOutcome` | app/api/v1/appointment.py:276-280 | 404 exactly for an unknown id, success exactly when the caller may edit the booking, and 403 otherwise |
| `Appointments.DeleteAppointment` | app/api/v1/appointment.py:276-284 | on success exactly that row and its meeting are gone; on failure nothing changes; no double booking is introduced |
| `Appointments.ListScope` | app/api/v1/appointment.py:168-173 | a linked doctor sees only their own bookings, a linked patient only theirs, and everyone else (unlinked doctors and patients included) starts from every booking |
| `Appointments.StatusFilter` | app/api/v1/appointment.py:182-183 | the status filter applies exactly for one of the three status names, and filters on that status; any other text is ignored |
| `Appointments.SelectOrdered` | app/api/v1/appointment.py:162-187 | lists each booking in scope that passes the clinic, date and status filters, exactly once, by start time |
| `Appointments.ListAppointments` | app/api/v1/appointment.py:149-188 | 422 exactly for a limit outside 1..200 or a negative offset; otherwise the page at `offset` (at most `limit` rows) of the scoped, filtered bookings ordered by start time, each a stored booking |
| `Appointments.MyDoctorAppointments` | app/api/v1/appointment.py:191-205 | 403 exactly for non-doctors; nothing for an unlinked doctor; otherwise every booking of the caller's profile by start time |
| `Appointments.MyPatientAppointments` | app/api/v1/appointment.py:207-221 | 403 exactly for non-patients; nothing for an unlinked patient; otherwise every booking for the caller's profile by start time |
| `Links.Link` | app/api/v1/doctor.py:95-98 | afterwards the pair is present and every other pair is as before; an existing pair is left alone |
| `Links.Unlink` | app/api/v1/doctor.py:103 | afterwards exactly that pair is gone and every other pair is as before; an absent pair changes nothing |
| `Links.DropMember` | app/api/v1/doctor.py:83 | every link of the member is gone and every link of any other member stays |
| `Links.LinkLaws` | app/api/v1/patient.py:86-100 | linking twice is linking once; unlinking undoes a fresh link; dropping a member forgets a link just made for it |
| `Doctors.DoctorEditRules` | app/api/v1/doctor.py:24-25 | patients never edit a doctor profile, admins always may, and a doctor exactly when the profile is linked to their account |
| `Doctors.ReplaceDoctorKeepsValid` | app/models/doctor.py:16 | replacing a profile while keeping its id and account link keeps every account linked to at most one profile |
| `Doctors.UpdateDoctor` | app/api/v1/doctor.py:66-79 | 404 exactly for an unknown profile, 403 exactly when the caller may not edit it, 500 exactly when the patch nulls a NOT NULL column (`name`, `specialty`), success exactly otherwise; a failure changes nothing; on success only that profile changes, only in the fields the patch names |
| `Doctors.DeleteDoctor` | app/api/v1/doctor.py:81-86 | admins only (403 otherwise); every clinic link of the doctor and the profile row go, and nothing else; an unknown id is no error |
| `Doctors.AssignDoctorToClinic` | app/api/v1/doctor.py:88-99 | 403 exactly for non-admins; 404 exactly for an unknown doctor or clinic; success exactly otherwise, after which the link exists, added only when absent |
| `Doctors.UnassignDoctorFromClinic` | app/api/v1/doctor.py:101-105 | admins only; removes exactly that link, whether or not it existed |
| `Doctors.ListDoctors` | app/api/v1/doctor.py:37-49 | 422 exactly for a limit outside 1..200 or a negative offset; otherwise a page of at most `limit` stored profiles, all members of the requested clinic when one is given |
| `Patients.PatientEditRules` | app/api/v1/patient.py:24-25 | doctors and admins may update any patient profile; a patient only the profile linked to their account; a doctor is not admitted by `_can_edit_patient` itself |
| `Patients.ReplacePatientKeepsValid` | app/models/patient.py:16 | replacing a profile while keeping its id and account link keeps every account linked to at most one profile |
| `Patients.UpdatePatient` | app/api/v1/patient.py:66-76 | 404 exactly for an unknown profile, 403 exactly for a patient updating someone else's profile, 500 exactly when the patch nulls the NOT NULL `name`, success exactly otherwise; a failure changes nothing; on success only that profile changes, only in the fields the patch names |
| `Patients.DeletePatient` | app/api/v1/patient.py:78-83 | admins only (403 otherwise); every clinic link of the patient and the profile row go, and nothing else |
| `Patients.AssignPatientToClinic` | app/api/v1/patient.py:85-95 | 403 exactly for patients; 404 exactly for an unknown patient or clinic; success exactly otherwise, after which the link exists, added only when absent |
| `Patients.UnassignPatientFromClinic` | app/api/v1/patient.py:97-101 | admins and doctors; removes exactly that link, whether or not it existed |
| `Patients.ListPatients` | app/api/v1/patient.py:36-48 | 403 exactly for patients; otherwise every stored profile, exactly once, restricted to the members of the requested clinic when one is given |
| `Patients.GetMyPatient` | app/api/v1/patient.py:50-57 | 403 exactly for non-patients; 404 exactly when no profile is linked to the caller; success exactly otherwise, with the one profile linked to the caller |
| `Auth.AccountFor` | app/api/v1/auth.py:35-36 | an account is found exactly when one is stored under the lower-cased address, and it is that account |
| `Auth.FindByEmail` | app/api/v1/auth.py:35-36 | the scan of the account table finds exactly the account stored under the lower-cased address |
| `Auth.ReplaceUserKeepsValid` | app/models/user.py:23 | replacing an account while keeping its id and address, and with two-factor login consistent, keeps the account table well-formed |
| `Auth.Register` | app/api/v1/auth.py:16-31 | 422 exactly for a short name or password; 400 exactly when the lower-cased address is taken; 500 exactly when the fresh id is taken; success exactly otherwise, with one new active account with two-factor login off, the lower-cased address and the requested role, and nothing else changes |
| `Auth.LoginOutcome` | app/api/v1/auth.py:33-52 | 422 exactly for a short password; 401 for an unknown address, a wrong password, and, with two-factor login on, a missing code, a missing secret or a wrong code; 403 exactly for a right password on an inactive account; success exactly for a right password on an active account, with a good code when two-factor login is on; the token names that account and its role |
| `Auth.Login` | app/api/v1/auth.py:33-52 | the login endpoint answers as `LoginOutcome` says |
| `Auth.RegisterThenLogin` | app/api/v1/auth.py:16-52 | an account just registered logs in with its password under any ASCII capitalisation of its address, without a code, as itself and with its role |
| `Auth.SetupState` | app/api/v1/auth.py:61-64 | setup stores the new secret and leaves two-factor login off, keeping the invariant; nothing else about the account changes |
| `Auth.EnableOutcome` | app/api/v1/auth.py:77-82 | 400 exactly without a stored secret or with a wrong code; otherwise two-factor login is on, the secret is kept, and nothing else changes |
| `Auth.DisableOutcome` | app/api/v1/auth.py:91-104 | succeeds without a code when two-factor login is off or the secret is missing; 400 exactly for a wrong code otherwise; every success leaves it off with no secret |
| `Auth.TwoFaCycle` | app/api/v1/auth.py:44-104 | after setup and enable, login without a code is 401 and with a good code succeeds, and disable with a good code restores the account with no secret |
| `Auth.TwoFaSetup` | app/api/v1/auth.py:55-69 | only the caller's account changes, as `SetupState` says, and the database stays valid |
| `Auth.TwoFaEnable` | app/api/v1/auth.py:71-83 | answers as `EnableOutcome` says; only a success changes the caller's account; the database stays valid |
| `Auth.TwoFaDisable` | app/api/v1/auth.py:85-104 | answers as `DisableOutcome` says; only a success changes the caller's account; the database stays valid |
| `Meetings.ParticipantsAreViewers` | app/api/v1/zoom.py:186-202 | for bookings with non-empty ids, the meeting participants are exactly the accounts that may view the booking |
| `Meetings.GetZoomLink` | app/api/v1/zoom.py:173-227 | 404 exactly for a missing or non-virtual booking, 403 exactly for non-participants, 400 exactly while no meeting exists, and a link exactly for a participant once the meeting exists; admins get the host URL labelled admin, doctors the host URL labelled doctor, patients the join URL, always with the passcode |
| `Meetings.DurationMinutes` | app/api/v1/zoom.py:139 | the meeting lasts at least 15 and less than 1440 minutes, and for a booking of 15 minutes to a day it is the booking's length in whole minutes |
| `Meetings.DurationDropsWholeDays` | app/api/v1/zoom.py:139 | a booking one day longer asks for the same duration; a 25-hour booking asks for 60 minutes |
| `Meetings.RequestFor` | app/api/v1/zoom.py:139-151 | the meeting is requested for the doctor's user account, at the booking's start, for the booking's `DurationMinutes` (at least 15) |
| `Meetings.EnsureOutcome` | app/api/v1/zoom.py:93-171 | not eligible exactly for a missing or non-virtual booking; an existing meeting is returned as it is; 404 exactly for a missing doctor and 400 exactly for a doctor without an account; a virtual booking without a meeting whose doctor has an account gets the provider's meeting, with an empty passcode when it gives none |
| `Meetings.EnsureIdempotent` | app/api/v1/zoom.py:107-114 | once a meeting is stored, ensuring again returns that same meeting, whatever the provider would answer now |
| `Meetings.EnsureMeeting` | app/api/v1/zoom.py:93-171 | answers as `EnsureOutcome` says, and stores a meeting row only when it created one |

## Left out

- Concurrency: the model runs each request on its own. There is no locking between the overlap query and the insert, and nothing is claimed about races.
- Token encoding and decoding, bcrypt hashing, TOTP secret and QR generation: foreign libraries. The decoded claims, the hash and the two verification results are inputs.
- The meeting provider (OAuth, token refresh, HTTP meeting creation) is a total function parameter. Its failures, the meeting topic text and the 32-character passcode column are not modelled.
- Time: timestamps are whole seconds. The time-zone and ISO conversion of the meeting start and sub-second precision are not modelled.
- Foreign keys are not enforced by the model, except the cascade that removes a booking's meeting row.
- Doctors.DeleteDoctor: deleting a doctor who still has bookings fails in the database. The model deletes the profile and its links.
- Patients.DeletePatient: deleting a patient who still has bookings fails in the database. The model deletes the profile and its links.
- Uuid generation: a fresh id is an input, and a clash with an existing row is answered with 500.
- An explicit JSON `null` for a field of an appointment patch is not modelled: each patch field is either set to a value or absent. Doctor and patient patches do carry explicit nulls; a null for a NOT NULL column is answered with 500, as the database refuses it in strict SQL mode.
- Appointments.CreateOutcome: answers 400 when two or more active bookings overlap the requested slot, where the code answers 500 (see Findings); it uses the corrected overlap answer.
- Appointments.CreateChecks: its 400-exactly-when-blocked clause uses the corrected overlap answer, so it also covers two or more blocking bookings, which the code answers with 500.
- Appointments.CreateAppointment: answers as `CreateOutcome`, so two or more blocking bookings give 400 rather than the code's 500.
- Appointments.UpdateOutcome: answers 400 when a moved slot meets two or more other active bookings, where the code answers 500 (see Findings).
- Appointments.UpdateSlotChecks: its 400-exactly-when-blocked clause uses the corrected overlap answer, so it also covers two or more blocking bookings, which the code answers with 500.
- Appointments.UpdateAppointment: answers as `UpdateOutcome`, so two or more blocking bookings give 400 rather than the code's 500.
- Appointments.UpdateOutcome: a patch whose `patient_id` or `clinic_id` names no row succeeds in the model; in the database the foreign keys make the commit fail with 500.
- Appointments.UpdateIgnoresMembership: states that the outcome does not depend on clinics; in the database a `clinic_id` naming no clinic still fails at the commit with 500, through the foreign key.
- E-mail lower-casing covers the ASCII letters only. `EmailStr` address validation is not modelled.
- Profile attributes of doctors and patients are optional strings. The sex enumeration, birth dates, the `*_public_id` columns and the `clinics` list in the output records are not modelled.
- `create_doctor`, `get_doctor`, `my_doctor_profile`, `create_patient`, `get_patient` and `auth/me` are plain reads and inserts outside the modelled core.
- The second "missing or not virtual" test in `ensure_meeting` (app/api/v1/zoom.py:126-127) is unreachable after the first one, and is not modelled.
- Clinics, clinical records, prescriptions, certificates, file uploads, the chat relay and the framework wiring are not part of this model.

## Findings

| source | as written | input that shows it | evidently intended | confidence | as-written member | corrected member |
|---|---|---|---|---|---|---|
| app/api/v1/appointment.py:126-131 (also 261-266) | the overlap query is read with `scalar_one_or_none()`, which raises when two or more rows match, so the request fails with 500 | a doctor's bookings 10:00-10:30 (confirmed) and 10:30-11:00 (pending) at one clinic; a request for 10:15-10:45 there | refuse with 400 "slot taken" whenever any row overlaps | high, not executed | `Overlap.OverlapErrorAsWritten` (exhibited by `Overlap.StraddlingRequestIsServerError`) | `Overlap.OverlapError` |
