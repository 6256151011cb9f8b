# Health-center backend: identity, profiles and appointments, in Dafny

This project models the core of a FastAPI/SQLAlchemy backend for a health
center. It covers the Users table and its cascading delete, the three
role profiles (patient, doctor, employee) with their create-or-update
rule, appointment creation, the list of today's appointments, password
hashing and verification, and the decision order of the authentication
endpoints.

Each source file is one Dafny module:

- `models.dfy` (`Models`, app/models.py): the entities as datatypes. The store is a class `Database`. It holds one map per table (Roles, Users, PatientProfiles, DoctorProfiles, Employees, Appointments), keyed by primary key. `Database.Valid()` states the declared table constraints:
  - every key matches the row's own id;
  - RoleName is unique;
  - Email and Phone are unique;
  - each user's RoleID names an existing role;
  - each profile key is the id of an existing user, so a user has at most one profile of each kind;
  - AadharNumber and PANNumber are unique among non-NULL values, within doctors and, separately, within employees.

  Every state-changing operation requires `Valid()` and ensures it again.
- `crypt.dfy` (`Crypt`): the hashing library as a value passed in. `hash` is a function. `verify` either gives a verdict or raises.
- `utils.dfy` (`Utils`, app/utils.py): the pre-hash truncation and the unguarded verify.
- `users.dfy` (`Users`, app/crud/users.py): the guarded verify, the lookups by email and by id, `create_user` and the cascading `delete_user`.
- `profiles.dfy` (`Profiles`): the create-or-update rule shared by the three profile modules. The `setattr` loop over the payload's set fields is `SetAttrs`. `Upserted` is the row that results, and the lemmas state the merge properties.
- `patient.dfy`, `doctor.dfy`, `employee.dfy` (`Patients`, `Doctors`, `Employees`, app/crud/*.py): get, upsert and delete per profile kind, `create_appointment`, and `get_todays_appointments`.
- `auth.dfy` (`Auth`, app/routers/auth.py): register, login, patient login, delete and get, each answering with a body or an HTTP status.

The crud functions take the session as a parameter, so the model's operations take `db: Database`. They `modify` it where the source writes and `read` it where the source only queries.

A payload is the map of its explicitly set fields, which is what `model_dump(exclude_unset=True)` produces. A field set to `None` is in the map with the value `Null`. A profile row holds its key and a map of its other columns, and a column missing from that map is NULL.

The model assumes a store that enforces NOT NULL, UNIQUE and foreign keys at commit but not the declared string lengths (see "## Left out"). When a write breaks one of those constraints, the store raises an integrity error, and the model leaves every table as it was.

## Behaviour worth noting

- Only the crud `verify_password` (app/crud/users.py:14-24) catches what the hashing library raises. The one in app/utils.py:11-12 lets it propagate.
- `create_user` hashes with the untruncated `hash_password` of app/crud/users.py:10-12. The truncating `hash_password` of app/utils.py:5-9 has no caller, so its truncation problem (see "## Findings") is a mismatch between that code and its comment. It does not reach the stored hashes.
- Registering a duplicate email answers 400. The endpoint does not check the phone. A duplicate phone makes the store's integrity error escape uncaught, which becomes a 500.
- Creating an appointment for an id that is not a user raises `ValueError`. A user without the matching profile is refused only by the foreign keys of Appointments.
- Today's appointments would print `None` for a missing user's name. Under the foreign-key invariant that never happens (`Employees.TodaysRowsHaveNames`).

## Model

| member | source | states |
|---|---|---|
| `Models.NextId` | app/models.py:26 | An auto-increment key is at least 1, is not in use, and is greater than every key in use |
| `Models.RemoveUserKeepsValid` | app/models.py:40-42 | Removing a user together with its employee, doctor and patient profiles keeps every table constraint |
| `Utils.TruncateAsWritten` | app/utils.py:7-8 | The value that reaches the hash is a prefix of the password, and is either at most 72 characters long or the whole password |
| `Utils.HashPasswordAsWritten` | app/utils.py:5-9 | A password of at most 72 bytes is hashed as given. A longer one with at least 72 characters is hashed as its first 72 characters |
| `Utils.ShortPasswordUnchanged` | app/utils.py:5-9 | A password of at most 72 UTF-8 bytes is hashed unchanged |
| `Utils.LongPasswordCutByCharacters` | app/utils.py:7-8 | A password over 72 bytes is cut to its first 72 characters, or kept whole when it has fewer than 72 |
| `Utils.TruncationIsPrefix` | app/utils.py:8 | The truncated value is a prefix of the password |
| `Utils.TruncationIdempotent` | app/utils.py:7-8 | Truncating twice gives the same result as truncating once |
| `Utils.TruncationCanExceedLimit` | app/utils.py:6-8 | 72 two-byte characters (144 bytes) pass the truncation whole, so the hashed input can exceed 72 bytes |
| `Utils.FitToBytes` | app/utils.py:6-8 | The intended truncation gives a prefix of at most the byte budget, cut at a character boundary, and the longest such prefix |
| `Utils.FitKeepsShortStrings` | app/utils.py:7-9 | A string within the byte budget is kept whole by the intended truncation |
| `Utils.FitAgreesOnShortPasswords` | app/utils.py:7-9 | On passwords of at most 72 bytes the intended truncation and the one as written agree |
| `Utils.HashPasswordHashesFittedPrefix` | app/utils.py:5-9 | The corrected hash_password hashes a prefix of at most 72 bytes, and the password itself when it fits |
| `Utils.VerifyPasswordUnguarded` | app/utils.py:11-12 | The utils verify raises exactly when the library raises, and otherwise returns the library's verdict |
| `Users.HashPassword` | app/crud/users.py:10-12 | The hash `create_user` stores is the library hash of the whole password, with no truncation |
| `Users.CrudHashAgreesOnShortPasswords` | app/crud/users.py:10-12 | The crud hash and app/utils.py's truncating hash agree on passwords of at most 72 bytes, and also on the 144-byte password of 72 "é" |
| `Users.VerifyPassword` | app/crud/users.py:14-24 | The crud verify is true only on a "match" verdict; anything the library raises yields false |
| `Users.GuardedVerifyNeverRaises` | app/crud/users.py:20-24 | Where the unguarded verify raises, the guarded one answers false; elsewhere the two agree |
| `Users.GetUserByEmail` | app/crud/users.py:27-29 | The user with that email (the only one), or none exactly when no user has it |
| `Users.GetUserById` | app/crud/users.py:71-73 | The user with that id, or none exactly when the id is absent |
| `Users.CreateUser` | app/crud/users.py:31-49 | Fails with an integrity error and changes nothing exactly when RoleID is missing or unknown or the email or phone is taken. Otherwise it adds one user under a fresh id, with the payload's fields copied, the password's hash stored, and both timestamps set to now. Nothing else changes |
| `Users.DeleteUser` | app/crud/users.py:51-69 | False and no change when the user is absent. Otherwise true, and the user and its employee, doctor and patient profiles are gone. Every other row, appointments included, is unchanged |
| `Users.DeleteUserTwice` | app/crud/users.py:53-56 | A repeated delete is false. Afterwards no row of the user or its profiles is left, and every other user and profile is as before |
| `Profiles.SetAttrs` | app/crud/patient.py:17-20 | The setattr loop overwrites exactly the set fields and leaves every other attribute as it was |
| `Profiles.UpsertRow` | app/crud/patient.py:11-24 | The lookup-then-merge-or-create step yields `Upserted` of the existing row (if any), the key and the fields |
| `Profiles.UpsertKeyedByPath` | app/crud/patient.py:23 | The upserted row is keyed by the path's user id |
| `Profiles.UpsertColumns` | app/crud/doctor.py:14-24 | After an upsert each set field holds its new value (an explicit NULL included). Each unset field keeps its old value, or is NULL in a new row |
| `Profiles.UpsertsCompose` | app/crud/patient.py:17-20 | Two successive upserts equal one upsert with both field sets, the later one winning |
| `Profiles.DisjointUpsertsBothApply` | app/crud/patient.py:17-20 | After two upserts with disjoint field sets, both updates are present |
| `Profiles.WriteKeepsUnique` | app/models.py:76-77 | Writing a row that does not clash keeps a UNIQUE column unique |
| `Profiles.RemoveKeepsUnique` | app/models.py:94-95 | Deleting a row keeps a UNIQUE column unique |
| `Patients.GetPatientProfile` | app/crud/patient.py:4-6 | The profile keyed by the user id, or none exactly when absent |
| `Patients.StripPatientId` | app/crud/patient.py:13-15 | The field set loses PatientID and keeps every other set field with its value |
| `Patients.PayloadPatientIdIgnored` | app/crud/patient.py:13-15 | The PatientID in the payload, whatever its value, has no effect on the upserted row |
| `Patients.CreateOrUpdatePatientProfile` | app/crud/patient.py:9-28 | Succeeds exactly when the user exists. The patient row keyed by the user id then becomes the merge of the set fields (PatientID stripped) into the old row, or a new row. Nothing else changes, and on failure nothing changes at all |
| `Patients.DeletePatientProfile` | app/crud/patient.py:31-38 | True exactly when a profile was present. Exactly that row is removed and nothing else changes |
| `Patients.CreateAppointment` | app/crud/patient.py:40-52 | ValueError exactly when either id is not a user, with nothing stored. Succeeds exactly when both profiles exist, storing all payload fields under a fresh id and changing nothing else |
| `Doctors.GetDoctorProfile` | app/crud/doctor.py:4-6 | The profile keyed by the user id, or none exactly when absent |
| `Doctors.StripDoctorId` | app/crud/doctor.py:13-15 | The field set loses DoctorID and keeps every other set field with its value |
| `Doctors.PayloadDoctorIdIgnored` | app/crud/doctor.py:13-15 | The DoctorID in the payload has no effect on the upserted row |
| `Doctors.CreateOrUpdateDoctorProfile` | app/crud/doctor.py:9-28 | Succeeds exactly when the user exists and the merged row shares no non-NULL Aadhar or PAN number with another doctor. It then writes the merged or new row keyed by the user id and changes nothing else; on failure nothing changes |
| `Doctors.DeleteDoctorProfile` | app/crud/doctor.py:31-38 | True exactly when a profile was present. Exactly that row is removed |
| `Employees.GetEmployeeProfile` | app/crud/employee.py:5-7 | The profile keyed by the user id, or none exactly when absent |
| `Employees.CreateOrUpdateEmployeeProfile` | app/crud/employee.py:10-24 | As for doctors, with the employee Aadhar/PAN uniqueness. The payload has no key field to strip |
| `Employees.DeleteEmployeeProfile` | app/crud/employee.py:27-34 | True exactly when a profile was present. Exactly that row is removed |
| `Employees.GetTodaysAppointments` | app/crud/employee.py:36-70 | The loop appends, in scan order, one view per scanned appointment dated today that has both profiles, which is `TodaysViews` |
| `Employees.TodaysRowsAreListed` | app/crud/employee.py:50-69 | Every row is the view of a scanned appointment dated today with both profiles. Its names are `First Last` of the users keyed by DoctorID and PatientID, or none |
| `Employees.OneRowPerListedAppointment` | app/crud/employee.py:57-69 | With distinct scanned keys, each appointment has one row if listed and none otherwise |
| `Employees.TodaysAppointmentsExact` | app/crud/employee.py:40-70 | Over a full scan, the rows are exactly the appointments dated today that have a doctor and a patient profile, one each |
| `Employees.TodaysRowsHaveNames` | app/crud/employee.py:59-66 | Under the foreign keys every row has both names, `FirstName + " " + LastName`, where a NULL last name prints as "None" |
| `Employees.FirstUndeclared` | app/crud/employee.py:40-49 | Evaluating attribute lookups left to right stops at the first one whose class does not declare the name, with every earlier name declared. It gives none exactly when every name is declared |
| `Employees.TodaysAppointmentsAsWritten` | app/crud/employee.py:40-54 | The query as written raises AttributeError exactly when some name in its select list is not declared on its class (app/models.py:49-116), and the error carries such a name |
| `Employees.TodaysQueryRaises` | app/crud/employee.py:45-46 | `Appointment` declares AppointmentID, DoctorID and PatientID but not AppointmentDate, so the query as written raises AttributeError("AppointmentDate") for every store and every date |
| `Auth.LoginUser` | app/routers/auth.py:32-58 | 404 exactly when no user has the email, before any password check. A body exactly when the password verifies for that user. The body carries the user's id, names, email, phone and role, never the password |
| `Auth.LoginPatient` | app/routers/auth.py:64-97 | A successful patient login is always of a user with RoleID 3 |
| `Auth.PatientLoginRefinesLogin` | app/routers/auth.py:74-85 | Patient login gives the general login's 404 or 401 unchanged. When that login succeeds, a RoleID other than 3 gets 403 |
| `Auth.NonPatientWithRightPasswordForbidden` | app/routers/auth.py:80-85 | A non-patient with the correct password gets 403, not 401 |
| `Auth.RegisterUser` | app/routers/auth.py:15-26 | 400 with no change exactly when the email is registered. A duplicate phone with a free email is a 500 with no change. On success one user is added under a fresh id, with nothing else changed. It carries the payload's names, email, phone, role, gender, DOB and address, the hashed password, and both timestamps set to now. The body is that row without the password |
| `Auth.DeleteUserEndpoint` | app/routers/auth.py:99-104 | 404 with no change exactly when the user is absent. Otherwise the success message with the id. The user and its three profiles are removed, and every other row is unchanged |
| `Auth.GetUser` | app/routers/auth.py:106-112 | 404 exactly when the user is absent. Otherwise the user's columns without the password |

## Findings

| source | as written | input that shows it | evidently intended | confidence | as-written member | corrected member |
|---|---|---|---|---|---|---|
| app/utils.py:7-8 | tests the UTF-8 byte length against 72, then keeps the first 72 characters | 72 copies of "é": 144 bytes, and all 72 characters are kept, so 144 bytes are hashed | keep the longest prefix of at most 72 bytes, cut at a character boundary | high, not executed | `Utils.TruncationCanExceedLimit` | `Utils.FitToBytes` |
| app/crud/employee.py:45-48 | selects `Appointment.AppointmentDate`, `Appointment.Time` and `DoctorProfile.user.label(...)`; the model has only `DateTime` (app/models.py:111), and `user` is a relationship | any call: the attribute `AppointmentDate` does not exist, so building the query raises AttributeError | filter on the date part of `DateTime`, report its time, and look names up by the profile key, which is the owner's UserID | high, not executed | `Employees.TodaysQueryRaises` | `Employees.GetTodaysAppointments` |

## Left out

- Argon2 and passlib: `hash` and `verify` are the fields of a `CryptContext` value passed in. The hash is a fixed function, so salting (a new hash on every call) is not modelled. "Never plaintext" is stated as "the stored value is `ctx.hash(password)`". It holds only as far as the hash is not the identity.
- SQLAlchemy session mechanics: commit, refresh, transactions and isolation are not modelled. Each operation is atomic.
- Database-generated ids are not modelled as such. They come from `Models.NextId`, which gives one more than the largest key in use.
- The ORM's handling of appointments whose patient or doctor profile (or user) is deleted is not modelled. Deletes leave Appointments untouched. So the appointment-to-profile foreign keys are checked when an appointment is inserted, and are not kept as an invariant.
- The "UpdatedAt on update" default is not exercised, because no modelled operation updates a user row.
- `date.today()` and its timezone: today's date is a parameter.
- The order in which the database returns the appointment rows is not modelled. It is the parameter `order`, a duplicate-free listing of the Appointments keys.
- Pydantic validation (EmailStr, required fields) is not modelled. Under pydantic v2, a field declared `Optional[...]` without a default is still required, so over HTTP every profile field is always set. The crud operations are modelled for any set of fields.
- Floats (Height, Weight) and JSON (AvailabilitySchedule) are opaque tokens.
- Lone surrogates are not modelled. A Python string may contain one, and `encode('utf-8')` raises on it, but a Dafny `char` is always a Unicode scalar value.
- app/main.py (CORS and wiring) and app/routers/patient.py, doctor.py, employee.py are left out: they are HTTP mapping from an absent result or `False` to 404.
  - The `/appointment` route of app/routers/patient.py is declared after `/{user_id}`, so it never matches.
  - The `/appointments/today` route of app/routers/employee.py declares a response model that does not fit the rows returned.
- The database engine (app/database.py) is not part of this model. The model assumes foreign keys are enforced, as on PostgreSQL; on SQLite they are not enforced by default. With foreign keys off, a profile upsert for an unknown user and an appointment whose ids have no profile would succeed.
- Doctors.CreateOrUpdateDoctorProfile: does not refuse an AadharNumber longer than 12 characters or a PANNumber longer than 10. PostgreSQL enforces these `String(12)` and `String(10)` lengths; SQLite does not.
- Employees.CreateOrUpdateEmployeeProfile: does not refuse an AadharNumber longer than 12 characters or a PANNumber longer than 10, for the same reason.
- Consultation, LabCenter, Investigation, Booking, Report, Discount, Payment, Billing and Attendance are left out: they are storage only.
- Users.CreateUser: says that a refused insert raises an integrity error, not which constraint is reported first when several are broken. That choice belongs to the database.
- Doctors.CreateOrUpdateDoctorProfile: says that a refused write raises an integrity error, not which constraint is reported first.
- Employees.CreateOrUpdateEmployeeProfile: says that a refused write raises an integrity error, not which constraint is reported first.
