# Hospital portal front end — a Dafny model

The portal is a single-page React application with three roles (patient, doctor
and hospital admin) and a developer page that provisions admins. All of its
state lives in the browser's key-value store:

- three collections, `patients`, `doctors` and `admins`, each a JSON array;
- three session slots, `currentPatient`, `currentDoctor` and `currentAdmin`.

This project models the domain logic of the pages over that store:

- first-run seeding and logout;
- the shared field validators;
- patient login (with the demo-credential fallback), registration and the
  one-time-code password reset;
- the patient dashboard: loading the record, writing it back, document upload,
  appointment booking, profile editing with a five-entry history, and the
  catalog search;
- the admin dashboard: loading the admin or synthesizing demo statistics,
  doctor registration, the availability form and the patient total;
- the doctor dashboard's incoming-appointment join and counters;
- admin provisioning and admin login.

Layout, one module per source file:

| file | module | models |
|---|---|---|
| `wrappers.dfy` | `Wrappers` | `Option` |
| `text.dfy` | `Text` | `trim`, `\s`, `toLowerCase`, `includes`, `length` in UTF-16 code units, integer `toString` |
| `seqs.dfy` | `Seqs` | `filter` (with the positions it keeps), `find`, `some`, conditional `map`, `slice(0, n)` |
| `validation.dfy` | `Validation` | `src/utils/validation.js` |
| `catalog.dfy` | `Catalog` | `src/utils/dummyData.js` |
| `records.dfy` | `Records` | the stored record shapes and the error map |
| `store.dfy` | `Store` | the key-value store, as a class with one field per key |
| `accounts.dfy` | `Accounts` | the patient lookup by email or username |
| `app.dfy` | `App` | `src/App.jsx` |
| `patient_auth.dfy` | `PatientAuth` | `src/pages/patient/PatientAuth.jsx` |
| `patient_dashboard.dfy` | `PatientDashboard` | `src/pages/patient/PatientDashboard.jsx` |
| `admin_dashboard.dfy` | `AdminDashboard` | `src/pages/admin/AdminDashboard.jsx` |
| `doctor_dashboard.dfy` | `DoctorDashboard` | `src/pages/doctor/DoctorDashboard.jsx` |
| `developer_register.dfy` | `DeveloperRegister` | `src/pages/developer/DeveloperRegister.jsx` |
| `admin_login.dfy` | `AdminLogin` | `src/pages/admin/AdminLogin.jsx` |

## Modelling choices

- **The store** is a class. Each collection key is an `Option<seq<…>>`, where
  `None` means the key is absent. Every handler reads an absent collection as
  `[]`. Each session slot is an `Option<string>`.
- **Page components** are classes that hold the React state a handler keeps
  between events: `errors`, `otpSent`, `generatedOtp`, `patientData`,
  `profileForm`, `profileErrors` and `adminData`. Handler methods name in
  `modifies` exactly the page fields and store keys they write.
- **Form inputs** a handler reads once are method parameters: the login and
  registration forms, the selected file, the booking form, the doctor form and
  the developer form.
- **The one-time code** is a single `(otpSent, generatedOtp)` pair on the page. It is not bound to the email it was sent for. A reset rewrites whichever records match the email typed on submission.
- **Error objects** are `map<Field, string>`. A form is accepted exactly when
  its map is empty.
- **Numeric form fields** are `NumField = Blank | Num(Number)`, where `Number`
  is `Finite(real) | NaN | Infinity(negative)`. The value parsed from the text
  is the input. So JavaScript's comparisons with NaN and with infinities are
  stated exactly: a NaN income passes the `< 0` test, and `-Infinity` fails
  it.
- **The clock, the weekday name and `Math.random()`** are parameters:
  - the one-time code takes one draw;
  - the synthesized admin takes 11 draws per department, in evaluation order;
  - ids, upload dates and snapshot times are strings the caller supplies.

## Model

| member | source | states |
|---|---|---|
| Validation.ValidateEmail | src/utils/validation.js:1-4 | accepts exactly the addresses with no white space, a single `@` that is not first, and a `.` after at least one character following the `@` and before the last character |
| Validation.EmailAcceptsIffShape | src/utils/validation.js:1-4 | the left-to-right scan of `^[^\s@]+@[^\s@]+\.[^\s@]+$` accepts a string if and only if it has that shape |
| Validation.ValidEmailIsRequired | src/utils/validation.js:1-4 | every address validateEmail accepts also passes validateRequired |
| Validation.ValidatePassword | src/utils/validation.js:6-23 | valid if and only if all five rules hold; the message is empty if and only if the password is valid |
| Validation.PasswordReportsFirstBrokenRule | src/utils/validation.js:7-21 | the message is the one for the first broken rule in the order length, upper case, lower case, digit, special |
| Validation.ShortPasswordGetsLengthMessage | src/utils/validation.js:7-9 | a password shorter than 8 UTF-16 code units gets the length message, whatever characters it contains |
| Text.JsLengthIsCountIffBmp | src/utils/validation.js:7 | `length` equals the number of characters exactly when none lies beyond the Basic Multilingual Plane |
| Validation.AstralCharactersCountTwice | src/utils/validation.js:7 | a character beyond the Basic Multilingual Plane counts two units toward the length rule, so a six-character password of that kind is accepted |
| Validation.ValidPasswordIsRequired | src/utils/validation.js:6-23 | every accepted password also passes validateRequired |
| Validation.ValidateAge | src/utils/validation.js:25-27 | true if and only if the number is finite and lies in [1, 150] |
| Validation.ValidateBMI | src/utils/validation.js:29-31 | true if and only if the number is finite and lies in [10, 60] |
| Validation.ValidatePhone | src/utils/validation.js:33-36 | true if and only if the string is exactly ten decimal digits |
| Validation.ValidateRequired | src/utils/validation.js:38-40 | true if and only if the string holds a character that is not white space |
| Validation.ValidateUsername | src/utils/validation.js:42-50 | under 3 UTF-16 code units gets the length message; otherwise valid if and only if every character is in `[a-zA-Z0-9._]`; empty message if and only if valid |
| Validation.ValidateName | src/pages/patient/PatientAuth.jsx:67-69 | the name rule holds if and only if the trimmed name is 2 to 100 UTF-16 code units long |
| Accounts.FindAccountIsFirst | src/pages/patient/PatientAuth.jsx:153-157 | the lookup returns the first record whose lower-cased email or username equals the identifier; it finds none if and only if no record matches |
| App.SeedPatients | src/App.jsx:17-35 | one record per demo patient credential, with that username, email and password and no documents, appointments or history |
| App.SeedDoctors | src/App.jsx:37-51 | one record per demo doctor credential, with that username and password, the demo hospital, no appointments and a 3-entry treatment history |
| App.SeedAdmins | src/App.jsx:53-62 | one record per demo admin credential, with that username and password, the demo hospital and no department statistics |
| App.SeedIfAbsentIdempotent | src/App.jsx:16-63 | seeding a key twice equals seeding it once, and a key already present is left as it is |
| App.Initialize | src/App.jsx:16-63 | each collection is seeded if and only if its key is absent; keys already present are unchanged |
| App.InitializeTwice | src/App.jsx:16-63 | running the first-run effect twice leaves the store as seeding each absent key once |
| App.Logout | src/App.jsx:97-103 | all three session slots are cleared |
| PatientAuth.ValidateLoginForm | src/pages/patient/PatientAuth.jsx:49-62 | an email error if and only if the email is invalid, a password error if and only if the password is blank, each with its message, and no other keys |
| PatientAuth.ResolveLogin | src/pages/patient/PatientAuth.jsx:151-185 | a stored match if and only if the first stored record for the identifier has the typed password; otherwise a demo match if and only if the first demo credential for it has the typed password, giving the built demo record |
| PatientAuth.Materialize | src/pages/patient/PatientAuth.jsx:189-191 | no record the identifier selects is kept except the appended demo record, which comes last; before it, every other record is kept once each, in its stored order |
| PatientAuth.DemoLoginThenStoredLogin | src/pages/patient/PatientAuth.jsx:162-194 | after a demo login the store holds exactly one record the identifier selects, and the same login then resolves to it as a stored match |
| PatientAuth.MaterializeIdempotent | src/pages/patient/PatientAuth.jsx:189-191 | writing the demo record a second time leaves the collection as after the first time |
| PatientAuth.AuthPage.constructor | src/pages/patient/PatientAuth.jsx:11-13 | no errors, no code sent, an empty stored code |
| PatientAuth.AuthPage.HandleLogin | src/pages/patient/PatientAuth.jsx:148-199 | an invalid form sets its errors and writes nothing; a stored match signs in `email \|\| username`; a demo match also writes the demo record over the identifier's records; no match sets the general error and writes nothing |
| PatientAuth.ValidateRegisterForm | src/pages/patient/PatientAuth.jsx:64-120 | a field has an error if and only if its rule is broken, with that rule's message; only the twelve checked fields can appear |
| PatientAuth.RegisterPersonalRules | src/pages/patient/PatientAuth.jsx:67-91 | what the name, email, gender, age, BMI and address rules accept, stated on the field values |
| PatientAuth.RegisterAccountRules | src/pages/patient/PatientAuth.jsx:93-107 | what the blood group, religion and occupation rules accept, stated on the field values |
| PatientAuth.RegisterIncomeRule | src/pages/patient/PatientAuth.jsx:97-99 | a blank, negative or minus-infinite income is refused; every other income, NaN included, passes |
| PatientAuth.RegisterPasswordRules | src/pages/patient/PatientAuth.jsx:109-116 | the password error carries the validator's own message; the confirmation error appears if and only if the two passwords differ |
| PatientAuth.EmailTaken | src/pages/patient/PatientAuth.jsx:206 | the `some` scan succeeds if and only if some stored email equals the typed email up to case |
| PatientAuth.NewPatient | src/pages/patient/PatientAuth.jsx:210-218 | the new record's username is its email, both family-disease fields take the form's value, and it has no documents, appointments or history |
| PatientAuth.RegisterKeepsEmailsUnique | src/pages/patient/PatientAuth.jsx:206-221 | if stored emails are unique up to case and the new email is not taken, they stay unique after the append |
| PatientAuth.LoginChecksAccept | src/pages/patient/PatientAuth.jsx:49-62 | a login form with a valid email and an accepted password has no errors |
| PatientAuth.RegisteredFormPassesLoginChecks | src/pages/patient/PatientAuth.jsx:49-120 | a form registration accepts also passes the login form checks with the same email and password |
| PatientAuth.RegisteredPatientCanLogIn | src/pages/patient/PatientAuth.jsx:211-224 | if no earlier record answers to the email, logging in with the registered email and password resolves to the new record |
| PatientAuth.AuthPage.HandleRegister | src/pages/patient/PatientAuth.jsx:201-226 | an invalid form sets its errors; a taken email sets the duplicate error; otherwise the new record is appended and its email becomes the session |
| PatientAuth.OtpCode | src/pages/patient/PatientAuth.jsx:239 | for any draw in [0, 1) the code is six decimal digits denoting a value in [100000, 999999] |
| PatientAuth.AccountExists | src/pages/patient/PatientAuth.jsx:229-232 | true if and only if some record's email or username equals the typed email up to case |
| PatientAuth.AuthPage.SendOtp | src/pages/patient/PatientAuth.jsx:228-243 | with an account, a fresh code is stored and marked sent; without one, the no-account error is set and the code state is unchanged; a code is held while one is marked sent, and any held code is a six-digit code; it also runs after "Back to login" has cleared the sent flag |
| PatientAuth.ValidateForgotPassword | src/pages/patient/PatientAuth.jsx:122-146 | email, new password and confirmation errors if and only if their rules are broken; the code error always appears when no code was sent, and otherwise if and only if the code is empty; each error carries the source's message |
| PatientAuth.ResetPasswords | src/pages/patient/PatientAuth.jsx:255-261 | every record the email selects gets the new password and nothing else; every other record is unchanged |
| PatientAuth.ResetThenLogin | src/pages/patient/PatientAuth.jsx:255-263 | after a reset for an existing account, logging in with that email and the new password is a stored match |
| PatientAuth.AuthPage.BackToLogin | src/pages/patient/PatientAuth.jsx:419-424 | clears the errors and the sent flag and keeps the last code |
| PatientAuth.AuthPage.HandleForgotPasswordSubmit | src/pages/patient/PatientAuth.jsx:245-274 | passwords are rewritten if and only if the form is valid and the typed code equals the sent code; a reset needs the sent flag, so none happens after "Back to login" until a new code is sent; a reset clears the code state; otherwise the errors are set and the store is unchanged |
| PatientDashboard.ToProfileForm | src/pages/patient/PatientDashboard.jsx:46-58 | every field is copied; the email falls back to the username and the family diseases to the legacy field |
| PatientDashboard.ValidateProfile | src/pages/patient/PatientDashboard.jsx:216-234 | a field has an error if and only if its rule is broken, with that rule's message; only the ten checked fields can appear |
| PatientDashboard.ProfileBodyRules | src/pages/patient/PatientDashboard.jsx:218-226 | what the name, email, gender, age and BMI rules accept; an empty age or BMI reads as 0 and is refused |
| PatientDashboard.ProfileDetailRules | src/pages/patient/PatientDashboard.jsx:227-231 | what the address, blood group, religion and occupation rules accept; unlike registration a blank blood group is refused |
| PatientDashboard.ProfileIncomeRule | src/pages/patient/PatientDashboard.jsx:229 | a blank, negative or minus-infinite income is refused; every other income, NaN included, passes |
| PatientDashboard.PushSnapshot | src/pages/patient/PatientDashboard.jsx:254 | the new history starts with the snapshot, continues with a prefix of the old history, and holds min(old + 1, 5) entries |
| PatientDashboard.HistoryKeepsMostRecent | src/pages/patient/PatientDashboard.jsx:240-254 | after any run of updates the history is the latest snapshots (latest first) followed by the older history, cut to 5 |
| PatientDashboard.FiveUpdatesFillHistory | src/pages/patient/PatientDashboard.jsx:240-254 | after five or more updates the history is exactly the five latest snapshots, latest first |
| PatientDashboard.ApplyProfile | src/pages/patient/PatientDashboard.jsx:249-255 | name, email, gender, age, BMI, address, blood group, income, religion and occupation take the form's values, both family-disease fields take the form's value, credentials, documents and appointments are kept, and the pre-update snapshot is pushed |
| PatientDashboard.ProfileRoundTrip | src/pages/patient/PatientDashboard.jsx:249-258 | after an update with a non-empty email, the form rebuilt from the saved record equals the form that was saved |
| PatientDashboard.AcceptedProfileHasEmail | src/pages/patient/PatientDashboard.jsx:221-223 | an accepted profile form has a non-empty email |
| PatientDashboard.LoadPatient | src/pages/patient/PatientDashboard.jsx:60-72 | with no identifier, nothing is loaded; otherwise the first record whose email or username matches it up to case, and none if and only if no record matches |
| PatientDashboard.ReplaceAccount | src/pages/patient/PatientDashboard.jsx:74-82 | same length; every entry of the current account becomes the updated record and every other entry is unchanged |
| PatientDashboard.ReplaceWithSameIsIdentity | src/pages/patient/PatientDashboard.jsx:74-82 | writing back the record already stored for the account leaves the collection unchanged |
| PatientDashboard.NewDocument | src/pages/patient/PatientDashboard.jsx:105-112 | the document keeps the file's name and data, the chosen type, and the description, or `N/A` when it is empty |
| PatientDashboard.FindHospital | src/pages/patient/PatientDashboard.jsx:146 | a catalog hospital with the id, or none if and only if no hospital has it |
| PatientDashboard.FindCatalogDoctor | src/pages/patient/PatientDashboard.jsx:147 | a catalog doctor with the id, or none if and only if no doctor has it |
| PatientDashboard.NewAppointment | src/pages/patient/PatientDashboard.jsx:146-161 | a pending appointment with an empty message and the form's fields; hospital name, department and doctor name come from the catalog, or are empty when the id is unknown |
| PatientDashboard.FilteredHospitals | src/pages/patient/PatientDashboard.jsx:181-185 | exactly the catalog hospitals whose name, location or address contains the query up to case, in catalog order and each once |
| PatientDashboard.HospitalsMatching | src/pages/patient/PatientDashboard.jsx:181-185 | the matching hospitals of any list, as the subsequence at the matching positions |
| PatientDashboard.EmptyQueryListsAll | src/pages/patient/PatientDashboard.jsx:181-185 | the empty query lists the whole catalog in order |
| PatientDashboard.DoctorsByHospital | src/pages/patient/PatientDashboard.jsx:187-191 | no doctors for an unknown hospital id; otherwise exactly the catalog doctors of that hospital, in catalog order and each once |
| PatientDashboard.DoctorsAt | src/pages/patient/PatientDashboard.jsx:190 | exactly the doctors whose hospital is the given name, as the subsequence at those positions (order kept, nothing repeated or lost) |
| PatientDashboard.OfDepartment | src/pages/patient/PatientDashboard.jsx:194-198 | exactly the doctors of the department, as the subsequence at their positions (order kept, nothing repeated or lost); an empty department keeps every doctor |
| PatientDashboard.FilteredDoctors | src/pages/patient/PatientDashboard.jsx:193-199 | exactly the catalog doctors of the selected hospital and department, where an empty choice means any, in catalog order and each once |
| PatientDashboard.ShownInOrder | src/pages/patient/PatientDashboard.jsx:193-199 | the department filter over the selected hospital's doctors (or over all doctors) selects, in order, exactly the doctors shown |
| PatientDashboard.TwoFiltersInOrder | src/pages/patient/PatientDashboard.jsx:193-199 | filtering one hospital's doctors by department selects, in order, the doctors that pass both tests |
| PatientDashboard.NoSelectionListsAll | src/pages/patient/PatientDashboard.jsx:193-199 | with no hospital and no department chosen, every catalog doctor is listed in order |
| PatientDashboard.IsDoctorAvailable | src/pages/patient/PatientDashboard.jsx:201-207 | unavailable, with the fixed message, if and only if no availability entry names the weekday; otherwise the slots of the first such entry |
| PatientDashboard.AvailableTimeSlots | src/pages/patient/PatientDashboard.jsx:209-214 | the slots of the first entry for the weekday, or none |
| PatientDashboard.SlotsAgreeWithAvailability | src/pages/patient/PatientDashboard.jsx:201-214 | the two readers agree: no slots when unavailable, the available slots otherwise |
| PatientDashboard.CatalogSlotsNonEmpty | src/utils/dummyData.js:73-143 | every availability entry of the catalog lists at least one slot |
| PatientDashboard.CatalogSlotsEmptyIffUnavailable | src/pages/patient/PatientDashboard.jsx:201-214 | for catalog doctors the slot list is empty if and only if the doctor is unavailable that day |
| PatientDashboard.DashboardPage.Open | src/pages/patient/PatientDashboard.jsx:60-72 | the record is loaded by `userEmail`, or by the session slot when that is empty, and the form shows it |
| PatientDashboard.DashboardPage.PersistPatient | src/pages/patient/PatientDashboard.jsx:74-84 | the account's entries in the store and the record on screen become the updated record |
| PatientDashboard.DashboardPage.FileUpload | src/pages/patient/PatientDashboard.jsx:92-127 | uploads if and only if a file is chosen, a record is loaded and a type is chosen; the document is appended and written back; otherwise nothing changes |
| PatientDashboard.DashboardPage.BookAppointment | src/pages/patient/PatientDashboard.jsx:138-179 | books if and only if a record is loaded and every form field is filled; the appointment is appended and written back; otherwise nothing changes |
| PatientDashboard.DashboardPage.EditProfile | src/pages/patient/PatientDashboard.jsx:962-1107 | the profile form holds what was typed |
| PatientDashboard.DashboardPage.UpdateProfile | src/pages/patient/PatientDashboard.jsx:236-261 | with a record and a form loaded, the errors are the form's; it saves if and only if there are none, writing the updated record back, and the form keeps showing what was entered |
| PatientDashboard.DashboardPage.CancelEditProfile | src/pages/patient/PatientDashboard.jsx:263-269 | the form goes back to the loaded record and the errors are cleared |
| AdminDashboard.ScaledDrawBelow | src/pages/admin/AdminDashboard.jsx:53 | a draw in [0, 1) times a positive span lies in [0, span) |
| AdminDashboard.RandomInt | src/pages/admin/AdminDashboard.jsx:53 | for a draw in [0, 1), the result lies in [base, base + span) |
| AdminDashboard.DefaultDepartment | src/pages/admin/AdminDashboard.jsx:51-67 | the named department with a total in [100, 599], six months from January to June each in [50, 149], and four weeks each in [10, 59] |
| AdminDashboard.DefaultAdmin | src/pages/admin/AdminDashboard.jsx:46-69 | the username, the demo hospital name and location, an empty logo, and one department per catalog department, each the synthesized department built from that department's eleven draws |
| AdminDashboard.LoadAdmin | src/pages/admin/AdminDashboard.jsx:39-72 | the first stored admin with exactly the username, or the synthesized admin if and only if none has it |
| AdminDashboard.SumTotalsBounds | src/pages/admin/AdminDashboard.jsx:155 | a sum of department totals each in [lo, hi] lies in [n·lo, n·hi] |
| AdminDashboard.SumTotalsNonNegative | src/pages/admin/AdminDashboard.jsx:155 | totals that are never negative sum to a non-negative number |
| AdminDashboard.DefaultAdminTotal | src/pages/admin/AdminDashboard.jsx:46-68 | the synthesized admin's patient total lies in [800, 4792] |
| AdminDashboard.ValidateDoctorForm | src/pages/admin/AdminDashboard.jsx:74-101 | a field has an error if and only if its rule is broken; username and password errors carry the validators' messages, the others the source's fixed messages |
| AdminDashboard.DoctorErrors | src/pages/admin/AdminDashboard.jsx:74-101 | given the outcomes of the username, required-name and password validators, the error object has exactly the keys of the failed rules, each with the message the source sets for it |
| Records.UsernameTaken | src/pages/admin/AdminDashboard.jsx:108 | the `some` scan succeeds if and only if some record's username is exactly the typed one; the doctor form and the developer page (DeveloperRegister.jsx:54) share it |
| AdminDashboard.HospitalOf | src/pages/admin/AdminDashboard.jsx:117 | never empty; the admin's hospital name when there is one, otherwise `Unknown Hospital` |
| AdminDashboard.NewDoctor | src/pages/admin/AdminDashboard.jsx:113-121 | the form's account, name and department, the given hospital, and no appointments or history |
| AdminDashboard.RegisterDoctorKeepsUsernamesUnique | src/pages/admin/AdminDashboard.jsx:108-123 | if doctor usernames are unique and the new one is not taken, they stay unique after the append |
| AdminDashboard.DashboardPage.constructor | src/pages/admin/AdminDashboard.jsx:18-23 | the first render: no admin loaded and no errors |
| AdminDashboard.DashboardPage.Load | src/pages/admin/AdminDashboard.jsx:39-72 | the admin on screen becomes the loaded or synthesized admin |
| AdminDashboard.DashboardPage.RegisterDoctor | src/pages/admin/AdminDashboard.jsx:103-136 | registers if and only if the form is valid and the username is free; the new doctor is appended with the admin's hospital; otherwise the matching errors are set and the store is unchanged |
| AdminDashboard.DashboardPage.SetAvailability | src/pages/admin/AdminDashboard.jsx:138-153 | accepted if and only if all three fields are filled; it writes neither the store nor the page state |
| AdminDashboard.DashboardPage.TotalPatients | src/pages/admin/AdminDashboard.jsx:155 | 0 before the admin is loaded, otherwise the sum of the department totals, which is non-negative when every total is |
| DoctorDashboard.DefaultDoctor | src/pages/doctor/DoctorDashboard.jsx:16-29 | the username, the demo name, department and hospital, no appointments and a 5-entry history |
| DoctorDashboard.LoadDoctor | src/pages/doctor/DoctorDashboard.jsx:10-31 | the first stored doctor with exactly the username, or the default doctor if and only if none has it |
| DoctorDashboard.Tagged | src/pages/doctor/DoctorDashboard.jsx:37-40 | one item per appointment of the patient, in order, each carrying the patient |
| DoctorDashboard.FlatTaggedAppend | src/pages/doctor/DoctorDashboard.jsx:36-41 | the join of two patient lists is the join of the first followed by the join of the second |
| DoctorDashboard.IncomingIsEveryAppointment | src/pages/doctor/DoctorDashboard.jsx:34-41 | dropping patients without appointments does not change the join |
| DoctorDashboard.FlatTaggedLength | src/pages/doctor/DoctorDashboard.jsx:34-41 | the join holds exactly one item per appointment |
| DoctorDashboard.PatientBlock | src/pages/doctor/DoctorDashboard.jsx:34-41 | each patient's appointments form one contiguous block of the join, in patient order |
| DoctorDashboard.TodaysAppointments | src/pages/doctor/DoctorDashboard.jsx:43 | a prefix of the join with min(total appointments, 5) items |
| DoctorDashboard.ThisWeekAndOlder | src/pages/doctor/DoctorDashboard.jsx:47 | this week's count plus the older entries' count is the total; with at most 7 entries they are equal |
| DoctorDashboard.ThisWeekAtMostTotal | src/pages/doctor/DoctorDashboard.jsx:47 | with no negative counts, this week's count never exceeds the total |
| DoctorDashboard.DefaultDoctorTotals | src/pages/doctor/DoctorDashboard.jsx:22-28 | the default doctor's week count and total are both 62 |
| DoctorDashboard.Open | src/pages/doctor/DoctorDashboard.jsx:9-47 | the view shows the loaded doctor, the first five incoming appointments, their count and the two sums; nothing is written |
| DeveloperRegister.ValidateDeveloperForm | src/pages/developer/DeveloperRegister.jsx:20-47 | a field has an error if and only if its rule is broken; username and password errors carry the validators' messages, the others the source's fixed messages; the logo is never a key |
| DeveloperRegister.DeveloperErrors | src/pages/developer/DeveloperRegister.jsx:20-47 | given the outcomes of the required, username and password validators, the error object has exactly the keys of the failed rules, each with the message the source sets for it |
| DeveloperRegister.LogoNotValidated | src/pages/developer/DeveloperRegister.jsx:20-47 | changing the logo never changes the validation result |
| DeveloperRegister.NewAdmin | src/pages/developer/DeveloperRegister.jsx:59-66 | the form's account and hospital fields, and no department statistics |
| DeveloperRegister.RegisterAdminKeepsUsernamesUnique | src/pages/developer/DeveloperRegister.jsx:54-68 | if admin usernames are unique and the new one is not taken, they stay unique after the append |
| DeveloperRegister.RegisterPage.constructor | src/pages/developer/DeveloperRegister.jsx:8 | no errors |
| DeveloperRegister.RegisterPage.HandleRegister | src/pages/developer/DeveloperRegister.jsx:49-84 | registers if and only if the form is valid and the username is free; the new admin is appended and no session slot is written; otherwise the matching errors are set and the store is unchanged |
| AdminLogin.ValidateAdminLoginForm | src/pages/admin/AdminLogin.jsx:13-26 | a username or password error if and only if that field is blank, each with its message |
| AdminLogin.CredentialsMatch | src/pages/admin/AdminLogin.jsx:31-34 | the `find` scan returns an admin if and only if some stored admin has exactly the username and exactly the password |
| AdminLogin.ProvisionedAdminCanLogIn | src/pages/developer/DeveloperRegister.jsx:59-69 | an admin the developer page has just provisioned passes the login form checks and matches with the same username and password |
| AdminLogin.LoginPage.constructor | src/pages/admin/AdminLogin.jsx:7 | no errors |
| AdminLogin.LoginPage.HandleLogin | src/pages/admin/AdminLogin.jsx:28-43 | signs in, setting the admin session to the username, if and only if the form is valid and the credentials match; otherwise the matching errors are set and the session is unchanged |

## Left out

- The JSX layout, styling, alerts, banners, the `backendMessage` and `successMessage` texts, and the form resets after a success: they do not affect the store or the modelled state.
- The router and the page switching in `src/App.jsx`, and the doctor login page: these are not part of this model.
- `FileReader`, `window.open` and the document viewer: browser I/O. The upload is modelled from the moment the file has been read, with its data URL as input.
- `Date.now()`, `toLocaleDateString`, `toLocaleString` and the weekday name: clock and locale. They are parameters.
- `Math.random()`: the draws are parameters in [0, 1).
- `parseInt`, `parseFloat` and `Number` on form text: the parsed value is the input. The model does not capture that stored numeric fields are sometimes strings and sometimes numbers.
- `|| ''` on the age, BMI and income fields in toProfileForm: form values are strings, and the only numeric records (seeded and demo) have non-zero values, so it is the identity there.
- The registered patient record also keeps the `confirmPassword` field that the spread of the form copies in: no handler reads it.
- `toLowerCase` is modelled on ASCII letters only.
- Record fields the source reads with `?.` (email, username) are plain strings. A missing field and an empty one are not told apart.
- PatientDashboard.LoadPatient: the case where both `userEmail` and the session slot are missing and the lookup compares against `undefined` is modelled as loading nothing.
- AdminDashboard.DefaultAdmin and DoctorDashboard.DefaultDoctor: the source objects have no password field; the model stores an empty password.
- The doctor's accept and reject of appointments, and the status badge: this is not part of this model.
- Concurrent tabs, corrupt JSON in the store, serialization, and the Java backend: not part of the browser-side logic.
- Emails are not kept unique across profile updates, because the profile form can change the email without any duplicate check. The model proves uniqueness only for registration.
- PatientDashboard.HistoryKeepsMostRecent: holds for histories of at most 5 entries, which is every history the portal writes.
- AdminDashboard.RandomInt: `Math.floor` is modelled on non-negative values, the only ones the source passes it.
