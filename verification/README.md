# Clinic management system: a Dafny model

The clinic system has two parts:

- a Django REST API (`clinic-cms`) that keeps users with seven roles, patient profiles, appointments, medical records and invoices;
- a React front end (`clinic-frontend`) with one dashboard per role.

This project models the parts of both that decide things:

- **Sign-in and routing in the browser.**
  - The HTTP client's two interceptors: header attachment, and 401 refresh-and-retry.
  - The login, logout and auto-load transitions of the authentication context.
  - The route table and the role guard.
- **Access rules on the server.**
  - The role permissions.
  - The model rules: `User.clean`, the status enumerations, appointment slot uniqueness and ordering.
  - The account serializers.
  - Each view set's per-role query sets and its create and update checks.
  - The invoice model, serializer and views.
- **List and form logic in the dashboards.**
  - Nurse: response normalisation, age, latest-appointment status, search, bedside actions and alert de-duplication.
  - Doctor: pending count, status classification, approve and decline, consultation-form rows and the saved payload.
  - Administrator: form changes, add and edit payloads, user filter, delete and statistics.
  - Billing page: invoice payload, filter and the "Mark Paid" button.
  - Patient details page: appointment filter, append-only notes and doctor de-duplication.

Effects are modelled as values:

- the network is a function from requests to replies;
- `localStorage`, the default `Authorization` header and `window.location` are fields of a `Browser` record;
- React state is an `AuthState` record;
- each handler is a pure transition.

Amounts are whole cents, dates are `(year, month, day)` triples, and strings are `seq<char>`.

One module per source component, all files directly in this directory:

| file | module | source |
|---|---|---|
| common.dfy | `Common` | Option/Result, request fields that may be null, ASCII case mapping, substring, trimming with JavaScript's or Python's whitespace, order-preserving filter, counting, sorting |
| roles.dfy | `Roles` | `Roles` choices |
| records.dfy | `Records` | the rows of `accounts/models.py`, `User.clean`, status enumerations, slot uniqueness, ordering |
| permissions.dfy | `Permissions` | `accounts/permissions.py` |
| serializers.dfy | `Serializers` | `accounts/serializers.py` |
| views.dfy | `AccountViews` | `accounts/views.py` |
| billing.dfy | `Billing` | `billing/models.py`, `billing/serializers.py`, `billing/views.py` |
| http.dfy | `Http` | `src/api/axios.js` |
| session.dfy | `Session` | `src/context/AuthContext.jsx` |
| routing.dfy | `Routing` | `src/App.jsx`, `src/components/ProtectedRoute.jsx` |
| nurse.dfy, doctor.dfy, admin.dfy, billing_page.dfy, patient_details.dfy | `Nurse`, `Doctor`, `Admin`, `BillingPage`, `PatientDetails` | the dashboard pages |

Where the code and its documentation disagree, the model follows the code:

- **Guard for guests.** The guard sends a visitor who is not signed in to `/`, not to `/login`; `/` then sends them on to `/login`.
- **NURSE after login.** NURSE is missing from the post-login switch, so a nurse who logs in is sent to `/login`.
- **NURSE in the guard.** NURSE is also missing from the guard's switch, so a nurse reaches their dashboard only by going through `/`.
- **Failed `me/` after login.** If `me/` fails after the tokens were stored, the tokens stay stored.
- **Generated passwords.** `CreatePatientSerializer.create` always sets `generated_password`, so a patient created with a caller-supplied password gets that password echoed back.
- **Invoice doctor.** `InvoiceSerializer` declares `doctor` as required, so the "no doctor" path of `perform_create` is never reached through the API.
- **Order of invoice checks.** Invoice validation runs before the role check, so an invalid request from a nurse gets 400, not 403.
- **Doctor check on record updates.** A doctor only ever finds records of their assigned patients, so the doctor check in `perform_update` never fires.
- **Wrong credentials.** The token endpoint's 401 runs through the response interceptor with an empty store. The client then forces a reload of `/login` as well as reporting the error.
- **Failure after a refresh.** A request that fails again after a fresh token does not force a logout. The re-issued request is returned without being awaited inside the handler, and it is marked as a retry. A second 401 or any other failure is therefore rejected like any error: the new token stays stored and the page stays where it is.
- **Nurse status labels.** DECLINED becomes "Declined" and CANCELLED becomes "Cancelled", as the label table says.

## Model

| member | source | states |
|---|---|---|
| Roles.Parse | clinic-cms/accounts/models.py:8-15 | A stored value reads back as a role exactly when it is one of the seven names; otherwise no role is given. |
| Roles.NameRoundTrip | clinic-cms/accounts/models.py:8-15 | Parsing a role's stored name returns that role, and distinct roles have distinct names. |
| Roles.AllRolesComplete | clinic-cms/accounts/models.py:8-15 | There are exactly seven roles, each listed once. |
| Roles.NamesAreUpperCase | clinic-cms/accounts/models.py:8-15 | Every stored role name is already upper case, so the client's upper-casing leaves it unchanged. |
| Records.SpecializationKeysAreSlugs | clinic-cms/accounts/models.py:27-43 | There are fifteen specialisation keys, each non-empty and starting with a lower-case letter, so none looks like a display name. |
| Records.CleanUser | clinic-cms/accounts/models.py:55-60 | `clean` passes iff (role is DOCTOR ⇔ specialisation non-empty); it names which rule failed otherwise. |
| Records.FullName | clinic-cms/accounts/serializers.py:47-48 | Only outer whitespace of "first last" is cut, with Python's notion of whitespace: the result is a slice of it with nothing but whitespace before and after, and it has none at its ends. Two non-empty names with no outer whitespace give exactly "first last"; two empty names give "". |
| Records.ProfileOf | clinic-cms/accounts/views.py:229 | Finds the user's patient profile when there is one; reports none only when no profile belongs to the user. |
| Records.PatientById | clinic-cms/billing/views.py:61-64 | Finds the patient with a key when one exists; reports none only when no patient has it. |
| Records.AddAppointment | clinic-cms/accounts/models.py:161-167 | Saving succeeds iff no stored appointment has the same doctor, date and time; on success the row is appended. |
| Records.AddAppointmentKeepsSlotsUnique | clinic-cms/accounts/models.py:161-167 | Saving preserves the invariant that no two appointments share a doctor's slot. |
| Records.ListingOrderIsTotalPreorder | clinic-cms/accounts/models.py:168 | Newest date, then latest time, then latest creation is a total preorder. |
| Records.ListAppointments | clinic-cms/accounts/models.py:168 | The listing holds the same rows as often as stored, sorted by that order. |
| Records.PatientStatusCodes | clinic-cms/accounts/models.py:108-112 | The three patient status values are distinct, and a new profile is ACTIVE. |
| Records.AppointmentStatusCodes | clinic-cms/accounts/models.py:138-155 | The five appointment status values are distinct, and a new appointment is REQUESTED. |
| Records.PrescriptionStatusCodes | clinic-cms/accounts/models.py:249-262 | The three prescription status values are distinct, and a new prescription is PENDING. |
| Permissions.RolePermissionDecision | clinic-cms/accounts/permissions.py:7-100 | Anonymous requests fail every role permission; a user passes their own role's; at most one holds for any request. |
| Permissions.ReadOnlyDecision | clinic-cms/accounts/permissions.py:105-110 | Granted exactly for GET, HEAD and OPTIONS; the match is case-sensitive. |
| Permissions.CanManageUsers | clinic-cms/accounts/views.py:54 | User management is granted exactly to an authenticated ADMIN. |
| Serializers.ValidateAccount | clinic-cms/accounts/serializers.py:50-57 | Of the field rules, only presence, blanks, uniqueness and password length are modelled: accepted iff username and password are given and non-blank, the trimmed username is unused and the trimmed password has at least 8 characters. Trimming is Python's `strip()`, which also removes the separators U+001C..U+001F. The account keeps those trimmed values. |
| Serializers.SeparatorPaddedPasswordTooShort | clinic-cms/accounts/serializers.py:52 | A password of U+001C followed by seven digits is refused: Python's strip leaves seven characters, although JavaScript's `trim()` would keep all eight. |
| Serializers.Signup | clinic-cms/accounts/serializers.py:59-70 | Accepted iff the account fields are; the user is always a non-staff PATIENT without specialisation who passes `clean`. |
| Serializers.SignupIgnoresRequestedRole | clinic-cms/accounts/serializers.py:50-70 | A requested role or staff flag makes no difference to the outcome. |
| Serializers.OfferedAreCapitalised | clinic-cms/accounts/serializers.py:78 | Every specialisation name the serializers check against starts with a capital letter. |
| Serializers.OfferedAreNotKeys | clinic-cms/accounts/serializers.py:148 | None of those names is a stored specialisation key. |
| Serializers.OfferedKeysMatchOfferedLabels | clinic-cms/accounts/models.py:27-43 | The keys chosen for the offered names are, position by position, the model's keys whose label is that name. |
| Serializers.OfferedKeysAreStoredKeys | clinic-cms/accounts/models.py:27-43 | Every offered key is a non-empty stored key. |
| Serializers.SpecializationField | clinic-cms/accounts/models.py:45-50 | The specialisation field accepts exactly omission, "" or a stored key, and passes it through unchanged. |
| Serializers.CreateDoctor | clinic-cms/accounts/serializers.py:75-101 | Accepted iff the account fields are acceptable and no specialisation is sent; the user is then a staff DOCTOR with specialisation "". |
| Serializers.CreateDoctorRefusesEverySpecialization | clinic-cms/accounts/serializers.py:84-87 | Every sent specialisation is refused, so only a doctor with none can be created. |
| Serializers.CreateDoctorFixed | clinic-cms/accounts/serializers.py:75-101 | Accepted iff the account fields are and the specialisation is the key of an offered label; the doctor passes `clean`. |
| Serializers.RoleNames | clinic-cms/accounts/serializers.py:156 | The role list holds exactly the strings that parse as a role. |
| Serializers.AdminCreateUser | clinic-cms/accounts/serializers.py:154-174 | Accepted iff the account fields are acceptable, the role is one of the seven stored names other than DOCTOR, and the specialisation field accepts what was sent. The user is staff iff ADMIN and never has a specialisation. |
| Serializers.AdminCreateUserNeverCreatesDoctor | clinic-cms/accounts/serializers.py:159-161 | No input creates a DOCTOR; a request for role DOCTOR is always refused. |
| Serializers.AdminCreateUserFixed | clinic-cms/accounts/serializers.py:154-174 | Accepted iff the fields, the role and (for a doctor) an offered key are valid; the user passes `clean` and staff iff ADMIN or DOCTOR. |
| Serializers.Decimal | clinic-cms/accounts/serializers.py:227 | A number's decimal text is non-empty and all digits; it has one digit exactly for numbers below 10, and a longer text never starts with zero. |
| Serializers.DecimalRoundTrip | clinic-cms/accounts/serializers.py:227 | Reading the decimal text back gives the number. |
| Serializers.DecimalFourDigits | clinic-cms/accounts/serializers.py:227 | A number from 1000 to 9999 is written with four digits, so default usernames are "user_" plus four digits. |
| Serializers.PatientAccount | clinic-cms/accounts/serializers.py:211-231 | Every account field is optional. Of the field rules, only blanks are modelled: a sent field must not be blank. An omitted username or password takes its default. |
| Serializers.CreatePatient | clinic-cms/accounts/serializers.py:226-239 | Of the field rules, only blanks are modelled: accepted iff no sent account field is blank. The user is a non-staff PATIENT with an ACTIVE, unassigned profile created at the given time. A sent username is kept trimmed; an omitted one is "user_" plus four digits. The generated password is the one sent, trimmed, or the random one. |
| Serializers.ValidateCreatedBy | clinic-cms/accounts/serializers.py:330-333 | A record's author is accepted iff a DOCTOR, NURSE or LAB user, and is kept as is. |
| AccountViews.JoinsAgree | clinic-cms/accounts/views.py:268-271 | The `patient__user` and `patient__assigned_doctor` joins agree with the relations they stand for, given unique profile keys. |
| AccountViews.UserCreate | clinic-cms/accounts/views.py:52-72 | Anonymous → 401, non-admin → 403. An admin's request succeeds iff the serializer as written accepts it, so a DOCTOR request is always refused. New usernames are unused. |
| AccountViews.UserCreateFixed | clinic-cms/accounts/views.py:52-72 | The same view over the corrected serializer. A DOCTOR request succeeds iff the account fields are acceptable and an offered key is sent; every created user passes `clean`. |
| AccountViews.DoctorList | clinic-cms/accounts/views.py:108-114 | A doctor sees only themselves, ADMIN/RECEPTIONIST see every doctor, others see nothing; the query has no order and table order is kept. |
| AccountViews.PatientList | clinic-cms/accounts/views.py:174-182 | A patient sees their own profile and a doctor their assigned patients, both in table order (the queries have no order). ADMIN/RECEPTIONIST see every profile as often as stored, newest first. Others see none. |
| AccountViews.PatientSeesAtMostOneProfile | clinic-cms/accounts/models.py:82-86 | With one profile per user, a patient's listing has at most one profile. |
| AccountViews.PatientCreate | clinic-cms/accounts/views.py:184-199 | Only ADMIN/RECEPTIONIST create; anyone else gets 403. Of the field rules, only blanks are modelled: with no blank field sent, it succeeds iff the sent or generated username is unused; otherwise the save fails with a database error. The response carries the generated password. |
| AccountViews.AppointmentList | clinic-cms/accounts/views.py:214-223 | A patient sees the appointments of their profile and a doctor their own, both in the default order (newest date, latest time, latest creation). ADMIN/RECEPTIONIST see every appointment, newest created first. Others see none. |
| AccountViews.ValidateAppointment | clinic-cms/accounts/serializers.py:244-256 | Accepted iff the patient is omitted or names an existing profile (null is refused), the doctor exists with role DOCTOR, and date and time are given. The status defaults to REQUESTED. |
| AccountViews.AppointmentCreate | clinic-cms/accounts/views.py:225-249 | A patient books for their own profile with the flag set; ADMIN/RECEPTIONIST must name the patient; others get 403. Once allowed, the booking is saved iff the doctor's slot is free; otherwise the database refuses it. |
| AccountViews.MedicalRecordList | clinic-cms/accounts/views.py:264-276 | A patient sees their own records, a doctor those of assigned patients, LAB those it created, RECEPTIONIST none, and the rest all. Every list is newest first, each record as often as stored. |
| AccountViews.DoctorRecordsAreOfListedPatients | clinic-cms/accounts/views.py:264-276 | Every record a doctor can list belongs to a patient that doctor can list. |
| AccountViews.ValidateRecordLinks | clinic-cms/accounts/serializers.py:324-333 | A null author makes the validator raise (500), whatever else was sent. Otherwise accepted iff: the patient is not null, is given when required, and exists; a given appointment exists; a given author is a DOCTOR, NURSE or LAB user. A null appointment is passed on. |
| AccountViews.LinkedAppointment | clinic-cms/accounts/models.py:188-194 | A sent appointment replaces the link, null clears it, and leaving it out keeps the current one. |
| AccountViews.MedicalRecordCreate | clinic-cms/accounts/views.py:278-288 | Only DOCTOR, LAB or ADMIN create; a doctor only for an assigned patient. A null author gives 500. The author is forced to the requester, and an appointment that is null or left out leaves the record unlinked. |
| AccountViews.ApplyRecordUpdate | clinic-cms/accounts/views.py:290-297 | A partial update keeps the record's key and creation time. Patient, appointment, author, symptoms, diagnosis and notes change only when sent; a null appointment clears the link. |
| AccountViews.FindVisibleRecord | clinic-cms/accounts/views.py:264-276 | A record is found iff it is in the requester's listing; what a doctor finds is stored and belongs to an assigned patient. |
| AccountViews.MedicalRecordUpdate | clinic-cms/accounts/views.py:290-297 | Found iff the record is in the requester's listing; a null author then gives 500; only that row is replaced; a doctor is never refused. |
| AccountViews.DoctorCanMoveRecordToUnassignedPatient | clinic-cms/accounts/views.py:290-297 | A doctor can move one of their records onto a patient not assigned to them. |
| AccountViews.MedicalRecordUpdateFixed | clinic-cms/accounts/views.py:290-297 | As the view, but a doctor's saved record always belongs to a patient assigned to them. |
| Billing.InvoiceStatusCodes | clinic-cms/billing/models.py:5-9 | The three status values are distinct and a new invoice is "unpaid". |
| Billing.CleanInvoice | clinic-cms/billing/models.py:59-61 | Passes iff the amount is positive; otherwise the failure is a name error, not a validation error. |
| Billing.CleanInvoiceFixed | clinic-cms/billing/models.py:59-61 | Passes iff the amount is positive; otherwise a validation error. |
| Billing.CleanRaisesWrongException | clinic-cms/billing/models.py:59-61 | The two agree on which invoices pass; for a zero amount they raise different errors. |
| Billing.CleanAmountRange | clinic-cms/billing/models.py:42 | An amount that fits the column and passes `clean` lies strictly between 0 and 10^10 cents. |
| Billing.MarkAsPaid | clinic-cms/billing/models.py:68-70 | The status becomes paid and nothing else changes. |
| Billing.CanBePaidExactlyUnpaid | clinic-cms/billing/models.py:64-65 | `can_be_paid` holds iff the status is "unpaid", and never after `mark_as_paid`. |
| Billing.AppointmentById | clinic-cms/billing/views.py:69-73 | Finds the appointment with a key when one exists; reports none only when none has it. |
| Billing.ValidateInvoice | clinic-cms/billing/serializers.py:6-42 | Accepted iff the patient exists, the doctor exists with role DOCTOR, a sent appointment exists, a sent issuer is ADMIN/RECEPTIONIST, and the amount is given and fits the column. |
| Billing.IssuedByDefault | clinic-cms/billing/serializers.py:44-49 | A supplied issuer is kept; otherwise the requester, when there is a request. |
| Billing.IsAdminOrReceptionist | clinic-cms/billing/views.py:17-19 | Granted exactly to ADMIN and RECEPTIONIST users; an anonymous request has no role and the check crashes. |
| Billing.InvoiceList | clinic-cms/billing/views.py:31-45 | ADMIN/RECEPTIONIST see all, a doctor their own, a patient their profile's (none without one), others none; every list newest first, each invoice as often as stored. |
| Billing.InvoiceCreate | clinic-cms/billing/views.py:47-89 | Only ADMIN/RECEPTIONIST. For valid input from them, it succeeds iff the patient id is not 0 and a non-zero appointment belongs to the patient. The appointment then supplies the doctor; the issuer is the requester. |
| Billing.CreateAcceptsNegativeAmount | clinic-cms/billing/views.py:47-89 | A negative amount is issued, although `clean` would reject it. |
| Billing.FindListedInvoice | clinic-cms/billing/views.py:31-45 | An invoice is found iff it is in the requester's listing; for ADMIN/RECEPTIONIST, iff it is stored. |
| Billing.MarkAsPaidView | clinic-cms/billing/views.py:94-106 | Anonymous requests crash, other non-ADMIN/RECEPTIONIST get 403; an already-paid invoice gets 400; any other becomes paid, and only that row changes. |
| Billing.MarkAsPaidViewIgnoresCanBePaid | clinic-cms/billing/views.py:99-104 | A cancelled invoice, which `can_be_paid` refuses, is marked paid. |
| Billing.UnpaidView | clinic-cms/billing/views.py:155-165 | Non-ADMIN/RECEPTIONIST get 403; otherwise exactly the unpaid invoices, each payable. |
| Http.Get | clinic-frontend/src/context/AuthContext.jsx:25 | Reading a JSON key gives its value; an absent key or null reads as nothing. |
| Http.OutgoingAuth | clinic-frontend/src/api/axios.js:11-19 | A stored access token is sent as "Bearer " + token; without one no header is sent. |
| Http.ForcedLogout | clinic-frontend/src/api/axios.js:33-39 | The forced logout empties the store, drops the default header and navigates to /login. |
| Http.Intercept | clinic-frontend/src/api/axios.js:24-70 | Successes and non-401 errors pass unchanged, and a retried 401 is rejected. A first 401 with no refresh token forces a logout and rejects the original error. A refresh that fails forces a logout and rejects with the refresh error. A refresh with no access token forces a logout and rejects with a missing-token error. A good refresh stores the new token, makes it the default header and re-issues the request. |
| Http.Send | clinic-frontend/src/api/axios.js:29-30 | The loop agrees with the reference call semantics, dispatches at most twice, and refreshes at most once. |
| Http.CallOutcomes | clinic-frontend/src/api/axios.js:24-70 | A call leaves the browser as it was, or forces a logout and rejects, or stores only a new access token and header. |
| Http.RetryFailureKeepsSession | clinic-frontend/src/api/axios.js:28-68 | A re-issued request that fails, a second 401 included, is rejected. The refreshed token stays stored and there is no navigation to `/login`. |
| Http.LogoutOnlyOnRejection | clinic-frontend/src/api/axios.js:59-65 | A navigation to /login only ever comes with a rejection and an empty store. |
| Http.SuccessPassesThrough | clinic-frontend/src/api/axios.js:25 | A successful reply is returned as is and the browser is unchanged. |
| Http.RetryCarriesNewToken | clinic-frontend/src/api/axios.js:53-58 | After a good refresh the re-issued request carries the new token, and the refresh token is kept. |
| Http.FailedRefreshLogsOut | clinic-frontend/src/api/axios.js:42-50 | A first 401 whose refresh fails, or returns no access token, ends the call with the forced logout and the refresh's own error. |
| Http.GoodRefreshReissues | clinic-frontend/src/api/axios.js:52-58 | A first 401 whose refresh returns an access token stores it and makes it the default header. The call then ends with the answer to the re-issued request, which carries that token. |
| Session.Initial | clinic-frontend/src/context/AuthContext.jsx:9-17 | Start-up reads the stored user and a non-empty stored access token. |
| Session.MapUserRole | clinic-frontend/src/context/AuthContext.jsx:23-26 | The role is upper-cased, an absent or empty role becomes null, and every other field is unchanged. |
| Session.MapUserRoleIdempotent | clinic-frontend/src/context/AuthContext.jsx:23-26 | Normalising twice is normalising once. |
| Session.LoginTarget | clinic-frontend/src/context/AuthContext.jsx:54-75 | Login goes to /login exactly for NURSE, null and any role outside the six listed. |
| Session.NurseLoginGoesToLoginPage | clinic-frontend/src/context/AuthContext.jsx:54-75 | A nurse who logs in lands on /login. |
| Session.LoginError | clinic-frontend/src/context/AuthContext.jsx:78-83 | The error message is the server's `detail` when given, else the fixed fallback. |
| Session.StoredText | clinic-frontend/src/context/AuthContext.jsx:42-43 | Storing a JSON value stores its text, "null" for null and "undefined" for an absent key. |
| Session.Login | clinic-frontend/src/context/AuthContext.jsx:31-84 | Success stores and sets the user and navigates by its role; failure leaves no stored user and keeps the earlier user and route. When both replies are Ok, Session.LoginSucceeds states which tokens, profile and header it stores. |
| Session.LoginRoleIsNormalised | clinic-frontend/src/context/AuthContext.jsx:47-51 | The user a login returns has an upper-case, non-empty role or none. |
| Session.TokenCallKeepsUser | clinic-frontend/src/api/axios.js:24-70 | A call never writes the stored user: it keeps it or clears the whole store. |
| Session.LoginIgnoresEarlierSession | clinic-frontend/src/context/AuthContext.jsx:34-35 | Whatever the earlier store and header held, the login outcome is the same. |
| Session.TokenRequestIsAnonymous | clinic-frontend/src/context/AuthContext.jsx:34-37 | Whatever the browser held before, login sends its token request with no Authorization header. A plain failure of that request is the reported error, and the store is left empty. |
| Session.LoginSucceeds | clinic-frontend/src/context/AuthContext.jsx:37-51 | When the token and `me/` replies are both Ok: the login returns the normalised profile; the store holds exactly the returned tokens and that profile; the header is "Bearer " plus the access token; the route follows the role. |
| Session.BadCredentialsReloadLoginPage | clinic-frontend/src/context/AuthContext.jsx:37 | A 401 from the token endpoint forces the logout navigation and fails the login with the server's message. |
| Session.ProfileFailureKeepsTokens | clinic-frontend/src/context/AuthContext.jsx:41-48 | When `me/` fails with anything but 401, the new tokens stay stored, the token is set, and no user is. |
| Session.Logout | clinic-frontend/src/context/AuthContext.jsx:90-95 | User and token become null, the store is emptied and the route is /login; the default header is left. |
| Session.LogoutIdempotent | clinic-frontend/src/context/AuthContext.jsx:90-95 | Logging out twice is logging out once. |
| Session.StaleHeaderNeverSent | clinic-frontend/src/api/axios.js:11-19 | After logout no request carries an Authorization header, despite the default header left behind. |
| Session.AutoLoad | clinic-frontend/src/context/AuthContext.jsx:100-117 | Only with a token and no user does it fetch `me/`; otherwise nothing changes. What each reply does is stated by Session.AutoLoadLoadsProfile and Session.AutoLoadLogsOutOnFailure. |
| Session.AutoLoadSettles | clinic-frontend/src/context/AuthContext.jsx:100-117 | Re-running the effect after it ran changes nothing. |
| Session.AutoLoadLoadsProfile | clinic-frontend/src/context/AuthContext.jsx:100-109 | With a token and no user, an Ok `me/` reply puts its normalised profile in the state and the store, and changes nothing else. |
| Session.AutoLoadLogsOutOnFailure | clinic-frontend/src/context/AuthContext.jsx:110-113 | With a token and no user, a failed `me/` request (not a 401) logs out: empty state and store, route /login, header kept. |
| Routing.ViewerOf | clinic-frontend/src/components/ProtectedRoute.jsx:13-15 | Without a user the viewer is a guest; otherwise the viewer has the user's role. |
| Routing.PageAt | clinic-frontend/src/App.jsx:61-82 | Guarded routes never show the login screen; only paths outside the table hit the catch-all. |
| Routing.DashboardOf | clinic-frontend/src/App.jsx:65-76 | Each known role's dashboard is guarded by exactly that role. |
| Routing.HomeTarget | clinic-frontend/src/App.jsx:30-53 | `/` sends a known role to its dashboard and anyone else, including a guest or null role, to /login. |
| Routing.Guard | clinic-frontend/src/components/ProtectedRoute.jsx:12-42 | Renders iff signed in with exactly the screen's role; otherwise sends a known non-nurse role to its dashboard and anyone else to `/`. |
| Routing.DashboardAdmitsItsRole | clinic-frontend/src/App.jsx:65-76 | Each role's own dashboard renders for it. |
| Routing.EveryPathSettles | clinic-frontend/src/components/ProtectedRoute.jsx:20-38 | From any path, any viewer reaches a rendered screen within two redirects, so there is no redirect loop. |
| Routing.HomeTargetRenders | clinic-frontend/src/App.jsx:33-51 | Where `/` sends a viewer, something renders at once. |
| Routing.StepSecondHop | clinic-frontend/src/components/ProtectedRoute.jsx:22-36 | A guard redirect lands on a rendering page or on `/`. |
| Routing.NurseDetour | clinic-frontend/src/components/ProtectedRoute.jsx:35-36 | A nurse sent away from /billing needs two redirects to reach the nurse dashboard. |
| Routing.GuestSeesLogin | clinic-frontend/src/components/ProtectedRoute.jsx:15-18 | A guest always ends on the login screen. |
| Nurse.Normalize | clinic-frontend/src/pages/NurseDashboard.jsx:9-15 | An array is kept, an object's `results` array is taken, and anything else gives []. |
| Nurse.NormalizeIdempotent | clinic-frontend/src/pages/NurseDashboard.jsx:9-15 | Normalising a normalised list changes nothing. |
| Nurse.CalculateAge | clinic-frontend/src/pages/NurseDashboard.jsx:18-28 | None without a birth date; otherwise the number of birthdays reached: the last is on or before today and the next is after it. |
| Nurse.Latest | clinic-frontend/src/pages/NurseDashboard.jsx:63-67 | The chosen appointment has no later row (a missing time counts as midnight), and every row before it is strictly earlier. |
| Nurse.StatusLabel | clinic-frontend/src/pages/NurseDashboard.jsx:71-84 | Case-insensitive status to badge, with the raw status for others and "Unknown" for none. |
| Nurse.StatusLabelIgnoresCase | clinic-frontend/src/pages/NurseDashboard.jsx:82-84 | Known statuses that differ only in case get the same label. |
| Nurse.AppointmentSummary | clinic-frontend/src/pages/NurseDashboard.jsx:46-90 | "No Appointment" iff no appointment matches the patient by any of the three references. A doctor is shown iff one matches: the latest one's label and doctor. |
| Nurse.DisplayName | clinic-frontend/src/pages/NurseDashboard.jsx:95 | `full_name`, else `name`, else first and last joined and trimmed. |
| Nurse.FilterPatients | clinic-frontend/src/pages/NurseDashboard.jsx:94-99 | Exactly the patients whose name or username contains the search, ignoring case, in order; all for an empty search. |
| Nurse.StatusAfter | clinic-frontend/src/pages/NurseDashboard.jsx:1252-1254 | Admit, Discharge and Attend set their own status; any other action keeps the patient's. |
| Nurse.Keep | clinic-frontend/src/pages/NurseDashboard.jsx:1260-1263 | An entered vital replaces the old one only when non-empty. |
| Nurse.SaveAction | clinic-frontend/src/pages/NurseDashboard.jsx:1208-1271 | View or a failed save changes nothing; otherwise only the acted patient's row and completed actions change. |
| Nurse.SaveActionTickIdempotent | clinic-frontend/src/pages/NurseDashboard.jsx:1268-1271 | Recording the same action twice is recording it once. |
| Nurse.AnnounceOnLoad | clinic-frontend/src/pages/NurseDashboard.jsx:1106-1112 | Announces each unread, not-yet-shown alert id once, and afterwards every unread id is remembered. |
| Nurse.AnnounceOnPoll | clinic-frontend/src/pages/NurseDashboard.jsx:1139-1143 | Announces only unread alerts whose ids were not shown, and remembers them all. |
| Nurse.AnnouncedOnce | clinic-frontend/src/pages/NurseDashboard.jsx:1106-1143 | An alert announced once is never announced again, on a reload or a poll. |
| Doctor.PendingCount | clinic-frontend/src/pages/DoctorDashboard.jsx:96-97 | At most the number of rows, and zero iff no row's status is REQUESTED or PENDING in any case. |
| Doctor.ControlFor | clinic-frontend/src/pages/DoctorDashboard.jsx:365-412 | Approve/decline iff pending; start consultation iff ACCEPTED/APPROVED; completed iff COMPLETED/DONE; else the raw status. |
| Doctor.PendingCountsApprovableRows | clinic-frontend/src/pages/DoctorDashboard.jsx:96-97 | The pending figure counts exactly the rows that offer approve and decline. |
| Doctor.SetStatus | clinic-frontend/src/pages/DoctorDashboard.jsx:189-195 | Only rows with the id change, and only in their status. |
| Doctor.Approve | clinic-frontend/src/pages/DoctorDashboard.jsx:181-208 | After a successful approval the target's rows are ACCEPTED; nothing else changes, and nothing at all on failure. |
| Doctor.Decline | clinic-frontend/src/pages/DoctorDashboard.jsx:211-240 | As approve with DECLINED, and only after confirmation. |
| Doctor.DecisionClearsPending | clinic-frontend/src/pages/DoctorDashboard.jsx:221-227 | A decision lowers the count of pending rows in the list by exactly the pending rows with that id. |
| Doctor.DecidedIsNotPending | clinic-frontend/src/pages/DoctorDashboard.jsx:96 | ACCEPTED and DECLINED are never counted as pending. |
| Doctor.AddPrescriptionRow | clinic-frontend/src/pages/DoctorDashboard.jsx:323-328 | Appends one empty prescription and changes nothing else. |
| Doctor.RemovePrescriptionRow | clinic-frontend/src/pages/DoctorDashboard.jsx:330-337 | Removes the row at the index unless it is the only one; nothing else changes. |
| Doctor.RemoveAt | clinic-frontend/src/pages/DoctorDashboard.jsx:334 | Keeps every element but the one at the index, in order. |
| Doctor.UpdatePrescriptionField | clinic-frontend/src/pages/DoctorDashboard.jsx:315-321 | Only the given field of the given row changes. |
| Doctor.AddLabRow | clinic-frontend/src/pages/DoctorDashboard.jsx:340-345 | Appends one empty lab request and changes nothing else. |
| Doctor.RemoveLabRow | clinic-frontend/src/pages/DoctorDashboard.jsx:347-354 | Removes the lab row at the index unless it is the only one. |
| Doctor.UpdateLabField | clinic-frontend/src/pages/DoctorDashboard.jsx:356-362 | Only the given lab row changes. |
| Doctor.EditsKeepRows | clinic-frontend/src/pages/DoctorDashboard.jsx:315-362 | Every edit keeps at least one prescription row and one lab row. |
| Doctor.IdOr | clinic-frontend/src/pages/DoctorDashboard.jsx:246 | `a \|\| b` on ids: the first unless it is missing or 0. |
| Doctor.StartConsultationFor | clinic-frontend/src/pages/DoctorDashboard.jsx:243-266 | The form is reset to one empty row of each kind, and the patient is `patient_id`, else the nested id. |
| Doctor.SavePayload | clinic-frontend/src/pages/DoctorDashboard.jsx:269-292 | Nothing is sent without a patient and appointment; the notes keep, in order, exactly the rows with a drug and the non-blank lab requests. |
| Doctor.UntouchedFormSendsNoRows | clinic-frontend/src/pages/DoctorDashboard.jsx:255-263 | Saving a freshly opened form sends no prescription and no lab request. |
| Admin.InputChange | clinic-frontend/src/pages/AdminDashboard.jsx:93-100 | The field takes the value; choosing a role other than DOCTOR clears the specialisation; nothing else changes. |
| Admin.ChosenRoleKeepsSpecializationConsistent | clinic-frontend/src/pages/AdminDashboard.jsx:97 | After choosing a role, a non-doctor form holds no specialisation. |
| Admin.AddUserPayload | clinic-frontend/src/pages/AdminDashboard.jsx:103-121 | Refused iff a doctor has no specialisation; the payload carries a specialisation iff the role is DOCTOR. |
| Admin.DashboardDoctorRefused | clinic-frontend/src/pages/AdminDashboard.jsx:22-28 | The form offers the serializer's names, so every doctor it sends is refused by the server, as written and as corrected. |
| Admin.FilteredUsers | clinic-frontend/src/pages/AdminDashboard.jsx:229-238 | Exactly the users matching the search and role filter ("" for any), in order. |
| Admin.DeleteUser | clinic-frontend/src/pages/AdminDashboard.jsx:157-172 | Once confirmed and accepted, exactly the users with the id go and the rest stay in order. |
| Admin.UserStats | clinic-frontend/src/pages/AdminDashboard.jsx:241-244 | Doctor, nurse and active counts are each at most the total, and doctors plus nurses too. |
| Admin.DisjointCounts | clinic-frontend/src/pages/AdminDashboard.jsx:242-243 | No row is counted as both a doctor and a nurse. |
| Admin.StartEdit | clinic-frontend/src/pages/AdminDashboard.jsx:175-179 | The editor opens with the user's specialisation only for a doctor. |
| Admin.EditStep | clinic-frontend/src/pages/AdminDashboard.jsx:528-557 | Picking a role sets it and clears the specialisation unless it is DOCTOR. A specialisation can be picked only while the role is DOCTOR. The user being edited never changes. |
| Admin.EditKeepsSpecializationConsistent | clinic-frontend/src/pages/AdminDashboard.jsx:528-557 | From a consistent edit row, any sequence of picks keeps a non-doctor row free of a specialisation. |
| Admin.OpenedEditorStaysConsistent | clinic-frontend/src/pages/AdminDashboard.jsx:175-179 | An editor opened on any user stays consistent through any sequence of picks. |
| Admin.EditUserPayload | clinic-frontend/src/pages/AdminDashboard.jsx:187-196 | Refused iff a doctor has no specialisation; the payload is the role plus a specialisation iff DOCTOR. |
| Admin.ApplyEdit | clinic-frontend/src/pages/AdminDashboard.jsx:206-214 | Only the edited rows' role and specialisation change. |
| BillingPage.Payload | clinic-frontend/src/pages/Billing.jsx:128-130 | The doctor and appointment keys are dropped iff empty; the other fields are unchanged. |
| BillingPage.AfterCreate | clinic-frontend/src/pages/Billing.jsx:135-141 | A successful create empties the form; a failed one keeps it. |
| BillingPage.FilteredInvoices | clinic-frontend/src/pages/Billing.jsx:150-157 | Exactly the invoices matching the name search and status filter, in order; all with no search and "all". |
| BillingPage.MarkPaidOfferedIffCanBePaid | clinic-frontend/src/pages/Billing.jsx:386 | For the statuses the server sends, "Mark Paid" appears iff `can_be_paid` holds. |
| BillingPage.UnpaidFilterShowsPayable | clinic-frontend/src/pages/Billing.jsx:154-155 | The "unpaid" filter shows exactly the rows that offer "Mark Paid". |
| PatientDetails.PatientAppointments | clinic-frontend/src/pages/PatientDetails.jsx:35-38 | Exactly the appointments whose nested patient id is the route id, in order; none when the id does not parse. |
| PatientDetails.AppendNote | clinic-frontend/src/pages/PatientDetails.jsx:52-56 | The old notes are a prefix, followed by a newline and the dated entry; with no notes, just the entry. |
| PatientDetails.SaveNotes | clinic-frontend/src/pages/PatientDetails.jsx:47-68 | A blank draft or a refused save changes nothing; an accepted one appends and clears the draft. |
| PatientDetails.NotesAreAppendOnly | clinic-frontend/src/pages/PatientDetails.jsx:54-60 | The earlier notes always stay a prefix. |
| PatientDetails.DoctorsOfNamed | clinic-frontend/src/pages/PatientDetails.jsx:84-88 | The reference set holds exactly the doctors that appointments with a doctor name name. |
| PatientDetails.Collect | clinic-frontend/src/pages/PatientDetails.jsx:82-89 | The insertion-ordered map has distinct keys, each its doctor's key, and covers exactly the named doctors. |
| PatientDetails.DoctorsAssigned | clinic-frontend/src/pages/PatientDetails.jsx:81-90 | No two listed doctors share a key; each is named by some appointment; every named doctor's key is listed. |
| PatientDetails.EveryNamedDoctorListed | clinic-frontend/src/pages/PatientDetails.jsx:81-90 | Every appointment with a doctor name is represented, by key, in the list. |

## Left out

- Rendering, styling, toasts, modals, icons and the menu components: they decide nothing.
- Pages with only trivial state: the login, sign-up, settings, receptionist, pharmacist, lab and patient dashboards.
- Case mapping and whitespace are ASCII only; JavaScript and Python also map other Unicode letters and spaces. Within ASCII the two whitespace sets are modelled apart: the server's `strip()` also removes U+001C..U+001F, the browser's `trim()` does not.
- Serializers.ValidateAccount: does not check the username's characters, the 150-character limits or the e-mail format. It accepts a username "a b" or an e-mail "x", which the source refuses with 400; those checks belong to the framework's user model and fields.
- AccountViews.DoctorList, AccountViews.PatientList and Billing.UnpaidView: where the query has no order, the model lists in table order.
- Rows with the same creation time are listed in an order the model fixes; the database promises none. List pagination is not modelled.
- A creation time is a clock reading passed in as `now`.
- `null` cannot be written for the text, date, time, status and amount fields; the source refuses it with 400. For invoices, a null appointment or issuer ends the same way as an omitted one, and both are `None`.
- Password hashing is left out; the model keeps the validated password as text.
- Serializers.PatientAccount, Serializers.CreatePatient and AccountViews.PatientCreate: do not check the e-mail format that `EmailField` enforces (clinic-cms/accounts/serializers.py:213). A sent e-mail "x" is accepted here, where the source answers 400; as for the account serializer, only blank fields are modelled.
- Serializers.ValidateAccount: reports only the first failing field, where the framework collects every field's error.
- Framework behaviour: Django ORM, DRF internals, settings, URL configuration and the Django admin.
- The `update`/`partial_update` paths of `AdminCreateUserSerializer`: the model covers creation only.
- `ChangePasswordSerializer`, the lab-technician and pharmacist serializers and the settings serializer: plain field lists with no decisions.
- Records.AddAppointment: a slot clash is an integrity error; whether the framework answers 400 or 500 depends on its version and is not modelled.
- The PDF invoice download: it only renders.
- Dates are `(year, month, day)` triples: JavaScript `Date` parsing, time zones and locale formatting are not modelled.
- The note date string is a parameter, not computed from the locale.
- `parseFloat`/`parseInt` of vitals: vitals stay text.
- `parseInt` of the route id is a parameter: an id that does not parse is `None`.
- Invoice amounts are whole cents: sub-cent input is not modelled.
- JSON serialisation of the consultation notes is kept as a structured value.
- Concurrency: the 30-second alert poll, `Promise.all`/`allSettled` fan-out, parallel 401s racing to refresh, and updates to unmounted components.
- Each network reply is a pure function of the request: retries see a deterministic server, and timing is not modelled.
- Routing: react-router's case-insensitive matching and trailing slashes.
- Doctor.UpdatePrescriptionField: requires an index of an existing row. The page only calls it for rendered rows; JavaScript would extend the array past its end.
- Doctor.UpdateLabField: requires an index of an existing row, for the same reason.
- PatientDetails.DoctorsAssigned: does not state which of two doctors with the same key is kept. `Map` keeps the first position with the last value, and the model does the same.
- Keys can collide: `name|specialty` gives the same key for ("a|b", "") and ("a", "b|"). The model keeps the collision; the contract is stated per key.

## Findings

| source | as written | input that shows it | evidently intended | confidence | as-written member | corrected member |
|---|---|---|---|---|---|---|
| clinic-cms/accounts/serializers.py:84-87 | The specialisation field derived from the model (models.py:45-50) accepts only the lower-case keys. `validate_specialization` then accepts only the display names. | `CreateDoctorSerializer` with `specialization="Cardiologist"` is refused by the field; with `"cardiologist"` it is refused by the validator. | Accept the key of an offered specialisation. | high, not executed | Serializers.CreateDoctor | Serializers.CreateDoctorFixed |
| clinic-cms/accounts/serializers.py:159-161 | `create` requires a doctor's specialisation to be a display name, which the field already refused. | `AdminCreateUserSerializer` with `role="DOCTOR"` and any non-empty specialisation is refused; with an omitted one, `create` refuses "". | Accept the key of an offered specialisation for a doctor. | high, not executed | Serializers.AdminCreateUser | Serializers.AdminCreateUserFixed |
| clinic-cms/accounts/views.py:290-297 | The doctor check looks only at the record's current patient. | A doctor PATCHes one of their records with `patient` = a patient assigned to someone else; it is saved. | The patient a record ends up with must also be assigned to the doctor. | medium, not executed | AccountViews.MedicalRecordUpdate | AccountViews.MedicalRecordUpdateFixed |
| clinic-cms/billing/models.py:59-61 | `clean` raises `ValidationError`, which the module never imports. | `full_clean()` on an invoice with amount 0 raises a name error. | Raise a validation error for an amount ≤ 0. | high, not executed | Billing.CleanInvoice | Billing.CleanInvoiceFixed |

The lemmas that exhibit each row:

- Serializers.CreateDoctorRefusesEverySpecialization and Serializers.AdminCreateUserNeverCreatesDoctor.
- AccountViews.DoctorCanMoveRecordToUnassignedPatient.
- Billing.CleanRaisesWrongException.

The user-creation view is modelled twice: AccountViews.UserCreate over the serializer as written and AccountViews.UserCreateFixed over the corrected one. Admin.DashboardDoctorRefused records a related fact:

- The dashboard sends display names, so even the corrected serializer refuses its doctors.
- That part of the front end is modelled as written.
