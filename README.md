# EZHealth backend core in Dafny

This project models the request handlers of the EZHealth hospital backend, an
Express/Mongoose API. Patients register, book and cancel appointments and pay
for them through a payment gateway. Doctors register, wait for an admin to
verify them, manage their appointments and upload prescriptions. Admins verify
doctors. New admins are registered through a route that carries no
authentication middleware (routes/adminRoutes.js:12 and
routes/userRoutes.js:22), so any caller can register one; the model's
`AddNewAdminStep` takes no caller at all.

Each Mongo collection is a `Store.Collection<R>`, a class whose `docs` field
is a sequence of `Doc(id, body)` in natural (insertion) order. `Valid()` means
that ids are unique. Handlers that write to a collection are methods with
`modifies` clauses. Each such method is proved equal to a pure `…Step`
function, and that function states what the handler does:

- the status codes, in the order the handler checks them;
- which record changes and which fields;
- that a refused request leaves the collection as it was;
- which invariants the handler keeps.

Read-only handlers (the listings, the logins and the profile) are functions.
Their results are tied to the collections they read: filtered, sorted and
projected.

Several things the handlers depend on are parameters of the model:

- the caller's id, which the authentication middleware supplies;
- the clock (`Date.now()`);
- the payment gateway's reply to an order request;
- the file host's reply to an upload;
- HMAC-SHA256 (RFC 2104 over FIPS 180-4), as a function of key and message;
- bcrypt's password comparison, as a predicate;
- the JWT signer, as a function from document id to token.

`Lifecycle` puts the appointment and payment handlers together. It proves
that, from any collection that satisfies the invariant, every sequence of
requests keeps ids unique. It also proves that an appointment can be Paid
only with a signature that checks.

Where the code's evident intent and its behaviour differ, the model follows
the behaviour:

- Booking performs no slot-uniqueness check. `BookingIgnoresTakenSlot`
  states this.
- A status update has no transition guard. `UpdateHasNoTransitionGuard`
  states this.
- The schema's status enum omits Cancelled, yet cancellation writes it.
  `CancelWritesStatusOutsideSchema` states this.
- No handler sets a meeting link or writes a Failed payment status.
- There is no slot catalogue and no slot-availability query.
- The admin listing's department fallback never takes effect (see
  "## Findings"). `AdminRowOf` and `GetAllAppointments` send what the code
  sends; `AdminRowIntended` is the corrected row.

## Model

| member | source | states |
|---|---|---|
| Common.NatToString | controllers/paymentController.js:24 | the decimal rendering of a timestamp is non-empty, all digits, and starts with 0 only for 0 |
| Common.ParseNatToString | controllers/paymentController.js:24 | reading the rendering back gives the same number |
| Common.NatToStringInjective | controllers/paymentController.js:24 | different timestamps render differently |
| Store.FindFirst | controllers/paymentController.js:58-60 | findOne: the first matching document, and None exactly when none matches |
| Store.IndexOf | controllers/appointmentController.js:36 | findById: the position of the document with that id, None exactly when absent, unique under unique ids |
| Store.FindFirstAfterSave | controllers/paymentController.js:81-84 | rewriting the body of the first match, if the new body still matches, leaves it the first match |
| Store.IndexOfAfterSave | controllers/docController.js:133-137 | saving a document keeps findById finding it at the same place |
| Store.FreshId | controllers/appointmentController.js:9 | create assigns an id no stored document has |
| Store.Filter | controllers/appointmentController.js:85 | find(filter): exactly the matching documents, with their multiplicities, and never more than were stored |
| Store.Insert | controllers/appointmentController.js:87 | inserting into a descending-sorted list keeps it sorted and adds exactly that document |
| Store.SortByDesc | controllers/appointmentController.js:87 | sort({ field: -1 }): a permutation of the input, latest first, documents without the field last |
| Store.MapRows | controllers/appointmentController.js:60-69 | the .map over a query result: one row per document, in order |
| Store.ProjectAll | controllers/appointmentController.js:60-64 | a projection that dereferences a populated reference: all rows, or None exactly when some reference is null |
| Store.Query | controllers/userControllers.js:149-173 | find, sort and project: exactly the matching documents, sorted, one row each, and None exactly when a matching document has no row |
| Store.QueryPermutesMatches | controllers/userControllers.js:149-150 | the query's documents are a permutation of the matching documents, each as often as it is stored |
| Store.QueryCovers | controllers/userControllers.js:149-162 | every matching document's row is among the rows of a query that succeeded |
| Store.QueryRowComesFromMatch | controllers/userControllers.js:149-162 | each row of a query that succeeded is the row of a matching document, in the document's position |
| Store.Collection.Create | controllers/appointmentController.js:9-15 | Model.create appends one document under a fresh id and keeps ids unique |
| Store.Collection.Save | controllers/appointmentController.js:42-43 | save() replaces the body of one document and keeps its id |
| AppointmentModel.ParseStatus | models/appointmentModel.js:12 | a status name parses exactly when it names one of the five statuses |
| AppointmentModel.StatusNameRoundTrip | models/appointmentModel.js:12 | parsing a status's name gives the status back |
| AppointmentModel.SchemaEnumOmitsCancelled | models/appointmentModel.js:12 | the schema enum holds every status except Cancelled |
| AppointmentModel.NewAppointment | models/appointmentModel.js:3-19 | a created appointment takes the request's fields, status Pending, hasVisited false, meetingLink "", and has no payment fields |
| UserModel.WithoutPassword | controllers/userControllers.js:145 | select("-password") keeps first and last name, email, phone, gender, age and role, and drops the password |
| DoctorModel.WithoutPassword | controllers/docController.js:148 | select("-password") keeps names, email, phone, gender, specialization, department, experience, profile image, verification and role, and drops the password |
| JwtToken.CookieName | utils/jwtToken.js:3-15 | Admin, Patient and Doctor map to adminToken, patientToken and doctorToken; any other role leaves the name undefined |
| JwtToken.GenerateToken | utils/jwtToken.js:1-31 | status code as given; cookie named for the role and holding the signed token; expiry = now + COOKIE_EXPIRE days in ms; httpOnly, secure, sameSite None; the body holds success, message, user and token |
| JwtToken.ClearedCookie | controllers/userControllers.js:109-116 | a logout cookie has the given name, an empty value, expiry now and the same flags |
| AppointmentController.BookStep | controllers/appointmentController.js:4-21 | booking always answers 201 and appends one record owned by the caller, with the request's fields and the schema defaults (status Pending, not visited, empty meeting link, created now, no payment fields); the existing records and the uniqueness of ids are kept |
| AppointmentController.BookAppointment | controllers/appointmentController.js:4-21 | the handler's code and new collection are those of BookStep |
| AppointmentController.BookingIgnoresTakenSlot | controllers/appointmentController.js:9-15 | booking a slot a live appointment holds still succeeds and leaves two live appointments in that slot |
| AppointmentController.CancelStep | controllers/appointmentController.js:32-48 | 404 exactly when the id is unknown; 403 exactly when it is another patient's; 400 exactly when the status is not Pending or Accepted; no change on failure; on 200 only that record's status becomes Cancelled |
| AppointmentController.CancelAppointment | controllers/appointmentController.js:32-48 | the handler's code and new collection are those of CancelStep |
| AppointmentController.CancelWritesStatusOutsideSchema | controllers/appointmentController.js:41-43 | a successful cancellation stores a status outside the schema enum |
| AppointmentController.UpdateStatusStep | controllers/appointmentController.js:103-133 | a name off the allow-list answers 400 before any lookup; then 404 unknown id, 403 another doctor's; otherwise only that record's status becomes the requested one; no change on failure |
| AppointmentController.UpdateAppointmentStatus | controllers/appointmentController.js:103-133 | the handler's code and new collection are those of UpdateStatusStep |
| AppointmentController.AllowListIsSchemaEnum | controllers/appointmentController.js:108 | the allow-list is exactly the schema enum |
| AppointmentController.UpdateHasNoTransitionGuard | controllers/appointmentController.js:120-127 | the owning doctor can set any schema status from any status, Cancelled and Completed included |
| AppointmentController.DoctorCannotCancel | controllers/appointmentController.js:108-111 | a status update to "Cancelled" is refused with 400 and changes nothing |
| AppointmentController.PopulatePatient | controllers/appointmentController.js:86 | the populated patient is null exactly when no user has that id; otherwise it carries that user's first and last name, email and phone |
| AppointmentController.GetDoctorAppointments | controllers/appointmentController.js:81-93 | a permutation of the caller's appointments, with their multiplicities, each with its patient populated, latest date first; total is their number |
| AppointmentController.DepartmentAsWritten | controllers/appointmentController.js:54-64 | the department in an admin row is the appointment's own when non-empty, and undefined otherwise |
| AppointmentController.DepartmentIntended | controllers/appointmentController.js:64 | the department is the appointment's own when non-empty, otherwise the doctor's |
| AppointmentController.FallbackDepartmentIsNeverLoaded | controllers/appointmentController.js:54-64 | for an appointment without a department, the row as written has none where the intended row has the doctor's |
| AppointmentController.AdminRowOf | controllers/appointmentController.js:60-69 | a row exists exactly when patient and doctor both resolve; it carries the appointment's id, date, time, status and creation time, and the department the code sends, which is absent when the appointment has none |
| AppointmentController.AdminRowIntended | controllers/appointmentController.js:64 | the corrected row exists exactly when the shipped one does and always carries a department: the appointment's own, else the doctor's |
| AppointmentController.AdminRowsDifferOnlyInDepartment | controllers/appointmentController.js:60-69 | the shipped and corrected rows agree on every field but the department, and differ there exactly when the appointment has no department |
| AppointmentController.AdminRowNames | controllers/appointmentController.js:62-63 | the row names the patient and the doctor by first and last name |
| AppointmentController.AllAppointmentsQuery | controllers/appointmentController.js:52-55 | the unfiltered query returns a permutation of the stored documents, and as many rows |
| AppointmentController.GetAllAppointments | controllers/appointmentController.js:50-78 | a server error exactly when some appointment's patient or doctor is missing; otherwise one row per appointment, latest date first, with total their number |
| AppointmentController.AllAppointmentsListed | controllers/appointmentController.js:52-69 | every appointment's row appears in the listing and every listed row is some appointment's |
| PaymentController.Last8 | controllers/paymentController.js:24 | slice(-8): the last eight characters, or the whole of a shorter id |
| PaymentController.Receipt | controllers/paymentController.js:24 | the receipt is "apt_", the id's last eight characters, "_", the timestamp in decimal |
| PaymentController.ReceiptsAreTimeSalted | controllers/paymentController.js:24 | receipts for one appointment at different times differ |
| PaymentController.OrderOptionsFor | controllers/paymentController.js:21-26 | the order is for amount × 100 in INR, with the receipt, and notes the appointment id |
| PaymentController.WithOrder | controllers/paymentController.js:30-38 | the update writes the order id, the amount as given and payment status Pending, and nothing else |
| PaymentController.CreateOrderStep | controllers/paymentController.js:5-51 | a missing or "undefined" id answers 400 with no gateway call and no change; a gateway failure answers 500 with no change; otherwise 200, and the appointment with that id, if any, gets the order |
| PaymentController.CreateOrder | controllers/paymentController.js:5-51 | the handler's reply and new collection are those of CreateOrderStep |
| PaymentController.CreateOrderResetsPaid | controllers/paymentController.js:30-38 | a new order on a Paid appointment sets it back to Pending |
| PaymentController.CreateOrderKeepsPaidVerified | controllers/paymentController.js:28-38 | order creation keeps every Paid appointment's signature valid |
| PaymentController.FindByOrderId | controllers/paymentController.js:58-60 | the first appointment holding that order id, None exactly when none does |
| PaymentController.WithPayment | controllers/paymentController.js:81-83 | the update writes Paid, the payment id and the signature, and nothing else |
| PaymentController.VerifyStep | controllers/paymentController.js:53-90 | 404 with no change when no appointment holds the order; 400 with no change when the signature is not the HMAC of "orderId\|paymentId"; 200 exactly when it is, and then that appointment becomes Paid |
| PaymentController.VerifyPayment | controllers/paymentController.js:53-90 | the handler's code and new collection are those of VerifyStep |
| PaymentController.VerifyIsIdempotent | controllers/paymentController.js:80-84 | repeating a verification answers and stores the same as doing it once |
| PaymentController.VerifyKeepsPaidVerified | controllers/paymentController.js:69-84 | verification keeps every Paid appointment's signature valid |
| DocController.FindByEmail | controllers/docController.js:63 | the first doctor with that email, None exactly when none has it |
| DocController.NewDoctor | controllers/docController.js:73-85 | a new doctor takes the form's fields and the image URL, has role "Doctor" and is unverified |
| DocController.RegisterDoctorStep | controllers/docController.js:48-104 | a taken email answers 400 with no upload and no change; a failed upload answers 500 with no change; otherwise 201 and one unverified doctor is appended; unique ids, unique emails and the Doctor role are kept |
| DocController.RegisterDoctor | controllers/docController.js:48-104 | the handler's reply and new collection are those of RegisterDoctorStep |
| DocController.LoginDoctor | controllers/docController.js:106-128 | 404 exactly when the email is unknown, then 403 exactly when unverified, then 401 exactly when the password does not match; otherwise a 200 token for that doctor |
| DocController.RegisteredDoctorMustWait | controllers/docController.js:106-124 | right after registering, a doctor's login is refused with 403 whatever the password |
| DocController.LoginSetsDoctorCookie | controllers/docController.js:124 | when every doctor has role "Doctor", a successful login sets the doctorToken cookie |
| DocController.VerifyDoctorStep | controllers/docController.js:131-143 | 404 with no change for an unknown id; otherwise only that doctor's isVerified becomes true; the invariants are kept |
| DocController.VerifyDoctor | controllers/docController.js:131-143 | the handler's reply and new collection are those of VerifyDoctorStep |
| DocController.VerifyDoctorIsIdempotent | controllers/docController.js:133-137 | verifying twice answers and stores the same as once |
| DocController.VerifiedDoctorPassesVerification | controllers/docController.js:110-124 | under unique emails, a verified doctor's login is never refused as unverified |
| DocController.GetAllDoctors | controllers/docController.js:146-163 | the verified doctors in natural order, without passwords, and totalDoctors their number |
| DocController.LogoutDoctor | controllers/docController.js:165-178 | 200, clearing the cookie a doctor's login sets |
| DocController.UploadPrescriptionStep | controllers/docController.js:180-207 | no file answers 400 before any upload; a failed upload answers 500; otherwise 201 and one prescription issued by the caller is appended, with the request's fields and the file's URL; no change on failure |
| DocController.UploadPrescription | controllers/docController.js:180-207 | the handler's reply and new collection are those of UploadPrescriptionStep |
| UserControllers.FindByEmail | controllers/userControllers.js:11 | the first user, patient or admin, with that email; None exactly when none has it |
| UserControllers.NewUser | controllers/userControllers.js:17-26 | a new user takes the form's seven fields and the given role |
| UserControllers.RegisterPatientStep | controllers/userControllers.js:6-36 | a taken email answers 400 with no change; otherwise one patient is appended and a 200 "User Registered!" token is issued with the patientToken cookie; unique ids and emails are kept |
| UserControllers.RegisterPatient | controllers/userControllers.js:6-36 | the handler's reply and new collection are those of RegisterPatientStep |
| UserControllers.Login | controllers/userControllers.js:38-60 | 404 exactly when the email is unknown, then 401 exactly when the password does not match, then 403 exactly when the role differs; otherwise a 200 token with the cookie for that role |
| UserControllers.RegisteredPatientCanLogIn | controllers/userControllers.js:17-59 | a just-registered patient logs in as Patient with their password and gets patientToken |
| UserControllers.RegisteredPatientIsNotAdmin | controllers/userControllers.js:54-56 | the same patient asking for the Admin role is refused with 403 |
| UserControllers.AddNewAdminStep | controllers/userControllers.js:64-105 | any of the seven fields empty answers 400 before the lookup; an email already held by any user answers 400; otherwise 200 and one admin is appended; no change on failure |
| UserControllers.AddNewAdmin | controllers/userControllers.js:64-105 | the handler's reply and new collection are those of AddNewAdminStep |
| UserControllers.AdminRegistrationSeesPatients | controllers/userControllers.js:82-88 | an admin cannot be registered under the email of a patient who has just registered |
| UserControllers.LogoutAdmin | controllers/userControllers.js:108-121 | 200, clearing the cookie an admin's login sets |
| UserControllers.LogoutPatient | controllers/userControllers.js:124-137 | 200, clearing the cookie a patient's login sets |
| UserControllers.ProfileAppointmentOf | controllers/userControllers.js:153-160 | a formatted appointment exists exactly when its doctor resolves, and carries the appointment's id and date |
| UserControllers.ProfileAppointmentFields | controllers/userControllers.js:153-160 | it names the doctor "Dr. first last", takes the doctor's department and the appointment's time and status |
| UserControllers.ProfilePrescriptionOf | controllers/userControllers.js:167-173 | a formatted prescription exists exactly when its doctor resolves, and carries its issue date |
| UserControllers.ProfilePrescriptionFields | controllers/userControllers.js:167-173 | it names the doctor "Dr. first last" and carries the medications, notes and file URL |
| UserControllers.UserAppointments | controllers/userControllers.js:149-160 | None exactly when one of the caller's appointments has a missing doctor; otherwise latest date first |
| UserControllers.UserAppointmentsAreTheCallers | controllers/userControllers.js:149-160 | every appointment of the caller is listed and every listed row is one of the caller's |
| UserControllers.UserPrescriptions | controllers/userControllers.js:163-173 | None exactly when one of the caller's prescriptions has a missing doctor; otherwise latest issue date first |
| UserControllers.UserPrescriptionsAreTheCallers | controllers/userControllers.js:163-173 | every prescription of the caller is listed and every listed row is one of the caller's |
| UserControllers.GetUserProfile | controllers/userControllers.js:140-184 | 404 exactly when the caller is unknown; 500 exactly when an appointment or prescription listing fails; otherwise, and only otherwise, the caller without password, with both listings |
| Lifecycle.BookKeepsPaidVerified | controllers/appointmentController.js:9-15 | booking keeps every Paid appointment's signature valid |
| Lifecycle.CancelKeepsPaidVerified | controllers/appointmentController.js:41-43 | cancellation keeps every Paid appointment's signature valid |
| Lifecycle.UpdateStatusKeepsPaidVerified | controllers/appointmentController.js:126-127 | a status update keeps every Paid appointment's signature valid |
| Lifecycle.AppointmentRequestKeepsInvariant | controllers/appointmentController.js:4-48 | booking, cancelling and a status update keep ids unique and Paid appointments verified |
| Lifecycle.PaymentRequestKeepsInvariant | controllers/paymentController.js:10-84 | creating an order and verifying a payment keep ids unique and Paid appointments verified |
| Lifecycle.ApplyKeepsInvariant | controllers/paymentController.js:69-84 | every handler keeps ids unique and Paid appointments verified |
| Lifecycle.RunKeepsInvariant | controllers/paymentController.js:69-84 | any sequence of requests keeps the invariant |
| Lifecycle.ReachablePaidIsVerified | controllers/paymentController.js:69-84 | in any collection reachable from the empty one, a Paid appointment holds a matching payment id and signature |

## Findings

| source | as written | input that shows it | evidently intended | confidence | as-written member | corrected member |
|---|---|---|---|---|---|---|
| controllers/appointmentController.js:54-64 | the fallback `appt.doctorId.department` reads a field that populate("doctorId", "firstName lastName email") does not load, so it is always undefined | an appointment booked without a department, for a doctor whose department is "Cardiology" | the row shows the doctor's department, "Cardiology" | high; not executed | AppointmentController.DepartmentAsWritten | AppointmentController.AdminRowIntended |

`FallbackDepartmentIsNeverLoaded` exhibits the input. `AdminRowOf`, and
therefore `GetAllAppointments`, sends the department as written.
`AdminRowIntended` is the corrected row, built on `DepartmentIntended`, and
`AdminRowsDifferOnlyInDepartment` shows that the department is all the
correction changes.

## Left out

- Network and I/O are out of scope: the HTTP layer, routes, CORS, server startup, the database connection and the response bodies' exact JSON shape. Replies are modelled as status codes plus the values the handlers put in them.
- The authentication middleware is not part of this model. The caller's id and role are parameters.
- Password hashing is not modelled: bcrypt's pre-save hook, its rehashing on every save, and its comparison. Passwords are stored as supplied, and `PasswordMatch` is an uninterpreted predicate.
- JWT signing and `JWT_EXPIRES` are not modelled. The signed token is `TokenEnv.sign(id)`.
- HMAC-SHA256 is an uninterpreted function of key and message. The timing of the non-constant-time `!==` comparison is not modelled.
- The payment gateway client is not part of this model. Its answer to orders.create is the `GatewayReply` parameter.
- Uploads to the image and file host are the `UploadReply` parameter. In the code as shipped the host client is never imported, so every upload would throw and answer 500. The model allows either outcome.
- Email sending, the AI route, swagger and multer configuration are not part of this model.
- Mongoose schema validation at save time is not modelled (status enum, gender enum, ObjectId casts). Writes are plain writes. So `CancelStep` stores Cancelled, which a validating save would reject; `CancelWritesStatusOutsideSchema` states the gap. A malformed id raises a cast error. Inside a handler's try/catch that answers 500; cancelAppointment (controllers/appointmentController.js:32-48) has no try/catch, so there it is an unhandled rejection and no reply is sent. The model treats a malformed id as an unknown id.
- Strict-mode stripping of fields the appointment schema does not declare is not modelled. The payment fields (razorpayOrderId, amount, paymentStatus, razorpayPaymentId, razorpaySignature) are plain fields of `Appointment`.
- Timestamps: `createdAt` is the booking time passed in, and `updatedAt` is not modelled.
- Request fields are typed values. Absent fields and JavaScript type coercion are not modelled beyond the appointment id check in createOrder, the empty-field check in addNewAdmin and the optional department. findOne with an undefined email, which would match any document, is not modelled. medications is a list of strings.
- `amount * 100` is computed on natural numbers. Floating-point amounts are not modelled.
- Requests run one at a time. Interleaving of concurrent check-then-write requests is not modelled.
- The user schema's address field and the doctor schema's gender enum are not modelled.
- Mongo's order among documents with equal sort keys is unspecified. The model sorts stably (natural order among ties), and no listing contract says anything about ties.
- UserControllers.UserAppointments, UserControllers.UserPrescriptions: the contracts state membership in both directions and the sort order, not the multiplicity of repeated rows (`Store.QueryPermutesMatches` states it for the documents the query returns).
- AppointmentController.GetAllAppointments: states the number of rows and the sort order, and `AllAppointmentsListed` states membership both ways; that rows repeat exactly as often as their appointments is stated only for the documents, by `AllAppointmentsQuery`.
