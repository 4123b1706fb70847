/** The user handlers: patient registration, login, admin registration (its
    routes carry no authentication middleware), the two logouts, and the patient's profile. Patients and admins
    share one user collection. The caller's id comes from the authentication
    middleware and is a parameter. */
module UserControllers {
  import opened Common
  import opened Store
  import opened JwtToken
  import opened UserModel
  import opened AppointmentModel
  import opened PrescriptionModel
  import DoctorModel

  type Users = seq<Doc<User>>
  type Doctors = seq<Doc<DoctorModel.Doctor>>

  /** findOne({ email }): the first user with that email. */
  function FindByEmail(t: Users, email: string): (r: Option<nat>)
    ensures r.Some? ==> r.value < |t| && t[r.value].body.email == email
    ensures r.Some? ==> forall j :: 0 <= j < r.value ==> t[j].body.email != email
    ensures r.None? <==> forall j :: 0 <= j < |t| ==> t[j].body.email != email
  {
    FindFirst(t, (d: Doc<User>) => d.body.email == email)
  }

  /** No two users, patient or admin, share an email. */
  predicate EmailsUnique(t: Users) {
    forall i, j :: 0 <= i < j < |t| ==> t[i].body.email != t[j].body.email
  }

  /** The seven fields both registration handlers take from the request body. */
  datatype UserForm = UserForm(firstName: string, lastName: string, email: string, password: string,
                               phone: string, gender: string, age: string)

  function NewUser(form: UserForm, role: string): (u: User)
    ensures u.firstName == form.firstName && u.lastName == form.lastName && u.email == form.email
    ensures u.password == form.password && u.phone == form.phone && u.gender == form.gender
    ensures u.age == form.age && u.role == role
  {
    User(form.firstName, form.lastName, form.email, form.password, form.phone, form.gender,
         form.age, role)
  }

  // ---------------------------------------------------------------------------
  // Patient registration

  /** What registerPatient answers, and the user collection afterwards. */
  datatype RegisterReply = RegisterReply(reply: AuthReply<Doc<User>>, docs: Users)

  /** registerPatient: a taken email (of a patient or an admin) is refused
      (400) with no change; otherwise one patient is appended and signed in. */
  function RegisterPatientStep(t: Users, form: UserForm, env: TokenEnv): (r: RegisterReply)
    ensures r.reply.Refused? <==> FindByEmail(t, form.email).Some?
    ensures r.reply.Refused? ==> r.reply.code == BAD_REQUEST && r.docs == t
    ensures r.reply.Issued? ==>
      && |r.docs| == |t| + 1 && r.docs[..|t|] == t
      && (forall i :: 0 <= i < |t| ==> t[i].id != r.docs[|t|].id)
      && r.docs[|t|].body == NewUser(form, "Patient")
      && r.reply.response.statusCode == OK
      && r.reply.response.body.message == "User Registered!"
      && r.reply.response.body.user == r.docs[|t|]
      && r.reply.response.body.token == env.sign(r.docs[|t|].id)
      && r.reply.response.cookie.name == Some("patientToken")
    ensures UniqueIds(t) ==> UniqueIds(r.docs)
    ensures EmailsUnique(t) ==> EmailsUnique(r.docs)
  {
    if FindByEmail(t, form.email).Some? then RegisterReply(Refused(BAD_REQUEST), t)
    else
      var d := Doc(FreshId(t), NewUser(form, "Patient"));
      RegisterReply(Issued(GenerateToken(d.id, d, d.body.role, "User Registered!", OK, env)), t + [d])
  }

  method RegisterPatient(users: Collection<User>, form: UserForm, env: TokenEnv)
    returns (reply: AuthReply<Doc<User>>)
    requires users.Valid()
    modifies users
    ensures users.Valid()
    ensures RegisterReply(reply, users.docs) == RegisterPatientStep(old(users.docs), form, env)
  {
    if FindByEmail(users.docs, form.email).Some? {
      return Refused(BAD_REQUEST);
    }
    var body := NewUser(form, "Patient");
    var id := users.Create(body);
    var d := Doc(id, body);
    reply := Issued(GenerateToken(id, d, body.role, "User Registered!", OK, env));
  }

  // ---------------------------------------------------------------------------
  // Login

  /** login, in order: unknown email (404), wrong password (401), requested
      role not the stored one (403); a token only when all three pass. */
  function Login(t: Users, email: string, password: string, role: string, matches: PasswordMatch,
                 env: TokenEnv): (r: AuthReply<Doc<User>>)
    ensures r == Refused(NOT_FOUND) <==> FindByEmail(t, email).None?
    ensures var f := FindByEmail(t, email);
      r == Refused(UNAUTHORIZED) <==> f.Some? && !matches(password, t[f.value].body.password)
    ensures var f := FindByEmail(t, email);
      r == Refused(FORBIDDEN) <==>
        f.Some? && matches(password, t[f.value].body.password) && role != t[f.value].body.role
    ensures var f := FindByEmail(t, email);
      r.Issued? <==> f.Some? && matches(password, t[f.value].body.password) && role == t[f.value].body.role
    ensures r.Issued? ==> var d := t[FindByEmail(t, email).value];
      && r.response.statusCode == OK
      && r.response.body.message == "User Logged In!"
      && r.response.body.user == d
      && r.response.body.token == env.sign(d.id)
      && r.response.cookie.name == CookieName(role)
  {
    match FindByEmail(t, email)
    case None => Refused(NOT_FOUND)
    case Some(i) =>
      var d := t[i];
      if !matches(password, d.body.password) then Refused(UNAUTHORIZED)
      else if role != d.body.role then Refused(FORBIDDEN)
      else Issued(GenerateToken(d.id, d, d.body.role, "User Logged In!", OK, env))
  }

  /** A newly registered patient logs in as a patient with the password they
      registered, given that the password check accepts a password against
      its own stored form, and gets the patientToken cookie. */
  lemma RegisteredPatientCanLogIn(t: Users, form: UserForm, env: TokenEnv, matches: PasswordMatch,
                                  later: TokenEnv)
    requires RegisterPatientStep(t, form, env).reply.Issued?
    requires matches(form.password, form.password)
    ensures var r := Login(RegisterPatientStep(t, form, env).docs, form.email, form.password,
                           "Patient", matches, later);
      r.Issued? && r.response.cookie.name == Some("patientToken")
  {
    var r := RegisterPatientStep(t, form, env);
    assert forall j :: 0 <= j < |t| ==> r.docs[j] == t[j];
    assert FindByEmail(r.docs, form.email) == Some(|t|);
  }

  /** The same patient asking for the Admin role is refused with 403 even with
      the right password. */
  lemma RegisteredPatientIsNotAdmin(t: Users, form: UserForm, env: TokenEnv, matches: PasswordMatch,
                                    later: TokenEnv)
    requires RegisterPatientStep(t, form, env).reply.Issued?
    requires matches(form.password, form.password)
    ensures Login(RegisterPatientStep(t, form, env).docs, form.email, form.password,
                  "Admin", matches, later) == Refused(FORBIDDEN)
  {
    var r := RegisterPatientStep(t, form, env);
    assert forall j :: 0 <= j < |t| ==> r.docs[j] == t[j];
    assert FindByEmail(r.docs, form.email) == Some(|t|);
  }

  // ---------------------------------------------------------------------------
  // Admin registration

  /** All seven fields present and non-empty. */
  predicate AllFilled(form: UserForm) {
    !Blank(form.firstName) && !Blank(form.lastName) && !Blank(form.email) && !Blank(form.phone)
    && !Blank(form.password) && !Blank(form.gender) && !Blank(form.age)
  }

  datatype AdminReply = AdminReply(code: nat, message: string, docs: Users)

  /** addNewAdmin: a missing field is refused (400) before the lookup; then a
      taken email of any user is refused (400); otherwise one admin is
      appended and the answer is 200. */
  function AddNewAdminStep(t: Users, form: UserForm): (r: AdminReply)
    ensures r.code in {OK, BAD_REQUEST}
    ensures !AllFilled(form) ==> r == AdminReply(BAD_REQUEST, "Please fill all the fields!", t)
    ensures AllFilled(form) && FindByEmail(t, form.email).Some? ==>
      r == AdminReply(BAD_REQUEST, "Admin already registered with this email!", t)
    ensures r.code == OK <==> AllFilled(form) && FindByEmail(t, form.email).None?
    ensures r.code == OK ==>
      && r.message == "New Admin Registered!"
      && |r.docs| == |t| + 1 && r.docs[..|t|] == t
      && (forall i :: 0 <= i < |t| ==> t[i].id != r.docs[|t|].id)
      && r.docs[|t|].body == NewUser(form, "Admin")
    ensures UniqueIds(t) ==> UniqueIds(r.docs)
    ensures EmailsUnique(t) ==> EmailsUnique(r.docs)
  {
    if !AllFilled(form) then AdminReply(BAD_REQUEST, "Please fill all the fields!", t)
    else if FindByEmail(t, form.email).Some? then
      AdminReply(BAD_REQUEST, "Admin already registered with this email!", t)
    else AdminReply(OK, "New Admin Registered!", t + [Doc(FreshId(t), NewUser(form, "Admin"))])
  }

  method AddNewAdmin(users: Collection<User>, form: UserForm) returns (code: nat, message: string)
    requires users.Valid()
    modifies users
    ensures users.Valid()
    ensures AdminReply(code, message, users.docs) == AddNewAdminStep(old(users.docs), form)
  {
    if !AllFilled(form) {
      return BAD_REQUEST, "Please fill all the fields!";
    }
    if FindByEmail(users.docs, form.email).Some? {
      return BAD_REQUEST, "Admin already registered with this email!";
    }
    var _ := users.Create(NewUser(form, "Admin"));
    code, message := OK, "New Admin Registered!";
  }

  /** The uniqueness check spans both roles: an admin cannot be registered
      with the email of a patient who has just registered. */
  lemma AdminRegistrationSeesPatients(t: Users, form: UserForm, env: TokenEnv, admin: UserForm)
    requires RegisterPatientStep(t, form, env).reply.Issued?
    requires AllFilled(admin) && admin.email == form.email
    ensures var r := AddNewAdminStep(RegisterPatientStep(t, form, env).docs, admin);
      r.code == BAD_REQUEST && r.docs == RegisterPatientStep(t, form, env).docs
  {
    var r := RegisterPatientStep(t, form, env);
    assert r.docs[|t|].body.email == admin.email;
  }

  // ---------------------------------------------------------------------------
  // Logout

  /** logoutAdmin clears the cookie an admin's login sets. */
  function LogoutAdmin(now: int): (r: LogoutReply)
    ensures r.code == OK && r.message == "Admin logged out!"
    ensures r.cookie.name == CookieName("Admin") && r.cookie.value == "" && r.cookie.expires == now
  {
    LogoutReply(OK, ClearedCookie("adminToken", now), "Admin logged out!")
  }

  /** logoutPatient clears the cookie a patient's login sets. */
  function LogoutPatient(now: int): (r: LogoutReply)
    ensures r.code == OK && r.message == "Patient logged out!"
    ensures r.cookie.name == CookieName("Patient") && r.cookie.value == "" && r.cookie.expires == now
  {
    LogoutReply(OK, ClearedCookie("patientToken", now), "Patient logged out!")
  }

  // ---------------------------------------------------------------------------
  // Profile

  /** "Dr. " followed by the populated doctor's first and last name. */
  function DoctorName(d: DoctorModel.Doctor): string {
    "Dr. " + d.firstName + " " + d.lastName
  }

  datatype ProfileAppointment = ProfileAppointment(appointmentId: Id, doctorName: string,
                                                   department: string, date: Option<int>,
                                                   time: string, status: Status)

  /** One formatted appointment; None when its doctor does not resolve, where
      the handler dereferences null. The department is the doctor's. */
  function ProfileAppointmentOf(doctors: Doctors, d: Doc<Appointment>): (r: Option<ProfileAppointment>)
    ensures r.Some? <==> IndexOf(doctors, d.body.doctorId).Some?
    ensures r.Some? ==> r.value.appointmentId == d.id && r.value.date == d.body.appointmentDate
  {
    match IndexOf(doctors, d.body.doctorId)
    case None => None
    case Some(q) =>
      var doctor := doctors[q].body;
      Some(ProfileAppointment(d.id, DoctorName(doctor), doctor.department, d.body.appointmentDate,
                              d.body.appointmentTime, d.body.status))
  }

  /** A formatted appointment names its doctor as "Dr. " + first name + " " +
      last name, takes the department from the doctor, and the date, time and
      status from the appointment. */
  lemma ProfileAppointmentFields(doctors: Doctors, d: Doc<Appointment>)
    requires IndexOf(doctors, d.body.doctorId).Some?
    ensures var doctor := doctors[IndexOf(doctors, d.body.doctorId).value].body;
      var r := ProfileAppointmentOf(doctors, d).value;
      && r.doctorName == "Dr. " + doctor.firstName + " " + doctor.lastName
      && r.department == doctor.department
      && r.time == d.body.appointmentTime && r.status == d.body.status
  {
  }

  datatype ProfilePrescription = ProfilePrescription(doctorName: string, medications: seq<string>,
                                                     notes: string, fileUrl: string,
                                                     issuedAt: Option<int>)

  /** One formatted prescription; None when its doctor does not resolve. */
  function ProfilePrescriptionOf(doctors: Doctors, p: Doc<Prescription>): (r: Option<ProfilePrescription>)
    ensures r.Some? <==> IndexOf(doctors, p.body.doctorId).Some?
    ensures r.Some? ==> r.value.issuedAt == p.body.issuedAt
  {
    match IndexOf(doctors, p.body.doctorId)
    case None => None
    case Some(q) =>
      var doctor := doctors[q].body;
      Some(ProfilePrescription(DoctorName(doctor), p.body.medications, p.body.notes,
                               p.body.prescriptionFileUrl, p.body.issuedAt))
  }

  /** A formatted prescription names its doctor as "Dr. " + first name + " "
      + last name and carries the prescription's medications, notes and file
      URL. */
  lemma ProfilePrescriptionFields(doctors: Doctors, p: Doc<Prescription>)
    requires IndexOf(doctors, p.body.doctorId).Some?
    ensures var doctor := doctors[IndexOf(doctors, p.body.doctorId).value].body;
      var r := ProfilePrescriptionOf(doctors, p).value;
      && r.doctorName == "Dr. " + doctor.firstName + " " + doctor.lastName
      && r.medications == p.body.medications && r.notes == p.body.notes
      && r.fileUrl == p.body.prescriptionFileUrl
  {
  }

  /** The filter { patientId } on appointments. */
  function AppointmentOf(userId: Id): Appointment -> bool {
    (a: Appointment) => a.patientId == userId
  }

  function AppointmentRowFor(doctors: Doctors): Doc<Appointment> -> Option<ProfileAppointment> {
    (d: Doc<Appointment>) => ProfileAppointmentOf(doctors, d)
  }

  /** Appointment.find({ patientId }).sort({ appointmentDate: -1 }) and the
      formatting of each result. */
  function AppointmentsQuery(doctors: Doctors, apts: seq<Doc<Appointment>>, userId: Id)
    : QueryResult<Appointment, ProfileAppointment>
  {
    Query(apts, AppointmentOf(userId), AppointmentDateKey, AppointmentRowFor(doctors))
  }

  /** The caller's appointments, latest date first, formatted; None when any
      of them has a doctor that does not resolve. */
  function UserAppointments(doctors: Doctors, apts: seq<Doc<Appointment>>, userId: Id)
    : (r: Option<seq<ProfileAppointment>>)
    ensures r.None? <==>
      exists d :: d in apts && d.body.patientId == userId && ProfileAppointmentOf(doctors, d).None?
    ensures r.Some? ==> forall i, j :: 0 <= i < j < |r.value| ==> KeyGe(r.value[i].date, r.value[j].date)
  {
    var q := AppointmentsQuery(doctors, apts, userId);
    if q.rows.None? then None
    else
      var rows := q.rows.value;
      forall i, j | 0 <= i < j < |rows| ensures KeyGe(rows[i].date, rows[j].date) {
        assert KeyGe(AppointmentDateKey(q.docs[i].body), AppointmentDateKey(q.docs[j].body));
      }
      q.rows
  }

  /** The listed appointments are exactly the caller's: each of them appears,
      formatted, and every row is one of them. */
  lemma UserAppointmentsAreTheCallers(doctors: Doctors, apts: seq<Doc<Appointment>>, userId: Id)
    requires UserAppointments(doctors, apts, userId).Some?
    ensures var rows := UserAppointments(doctors, apts, userId).value;
      && (forall d :: d in apts && d.body.patientId == userId ==>
            ProfileAppointmentOf(doctors, d).Some? && ProfileAppointmentOf(doctors, d).value in rows)
      && (forall k :: 0 <= k < |rows| ==>
            exists d :: d in apts && d.body.patientId == userId && ProfileAppointmentOf(doctors, d) == Some(rows[k]))
  {
    var p, row := AppointmentOf(userId), AppointmentRowFor(doctors);
    assert UserAppointments(doctors, apts, userId) == Query(apts, p, AppointmentDateKey, row).rows;
    var q := Query(apts, p, AppointmentDateKey, row);
    var rows := UserAppointments(doctors, apts, userId).value;
    forall d | d in apts && d.body.patientId == userId
      ensures ProfileAppointmentOf(doctors, d).Some? && ProfileAppointmentOf(doctors, d).value in rows
    {
      assert p(d.body) && row(d) == ProfileAppointmentOf(doctors, d);
      QueryCovers(apts, p, AppointmentDateKey, row, d);
    }
    forall k | 0 <= k < |rows|
      ensures exists d :: d in apts && d.body.patientId == userId && ProfileAppointmentOf(doctors, d) == Some(rows[k])
    {
      QueryRowComesFromMatch(apts, p, AppointmentDateKey, row, k);
      var d := q.docs[k];
      assert d.body.patientId == userId && ProfileAppointmentOf(doctors, d) == row(d);
    }
  }

  /** The filter { patientId } on prescriptions. */
  function PrescriptionOf(userId: Id): Prescription -> bool {
    (p: Prescription) => p.patientId == userId
  }

  function PrescriptionRowFor(doctors: Doctors): Doc<Prescription> -> Option<ProfilePrescription> {
    (p: Doc<Prescription>) => ProfilePrescriptionOf(doctors, p)
  }

  /** Prescription.find({ patientId }).sort({ issuedAt: -1 }) and the
      formatting of each result. */
  function PrescriptionsQuery(doctors: Doctors, prescriptions: seq<Doc<Prescription>>, userId: Id)
    : QueryResult<Prescription, ProfilePrescription>
  {
    Query(prescriptions, PrescriptionOf(userId), IssuedAtKey, PrescriptionRowFor(doctors))
  }

  /** The caller's prescriptions, latest issue date first, formatted; None
      when any of them has a doctor that does not resolve. */
  function UserPrescriptions(doctors: Doctors, prescriptions: seq<Doc<Prescription>>, userId: Id)
    : (r: Option<seq<ProfilePrescription>>)
    ensures r.None? <==>
      exists p :: p in prescriptions && p.body.patientId == userId && ProfilePrescriptionOf(doctors, p).None?
    ensures r.Some? ==> forall i, j :: 0 <= i < j < |r.value| ==> KeyGe(r.value[i].issuedAt, r.value[j].issuedAt)
  {
    var q := PrescriptionsQuery(doctors, prescriptions, userId);
    if q.rows.None? then None
    else
      var rows := q.rows.value;
      forall i, j | 0 <= i < j < |rows| ensures KeyGe(rows[i].issuedAt, rows[j].issuedAt) {
        assert KeyGe(IssuedAtKey(q.docs[i].body), IssuedAtKey(q.docs[j].body));
      }
      q.rows
  }

  /** The listed prescriptions are exactly the caller's. */
  lemma UserPrescriptionsAreTheCallers(doctors: Doctors, prescriptions: seq<Doc<Prescription>>, userId: Id)
    requires UserPrescriptions(doctors, prescriptions, userId).Some?
    ensures var rows := UserPrescriptions(doctors, prescriptions, userId).value;
      && (forall p :: p in prescriptions && p.body.patientId == userId ==>
            ProfilePrescriptionOf(doctors, p).Some? && ProfilePrescriptionOf(doctors, p).value in rows)
      && (forall k :: 0 <= k < |rows| ==>
            exists p :: p in prescriptions && p.body.patientId == userId && ProfilePrescriptionOf(doctors, p) == Some(rows[k]))
  {
    var own, row := PrescriptionOf(userId), PrescriptionRowFor(doctors);
    assert UserPrescriptions(doctors, prescriptions, userId) == Query(prescriptions, own, IssuedAtKey, row).rows;
    var q := Query(prescriptions, own, IssuedAtKey, row);
    var rows := UserPrescriptions(doctors, prescriptions, userId).value;
    forall p | p in prescriptions && p.body.patientId == userId
      ensures ProfilePrescriptionOf(doctors, p).Some? && ProfilePrescriptionOf(doctors, p).value in rows
    {
      assert own(p.body) && row(p) == ProfilePrescriptionOf(doctors, p);
      QueryCovers(prescriptions, own, IssuedAtKey, row, p);
    }
    forall k | 0 <= k < |rows|
      ensures exists p :: p in prescriptions && p.body.patientId == userId && ProfilePrescriptionOf(doctors, p) == Some(rows[k])
    {
      QueryRowComesFromMatch(prescriptions, own, IssuedAtKey, row, k);
      var p := q.docs[k];
      assert p.body.patientId == userId && ProfilePrescriptionOf(doctors, p) == row(p);
    }
  }

  datatype ProfileReply =
    | Profile(id: Id, profile: PublicUser, appointments: seq<ProfileAppointment>,
              prescriptions: seq<ProfilePrescription>)
    | ProfileRefused(code: nat)

  /** getUserProfile: an unknown caller answers 404; a listed appointment or
      prescription whose doctor is missing answers 500; otherwise the caller
      without password, with their formatted appointments and prescriptions. */
  function GetUserProfile(users: Users, doctors: Doctors, apts: seq<Doc<Appointment>>,
                          prescriptions: seq<Doc<Prescription>>, userId: Id): (r: ProfileReply)
    ensures r.ProfileRefused? ==> r.code in {NOT_FOUND, SERVER_ERROR}
    ensures r == ProfileRefused(NOT_FOUND) <==> IndexOf(users, userId).None?
    ensures r == ProfileRefused(SERVER_ERROR) <==>
      IndexOf(users, userId).Some?
      && (UserAppointments(doctors, apts, userId).None? || UserPrescriptions(doctors, prescriptions, userId).None?)
    ensures r.Profile? ==>
      && IndexOf(users, userId).Some?
      && r.id == userId
      && r.profile == WithoutPassword(users[IndexOf(users, userId).value].body)
      && Some(r.appointments) == UserAppointments(doctors, apts, userId)
      && Some(r.prescriptions) == UserPrescriptions(doctors, prescriptions, userId)
  {
    match IndexOf(users, userId)
    case None => ProfileRefused(NOT_FOUND)
    case Some(i) =>
      match (UserAppointments(doctors, apts, userId), UserPrescriptions(doctors, prescriptions, userId))
      case (Some(a), Some(p)) => Profile(userId, WithoutPassword(users[i].body), a, p)
      case _ => ProfileRefused(SERVER_ERROR)
  }
}
