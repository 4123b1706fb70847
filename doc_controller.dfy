/** The doctor handlers: registration, login, verification by an admin, the
    public listing, logout, and prescription upload. The file host's answer to
    an upload, the password check and the token environment are inputs. */
module DocController {
  import opened Common
  import opened Store
  import opened JwtToken
  import opened DoctorModel
  import opened PrescriptionModel

  type Doctors = seq<Doc<Doctor>>
  type Prescriptions = seq<Doc<Prescription>>

  /** What an upload answered: the stored file's secure URL, or a rejection. */
  datatype UploadReply = Uploaded(url: string) | UploadFailed

  /** findOne({ email }): the first doctor with that email. */
  function FindByEmail(t: Doctors, email: string): (r: Option<nat>)
    ensures r.Some? ==> r.value < |t| && t[r.value].body.email == email
    ensures r.Some? ==> forall j :: 0 <= j < r.value ==> t[j].body.email != email
    ensures r.None? <==> forall j :: 0 <= j < |t| ==> t[j].body.email != email
  {
    FindFirst(t, (d: Doc<Doctor>) => d.body.email == email)
  }

  /** No two doctors share an email: what the registration check maintains. */
  predicate EmailsUnique(t: Doctors) {
    forall i, j :: 0 <= i < j < |t| ==> t[i].body.email != t[j].body.email
  }

  /** Every stored doctor has the role "Doctor", so generateToken names its
      cookie doctorToken. */
  predicate RolesAreDoctor(t: Doctors) {
    forall i :: 0 <= i < |t| ==> t[i].body.role == "Doctor"
  }

  // ---------------------------------------------------------------------------
  // Registration

  /** The fields registerDoctor takes from the request body. */
  datatype DoctorForm = DoctorForm(firstName: string, lastName: string, email: string,
                                   password: string, phone: string, gender: string,
                                   specialization: string, department: string, experience: string)

  /** The doctor summary the 201 reply carries. */
  datatype DoctorSummary = DoctorSummary(name: string, id: Id, email: string, specialization: string,
                                         department: string, profileImage: string, isVerified: bool)

  /** What registerDoctor answers: the status code, whether the upload helper
      was called, the summary, and the doctor collection afterwards. */
  datatype RegisterReply = RegisterReply(code: nat, uploadRequested: bool,
                                         doctor: Option<DoctorSummary>, docs: Doctors)

  /** The doctor Doctor.create stores: the form's fields, the image URL, role
      "Doctor", and the schema default isVerified = false. */
  function NewDoctor(form: DoctorForm, imageUrl: string): (d: Doctor)
    ensures d.firstName == form.firstName && d.lastName == form.lastName && d.email == form.email
    ensures d.password == form.password && d.phone == form.phone && d.gender == form.gender
    ensures d.specialization == form.specialization && d.department == form.department
    ensures d.experience == form.experience
    ensures d.profileImage == imageUrl && !d.isVerified && d.role == "Doctor"
  {
    Doctor(form.firstName, form.lastName, form.email, form.password, form.phone, form.gender,
           form.specialization, form.department, form.experience, imageUrl, false, "Doctor")
  }

  function Summary(id: Id, d: Doctor): DoctorSummary {
    DoctorSummary(d.firstName + " " + d.lastName, id, d.email, d.specialization, d.department,
                  d.profileImage, d.isVerified)
  }

  /** The profile image: the uploaded URL when a file came with the request,
      "" otherwise. */
  function ImageUrl(file: bool, upload: UploadReply): string {
    if file && upload.Uploaded? then upload.url else ""
  }

  /** registerDoctor: a taken email is refused (400) before any upload; a
      failed upload answers 500; otherwise one unverified doctor is appended.
      Only the 201 path changes the collection, and email uniqueness is kept. */
  function RegisterDoctorStep(t: Doctors, form: DoctorForm, file: bool, upload: UploadReply)
    : (r: RegisterReply)
    ensures r.code in {CREATED, BAD_REQUEST, SERVER_ERROR}
    ensures r.code == BAD_REQUEST <==> FindByEmail(t, form.email).Some?
    ensures r.uploadRequested <==> FindByEmail(t, form.email).None? && file
    ensures r.code == SERVER_ERROR <==> FindByEmail(t, form.email).None? && file && upload.UploadFailed?
    ensures r.code != CREATED ==> r.docs == t && r.doctor.None?
    ensures r.code == CREATED ==>
      && |r.docs| == |t| + 1 && r.docs[..|t|] == t
      && (forall i :: 0 <= i < |t| ==> t[i].id != r.docs[|t|].id)
      && r.docs[|t|].body == NewDoctor(form, if file then upload.url else "")
      && r.doctor == Some(Summary(r.docs[|t|].id, r.docs[|t|].body))
    ensures UniqueIds(t) ==> UniqueIds(r.docs)
    ensures EmailsUnique(t) ==> EmailsUnique(r.docs)
    ensures RolesAreDoctor(t) ==> RolesAreDoctor(r.docs)
  {
    if FindByEmail(t, form.email).Some? then RegisterReply(BAD_REQUEST, false, None, t)
    else if file && upload.UploadFailed? then RegisterReply(SERVER_ERROR, true, None, t)
    else
      var id := FreshId(t);
      var d := NewDoctor(form, ImageUrl(file, upload));
      RegisterReply(CREATED, file, Some(Summary(id, d)), t + [Doc(id, d)])
  }

  method RegisterDoctor(doctors: Collection<Doctor>, form: DoctorForm, file: bool, upload: UploadReply)
    returns (code: nat, uploadRequested: bool, doctor: Option<DoctorSummary>)
    requires doctors.Valid()
    modifies doctors
    ensures doctors.Valid()
    ensures RegisterReply(code, uploadRequested, doctor, doctors.docs)
         == RegisterDoctorStep(old(doctors.docs), form, file, upload)
  {
    if FindByEmail(doctors.docs, form.email).Some? {
      return BAD_REQUEST, false, None;
    }
    var imageUrl := "";
    if file {
      if upload.UploadFailed? {
        return SERVER_ERROR, true, None;
      }
      imageUrl := upload.url;
    }
    var d := NewDoctor(form, imageUrl);
    var id := doctors.Create(d);
    code, uploadRequested, doctor := CREATED, file, Some(Summary(id, d));
  }

  // ---------------------------------------------------------------------------
  // Login

  /** loginDoctor, in order: unknown email (404), not verified (403), wrong
      password (401); only a doctor passing all three gets a token. */
  function LoginDoctor(t: Doctors, email: string, password: string, matches: PasswordMatch,
                       env: TokenEnv): (r: AuthReply<Doc<Doctor>>)
    ensures r == Refused(NOT_FOUND) <==> FindByEmail(t, email).None?
    ensures var f := FindByEmail(t, email);
      r == Refused(FORBIDDEN) <==> f.Some? && !t[f.value].body.isVerified
    ensures var f := FindByEmail(t, email);
      r == Refused(UNAUTHORIZED) <==>
        f.Some? && t[f.value].body.isVerified && !matches(password, t[f.value].body.password)
    ensures var f := FindByEmail(t, email);
      r.Issued? <==> f.Some? && t[f.value].body.isVerified && matches(password, t[f.value].body.password)
    ensures r.Issued? ==> var d := t[FindByEmail(t, email).value];
      && r.response.statusCode == OK
      && r.response.body.message == "Doctor login successful"
      && r.response.body.user == d
      && r.response.body.token == env.sign(d.id)
      && r.response.cookie.name == CookieName(d.body.role)
  {
    match FindByEmail(t, email)
    case None => Refused(NOT_FOUND)
    case Some(i) =>
      var d := t[i];
      if !d.body.isVerified then Refused(FORBIDDEN)
      else if !matches(password, d.body.password) then Refused(UNAUTHORIZED)
      else Issued(GenerateToken(d.id, d, d.body.role, "Doctor login successful", OK, env))
  }

  /** A doctor who has just registered cannot log in, whatever the password:
      registration leaves them unverified. */
  lemma RegisteredDoctorMustWait(t: Doctors, form: DoctorForm, file: bool, upload: UploadReply,
                                 password: string, matches: PasswordMatch, env: TokenEnv)
    requires RegisterDoctorStep(t, form, file, upload).code == CREATED
    ensures LoginDoctor(RegisterDoctorStep(t, form, file, upload).docs, form.email, password, matches, env)
         == Refused(FORBIDDEN)
  {
    var r := RegisterDoctorStep(t, form, file, upload);
    assert forall j :: 0 <= j < |t| ==> r.docs[j] == t[j];
    assert r.docs[|t|].body.email == form.email;
    assert FindByEmail(r.docs, form.email) == Some(|t|);
  }

  /** Where every doctor has the role "Doctor", a successful login sets the
      doctorToken cookie. */
  lemma LoginSetsDoctorCookie(t: Doctors, email: string, password: string, matches: PasswordMatch,
                              env: TokenEnv)
    requires RolesAreDoctor(t)
    ensures var r := LoginDoctor(t, email, password, matches, env);
      r.Issued? ==> r.response.cookie.name == Some("doctorToken")
  {
  }

  // ---------------------------------------------------------------------------
  // Verification by an admin

  /** What verifyDoctor answers: the status code, the updated doctor, and the
      collection afterwards. */
  datatype VerifyReply = VerifyReply(code: nat, doctor: Option<Doc<Doctor>>, docs: Doctors)

  /** verifyDoctor: an unknown id answers 404 with no change; otherwise the
      doctor's isVerified becomes true and nothing else changes. */
  function VerifyDoctorStep(t: Doctors, id: Id): (r: VerifyReply)
    ensures r.code in {OK, NOT_FOUND}
    ensures r.code == NOT_FOUND <==> IndexOf(t, id).None?
    ensures r.code == NOT_FOUND ==> r.docs == t && r.doctor.None?
    ensures r.code == OK ==> var i := IndexOf(t, id).value;
      && r.docs == t[i := Doc(t[i].id, t[i].body.(isVerified := true))]
      && r.doctor == Some(r.docs[i])
    ensures UniqueIds(t) ==> UniqueIds(r.docs)
    ensures EmailsUnique(t) ==> EmailsUnique(r.docs)
    ensures RolesAreDoctor(t) ==> RolesAreDoctor(r.docs)
  {
    match IndexOf(t, id)
    case None => VerifyReply(NOT_FOUND, None, t)
    case Some(i) =>
      var docs := t[i := Doc(t[i].id, t[i].body.(isVerified := true))];
      VerifyReply(OK, Some(docs[i]), docs)
  }

  method VerifyDoctor(doctors: Collection<Doctor>, id: Id) returns (code: nat, doctor: Option<Doc<Doctor>>)
    requires doctors.Valid()
    modifies doctors
    ensures doctors.Valid()
    ensures VerifyReply(code, doctor, doctors.docs) == VerifyDoctorStep(old(doctors.docs), id)
  {
    var found := IndexOf(doctors.docs, id);
    if found.None? {
      return NOT_FOUND, None;
    }
    var i := found.value;
    doctors.Save(i, doctors.docs[i].body.(isVerified := true));
    code, doctor := OK, Some(doctors.docs[i]);
  }

  /** Verifying twice answers and stores the same as verifying once. */
  lemma {:induction false} VerifyDoctorIsIdempotent(t: Doctors, id: Id)
    ensures var once := VerifyDoctorStep(t, id);
      VerifyDoctorStep(once.docs, id) == once
  {
    var once := VerifyDoctorStep(t, id);
    if once.code == OK {
      var i := IndexOf(t, id).value;
      IndexOfAfterSave(t, id, t[i].body.(isVerified := true));
      assert IndexOf(once.docs, id) == Some(i);
      assert once.docs[i := Doc(once.docs[i].id, once.docs[i].body.(isVerified := true))] == once.docs;
    }
  }

  /** Once an admin has verified a doctor, login no longer refuses that
      doctor as unverified: it either issues a token or rejects the password. */
  lemma {:induction false} VerifiedDoctorPassesVerification(t: Doctors, id: Id, password: string,
                                                            matches: PasswordMatch, env: TokenEnv)
    requires EmailsUnique(t)
    requires IndexOf(t, id).Some?
    ensures var v := VerifyDoctorStep(t, id);
      var r := LoginDoctor(v.docs, t[IndexOf(t, id).value].body.email, password, matches, env);
      r.Issued? || r == Refused(UNAUTHORIZED)
  {
    var i := IndexOf(t, id).value;
    var email := t[i].body.email;
    var v := VerifyDoctorStep(t, id);
    var p := (d: Doc<Doctor>) => d.body.email == email;
    assert FindByEmail(t, email) == Some(i);
    FindFirstAfterSave(t, i, t[i].body.(isVerified := true), p);
    assert FindByEmail(v.docs, email) == Some(i);
    assert v.docs[i].body.isVerified;
  }

  // ---------------------------------------------------------------------------
  // Listing

  /** A listed doctor: the id and the record without its password. */
  datatype DoctorEntry = DoctorEntry(id: Id, doctor: PublicDoctor)

  datatype DoctorList = DoctorList(success: bool, totalDoctors: nat, doctors: seq<DoctorEntry>)

  function Entry(d: Doc<Doctor>): DoctorEntry {
    DoctorEntry(d.id, WithoutPassword(d.body))
  }

  predicate IsVerified(d: Doctor) {
    d.isVerified
  }

  /** getAllDoctors: exactly the verified doctors, without passwords, and
      their count. */
  function GetAllDoctors(t: Doctors): (r: DoctorList)
    ensures r.success && r.totalDoctors == |r.doctors| == |Filter(t, IsVerified)| <= |t|
    ensures forall k :: 0 <= k < |r.doctors| ==> r.doctors[k] == Entry(Filter(t, IsVerified)[k])
    ensures forall k :: 0 <= k < |r.doctors| ==>
      exists d :: d in t && d.body.isVerified && r.doctors[k] == Entry(d)
    ensures forall d :: d in t && d.body.isVerified ==> Entry(d) in r.doctors
    ensures forall k :: 0 <= k < |r.doctors| ==> r.doctors[k].doctor.isVerified
  {
    var verified := Filter(t, IsVerified);
    var rows := MapRows(verified, Entry);
    forall k | 0 <= k < |rows|
      ensures exists d :: d in t && d.body.isVerified && rows[k] == Entry(d)
    {
      assert verified[k] in verified;
    }
    DoctorList(true, |rows|, rows)
  }

  // ---------------------------------------------------------------------------
  // Logout

  /** logoutDoctor clears the cookie a doctor's login sets. */
  function LogoutDoctor(now: int): (r: LogoutReply)
    ensures r.code == OK && r.message == "Doctor logged out!"
    ensures r.cookie.name == CookieName("Doctor") && r.cookie.value == "" && r.cookie.expires == now
  {
    LogoutReply(OK, ClearedCookie("doctorToken", now), "Doctor logged out!")
  }

  // ---------------------------------------------------------------------------
  // Prescription upload

  /** The fields uploadPrescription takes from the request body. */
  datatype PrescriptionForm = PrescriptionForm(patientId: Id, appointmentId: Id,
                                               medications: seq<string>, notes: string)

  /** What uploadPrescription answers: the status code, whether the upload
      helper was called, the created prescription, and the collection
      afterwards. */
  datatype PrescriptionReply = PrescriptionReply(code: nat, uploadRequested: bool,
                                                 prescription: Option<Doc<Prescription>>,
                                                 docs: Prescriptions)

  /** uploadPrescription: no file answers 400 before any upload; a failed
      upload answers 500; otherwise one prescription is appended, issued by
      the caller, with the request's fields and the uploaded file's URL. */
  function UploadPrescriptionStep(t: Prescriptions, caller: Id, form: PrescriptionForm, file: bool,
                                  upload: UploadReply): (r: PrescriptionReply)
    ensures r.code in {CREATED, BAD_REQUEST, SERVER_ERROR}
    ensures r.code == BAD_REQUEST <==> !file
    ensures r.uploadRequested <==> file
    ensures r.code == SERVER_ERROR <==> file && upload.UploadFailed?
    ensures r.code != CREATED ==> r.docs == t && r.prescription.None?
    ensures r.code == CREATED ==>
      && |r.docs| == |t| + 1 && r.docs[..|t|] == t
      && (forall i :: 0 <= i < |t| ==> t[i].id != r.docs[|t|].id)
      && r.prescription == Some(r.docs[|t|])
      && r.docs[|t|].body.doctorId == caller
      && r.docs[|t|].body.patientId == form.patientId
      && r.docs[|t|].body.appointmentId == form.appointmentId
      && r.docs[|t|].body.medications == form.medications
      && r.docs[|t|].body.notes == form.notes
      && r.docs[|t|].body.prescriptionFileUrl == upload.url
      && r.docs[|t|].body.issuedAt.None?
    ensures UniqueIds(t) ==> UniqueIds(r.docs)
  {
    if !file then PrescriptionReply(BAD_REQUEST, false, None, t)
    else match upload
      case UploadFailed => PrescriptionReply(SERVER_ERROR, true, None, t)
      case Uploaded(url) =>
        var id := FreshId(t);
        var p := Doc(id, Prescription(form.patientId, caller, form.appointmentId, form.medications,
                                      form.notes, url, None));
        PrescriptionReply(CREATED, true, Some(p), t + [p])
  }

  method UploadPrescription(prescriptions: Collection<Prescription>, caller: Id, form: PrescriptionForm,
                            file: bool, upload: UploadReply)
    returns (code: nat, uploadRequested: bool, prescription: Option<Doc<Prescription>>)
    requires prescriptions.Valid()
    modifies prescriptions
    ensures prescriptions.Valid()
    ensures PrescriptionReply(code, uploadRequested, prescription, prescriptions.docs)
         == UploadPrescriptionStep(old(prescriptions.docs), caller, form, file, upload)
  {
    if !file {
      return BAD_REQUEST, false, None;
    }
    if upload.UploadFailed? {
      return SERVER_ERROR, true, None;
    }
    var body := Prescription(form.patientId, caller, form.appointmentId, form.medications,
                             form.notes, upload.url, None);
    var id := prescriptions.Create(body);
    code, uploadRequested, prescription := CREATED, true, Some(Doc(id, body));
  }
}
