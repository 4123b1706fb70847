/** The appointment handlers: booking, cancellation by the patient, status
    updates by the doctor, and the two listings. The caller's id comes from the
    authentication middleware and is a parameter. */
module AppointmentController {
  import opened Common
  import opened Store
  import opened AppointmentModel
  import UserModel
  import DoctorModel


  // ---------------------------------------------------------------------------
  // Booking

  /** The fields bookAppointment takes from the request body. */
  datatype BookingForm = BookingForm(doctorId: Id, appointmentDate: Option<int>,
                                     appointmentTime: string, department: Option<string>)

  datatype BookReply = BookReply(code: nat, id: Id, docs: Table)

  /** Booking appends exactly one record, owned by the caller, with the
      requested fields and the schema defaults; nothing is checked first. */
  function BookStep(t: Table, caller: Id, form: BookingForm, now: int): (r: BookReply)
    ensures r.code == CREATED
    ensures |r.docs| == |t| + 1 && r.docs[..|t|] == t
    ensures r.docs[|t|].id == r.id && forall i :: 0 <= i < |t| ==> t[i].id != r.id
    ensures r.docs[|t|].body.patientId == caller && r.docs[|t|].body.doctorId == form.doctorId
    ensures r.docs[|t|].body.appointmentDate == form.appointmentDate
    ensures r.docs[|t|].body.appointmentTime == form.appointmentTime
    ensures r.docs[|t|].body.department == form.department
    ensures r.docs[|t|].body.status == Pending
    ensures r.docs[|t|].body == NewAppointment(caller, form.doctorId, form.appointmentDate,
                                               form.appointmentTime, form.department, now)
    ensures UniqueIds(t) ==> UniqueIds(r.docs)
  {
    var id := FreshId(t);
    BookReply(CREATED, id,
              t + [Doc(id, NewAppointment(caller, form.doctorId, form.appointmentDate,
                                          form.appointmentTime, form.department, now))])
  }

  method BookAppointment(apts: Collection<Appointment>, caller: Id, form: BookingForm, now: int)
    returns (code: nat, id: Id)
    requires apts.Valid()
    modifies apts
    ensures apts.Valid()
    ensures BookReply(code, id, apts.docs) == BookStep(old(apts.docs), caller, form, now)
  {
    id := apts.Create(NewAppointment(caller, form.doctorId, form.appointmentDate,
                                     form.appointmentTime, form.department, now));
    code := CREATED;
  }

  predicate SameSlot(a: Appointment, b: Appointment) {
    a.doctorId == b.doctorId && a.appointmentDate == b.appointmentDate
    && a.appointmentTime == b.appointmentTime
  }

  /** At most one live (not cancelled) appointment per doctor, date and time.
      This is the invariant a booking system is expected to keep; the booking
      handler does not enforce it. */
  predicate SlotsUnique(t: Table) {
    forall i, j :: 0 <= i < j < |t| && t[i].body.status != Cancelled && t[j].body.status != Cancelled
      ==> !SameSlot(t[i].body, t[j].body)
  }

  /** Booking a slot that a live appointment already holds still succeeds, and
      leaves two live appointments in that slot. */
  lemma BookingIgnoresTakenSlot(t: Table, caller: Id, form: BookingForm, now: int, k: nat)
    requires k < |t| && t[k].body.status != Cancelled
    requires t[k].body.doctorId == form.doctorId && t[k].body.appointmentDate == form.appointmentDate
    requires t[k].body.appointmentTime == form.appointmentTime
    ensures BookStep(t, caller, form, now).code == CREATED
    ensures !SlotsUnique(BookStep(t, caller, form, now).docs)
  {
    var r := BookStep(t, caller, form, now);
    assert r.docs[k] == r.docs[..|t|][k] == t[k];
    assert SameSlot(r.docs[k].body, r.docs[|t|].body);
  }

  // ---------------------------------------------------------------------------
  // Cancellation (patient)

  /** The statuses the cancel handler accepts. */
  predicate Cancellable(s: Status) {
    s == Accepted || s == Pending
  }

  /** cancelAppointment: not found (404), then not the caller's (403), then not
      in a cancellable status (400); otherwise the status, and nothing else,
      becomes Cancelled. Every failure leaves the collection as it was. */
  function CancelStep(t: Table, id: Id, caller: Id): (r: Reply<Appointment>)
    ensures r.code in {OK, BAD_REQUEST, FORBIDDEN, NOT_FOUND}
    ensures r.code == NOT_FOUND <==> IndexOf(t, id).None?
    ensures var f := IndexOf(t, id);
      r.code == FORBIDDEN <==> f.Some? && t[f.value].body.patientId != caller
    ensures var f := IndexOf(t, id);
      r.code == BAD_REQUEST <==>
        f.Some? && t[f.value].body.patientId == caller && !Cancellable(t[f.value].body.status)
    ensures r.code != OK ==> r.docs == t
    ensures r.code == OK ==> var i := IndexOf(t, id).value;
      r.docs == t[i := Doc(id, t[i].body.(status := Cancelled))]
  {
    match IndexOf(t, id)
    case None => Reply(NOT_FOUND, t)
    case Some(i) =>
      if t[i].body.patientId != caller then Reply(FORBIDDEN, t)
      else if Cancellable(t[i].body.status) then
        Reply(OK, t[i := Doc(id, t[i].body.(status := Cancelled))])
      else Reply(BAD_REQUEST, t)
  }

  method CancelAppointment(apts: Collection<Appointment>, id: Id, caller: Id) returns (code: nat)
    requires apts.Valid()
    modifies apts
    ensures apts.Valid()
    ensures Reply(code, apts.docs) == CancelStep(old(apts.docs), id, caller)
  {
    var found := IndexOf(apts.docs, id);
    if found.None? {
      return NOT_FOUND;
    }
    var i := found.value;
    var appointment := apts.docs[i].body;
    if appointment.patientId != caller {
      return FORBIDDEN;
    }
    if Cancellable(appointment.status) {
      apts.Save(i, appointment.(status := Cancelled));
      code := OK;
    } else {
      code := BAD_REQUEST;
    }
  }

  /** A successful cancellation stores a status the schema's enum does not
      list. */
  lemma CancelWritesStatusOutsideSchema(t: Table, id: Id, caller: Id)
    requires CancelStep(t, id, caller).code == OK
    ensures var i := IndexOf(t, id).value;
      !InSchemaEnum(CancelStep(t, id, caller).docs[i].body.status)
  {
    SchemaEnumOmitsCancelled();
  }

  // ---------------------------------------------------------------------------
  // Status update (doctor)

  /** The allow-list the status handler checks the requested string against. */
  const AllowedStatusNames: seq<string> := ["Pending", "Accepted", "Rejected", "Completed"]

  /** updateAppointmentStatus: a string outside the allow-list is refused
      (400) before any lookup; then not found (404), then not the caller's
      appointment (403); otherwise the status becomes exactly the requested
      one, whatever it was before. */
  function UpdateStatusStep(t: Table, id: Id, caller: Id, requested: string): (r: Reply<Appointment>)
    ensures requested !in AllowedStatusNames ==> r == Reply(BAD_REQUEST, t)
    ensures requested in AllowedStatusNames ==> (r.code == NOT_FOUND <==> IndexOf(t, id).None?)
    ensures var f := IndexOf(t, id);
      requested in AllowedStatusNames ==>
        (r.code == FORBIDDEN <==> f.Some? && t[f.value].body.doctorId != caller)
    ensures var f := IndexOf(t, id);
      r.code == OK <==> requested in AllowedStatusNames && f.Some? && t[f.value].body.doctorId == caller
    ensures r.code != OK ==> r.docs == t
    ensures r.code == OK ==> ParseStatus(requested).Some? && InSchemaEnum(ParseStatus(requested).value)
    ensures r.code == OK ==> var i := IndexOf(t, id).value;
      r.docs == t[i := Doc(id, t[i].body.(status := ParseStatus(requested).value))]
  {
    if requested !in AllowedStatusNames then Reply(BAD_REQUEST, t)
    else
      match IndexOf(t, id)
      case None => Reply(NOT_FOUND, t)
      case Some(i) =>
        if t[i].body.doctorId != caller then Reply(FORBIDDEN, t)
        else Reply(OK, t[i := Doc(id, t[i].body.(status := ParseStatus(requested).value))])
  }

  method UpdateAppointmentStatus(apts: Collection<Appointment>, id: Id, caller: Id, requested: string)
    returns (code: nat)
    requires apts.Valid()
    modifies apts
    ensures apts.Valid()
    ensures Reply(code, apts.docs) == UpdateStatusStep(old(apts.docs), id, caller, requested)
  {
    if requested !in AllowedStatusNames {
      return BAD_REQUEST;
    }
    var found := IndexOf(apts.docs, id);
    if found.None? {
      return NOT_FOUND;
    }
    var i := found.value;
    var appointment := apts.docs[i].body;
    if appointment.doctorId != caller {
      return FORBIDDEN;
    }
    apts.Save(i, appointment.(status := ParseStatus(requested).value));
    code := OK;
  }

  /** The allow-list is the schema's enum, so a doctor can set any of the
      four schema statuses. */
  lemma AllowListIsSchemaEnum(s: Status)
    ensures StatusName(s) in AllowedStatusNames <==> InSchemaEnum(s)
  {
  }

  /** There is no transition guard: the owning doctor can move an appointment
      from any status, Cancelled and Completed included, to any schema status. */
  lemma UpdateHasNoTransitionGuard(t: Table, id: Id, caller: Id, s: Status)
    requires IndexOf(t, id).Some? && t[IndexOf(t, id).value].body.doctorId == caller
    requires s != Cancelled
    ensures UpdateStatusStep(t, id, caller, StatusName(s)).code == OK
    ensures UpdateStatusStep(t, id, caller, StatusName(s)).docs[IndexOf(t, id).value].body.status == s
  {
    SchemaEnumOmitsCancelled();
    AllowListIsSchemaEnum(s);
    StatusNameRoundTrip(s);
  }

  /** A doctor cannot cancel: "Cancelled" is not on the allow-list. */
  lemma DoctorCannotCancel(t: Table, id: Id, caller: Id)
    ensures UpdateStatusStep(t, id, caller, "Cancelled") == Reply(BAD_REQUEST, t)
  {
    assert "Cancelled"[1] != "Completed"[1];
    assert "Cancelled" !in AllowedStatusNames;
  }

  // ---------------------------------------------------------------------------
  // Listings

  /** The patient fields populate("patientId", "firstName lastName email phone") keeps. */
  datatype PatientContact = PatientContact(id: Id, firstName: string, lastName: string,
                                           email: string, phone: string)

  /** A populated reference: null when no user has that id. */
  function PopulatePatient(users: seq<Doc<UserModel.User>>, pid: Id): (r: Option<PatientContact>)
    ensures r.None? <==> IndexOf(users, pid).None?
    ensures r.Some? ==> var u := users[IndexOf(users, pid).value].body;
      && r.value.id == pid && r.value.firstName == u.firstName && r.value.lastName == u.lastName
      && r.value.email == u.email && r.value.phone == u.phone
  {
    match IndexOf(users, pid)
    case None => None
    case Some(i) =>
      var u := users[i].body;
      Some(PatientContact(pid, u.firstName, u.lastName, u.email, u.phone))
  }

  datatype DoctorRow = DoctorRow(id: Id, appointment: Appointment, patient: Option<PatientContact>)

  datatype DoctorListing = DoctorListing(total: nat, rows: seq<DoctorRow>)

  function DoctorRowOf(users: seq<Doc<UserModel.User>>, d: Doc<Appointment>): DoctorRow {
    DoctorRow(d.id, d.body, PopulatePatient(users, d.body.patientId))
  }

  /** The appointment a listed row shows. */
  function RowDoc(row: DoctorRow): Doc<Appointment> {
    Doc(row.id, row.appointment)
  }

  function RowDocs(rows: seq<DoctorRow>): (s: seq<Doc<Appointment>>)
    ensures |s| == |rows| && forall k :: 0 <= k < |rows| ==> s[k] == RowDoc(rows[k])
  {
    seq(|rows|, k requires 0 <= k < |rows| => RowDoc(rows[k]))
  }

  /** find({ doctorId }): the doctor's appointments in natural order. */
  function AssignedTo(apts: Table, doctorId: Id): Table {
    Filter(apts, (a: Appointment) => a.doctorId == doctorId)
  }

  /** getDoctorAppointments: exactly the caller's appointments, latest date
      first, each with its patient populated. */
  function GetDoctorAppointments(apts: Table, users: seq<Doc<UserModel.User>>, doctorId: Id): (r: DoctorListing)
    ensures r.total == |r.rows| == |AssignedTo(apts, doctorId)|
    ensures multiset(RowDocs(r.rows)) == multiset(AssignedTo(apts, doctorId))
    ensures forall k :: 0 <= k < |r.rows| ==>
      Doc(r.rows[k].id, r.rows[k].appointment) in apts && r.rows[k].appointment.doctorId == doctorId
    ensures forall d :: d in apts && d.body.doctorId == doctorId ==> DoctorRowOf(users, d) in r.rows
    ensures forall k :: 0 <= k < |r.rows| ==>
      r.rows[k].patient == PopulatePatient(users, r.rows[k].appointment.patientId)
    ensures forall i, j :: 0 <= i < j < |r.rows| ==>
      KeyGe(r.rows[i].appointment.appointmentDate, r.rows[j].appointment.appointmentDate)
  {
    var own := AssignedTo(apts, doctorId);
    var s := SortByDesc(own, AppointmentDateKey);
    var rows := MapRows(s, (d: Doc<Appointment>) => DoctorRowOf(users, d));
    assert RowDocs(rows) == s;
    forall k | 0 <= k < |rows|
      ensures Doc(rows[k].id, rows[k].appointment) in apts && rows[k].appointment.doctorId == doctorId
    {
      assert rows[k] == DoctorRowOf(users, s[k]);
      assert s[k] in own;
    }
    forall i, j | 0 <= i < j < |rows|
      ensures KeyGe(rows[i].appointment.appointmentDate, rows[j].appointment.appointmentDate)
    {
      assert rows[i].appointment == s[i].body && rows[j].appointment == s[j].body;
      assert KeyGe(AppointmentDateKey(s[i].body), AppointmentDateKey(s[j].body));
    }
    forall d | d in apts && d.body.doctorId == doctorId ensures DoctorRowOf(users, d) in rows {
      assert d in own;
      assert d in s;
    }
    DoctorListing(|rows|, rows)
  }

  /** The row getAllAppointments builds for one appointment: names of the
      populated patient and doctor, the department, the date, time, status and
      creation time. The department is None where the reply leaves it
      undefined. */
  datatype AdminRow = AdminRow(id: Id, patientName: string, doctorName: string, department: Option<string>,
                               appointmentDate: Option<int>, appointmentTime: string,
                               status: Status, createdAt: int)

  /** The department as written: the appointment's own when non-empty;
      otherwise the populated doctor's, but populate selected only the first
      name, last name and email, so that field was never loaded and the
      value is undefined. */
  function DepartmentAsWritten(a: Appointment): (r: Option<string>)
    ensures r.Some? <==> a.department.Some? && a.department.value != ""
    ensures r.Some? ==> r == a.department
  {
    if a.department.Some? && a.department.value != "" then a.department else None
  }

  /** The department as evidently intended: the appointment's own when
      non-empty, otherwise the doctor's. */
  function DepartmentIntended(a: Appointment, doctor: DoctorModel.Doctor): (r: Option<string>)
    ensures r.Some?
    ensures a.department.Some? && a.department.value != "" ==> r == a.department
    ensures (a.department.None? || a.department.value == "") ==> r == Some(doctor.department)
  {
    if a.department.Some? && a.department.value != "" then a.department else Some(doctor.department)
  }

  /** An appointment booked without a department, for a doctor whose
      department is "Cardiology": the reply as written omits the department,
      the intended one shows "Cardiology". */
  lemma FallbackDepartmentIsNeverLoaded(a: Appointment, doctor: DoctorModel.Doctor)
    requires a.department == None && doctor.department == "Cardiology"
    ensures DepartmentAsWritten(a) == None
    ensures DepartmentIntended(a, doctor) == Some("Cardiology")
  {
  }

  /** The admin row for one appointment, None when either reference does not
      resolve, where the handler dereferences null and answers 500. The
      department is the one the handler as written sends. */
  function AdminRowOf(users: seq<Doc<UserModel.User>>, doctors: seq<Doc<DoctorModel.Doctor>>,
                      d: Doc<Appointment>): (r: Option<AdminRow>)
    ensures r.Some? <==> IndexOf(users, d.body.patientId).Some? && IndexOf(doctors, d.body.doctorId).Some?
    ensures r.Some? ==>
      && r.value.id == d.id && r.value.appointmentDate == d.body.appointmentDate
      && r.value.status == d.body.status && r.value.appointmentTime == d.body.appointmentTime
      && r.value.createdAt == d.body.createdAt
    ensures r.Some? ==> r.value.department == DepartmentAsWritten(d.body)
  {
    match (IndexOf(users, d.body.patientId), IndexOf(doctors, d.body.doctorId))
    case (Some(p), Some(q)) =>
      var patient := users[p].body;
      var doctor := doctors[q].body;
      Some(AdminRow(d.id, patient.firstName + " " + patient.lastName,
                    doctor.firstName + " " + doctor.lastName, DepartmentAsWritten(d.body),
                    d.body.appointmentDate, d.body.appointmentTime, d.body.status, d.body.createdAt))
    case _ => None
  }

  /** The admin row with the evidently intended department: the doctor's when
      the appointment has none. */
  function AdminRowIntended(users: seq<Doc<UserModel.User>>, doctors: seq<Doc<DoctorModel.Doctor>>,
                            d: Doc<Appointment>): (r: Option<AdminRow>)
    ensures r.Some? <==> AdminRowOf(users, doctors, d).Some?
    ensures r.Some? ==> r.value.department.Some?
    ensures r.Some? ==>
      r.value.department == DepartmentIntended(d.body, doctors[IndexOf(doctors, d.body.doctorId).value].body)
  {
    match IndexOf(doctors, d.body.doctorId)
    case None => None
    case Some(q) =>
      match AdminRowOf(users, doctors, d)
      case None => None
      case Some(row) => Some(row.(department := DepartmentIntended(d.body, doctors[q].body)))
  }

  /** The shipped row and the intended row differ in the department alone, and
      only for an appointment booked without one. */
  lemma AdminRowsDifferOnlyInDepartment(users: seq<Doc<UserModel.User>>,
                                        doctors: seq<Doc<DoctorModel.Doctor>>, d: Doc<Appointment>)
    requires AdminRowOf(users, doctors, d).Some?
    ensures var shipped := AdminRowOf(users, doctors, d).value;
      var intended := AdminRowIntended(users, doctors, d).value;
      && intended.(department := shipped.department) == shipped
      && (intended.department != shipped.department <==> d.body.department.None? || d.body.department.value == "")
  {
  }

  /** The admin row names the patient and the doctor by first and last name. */
  lemma AdminRowNames(users: seq<Doc<UserModel.User>>, doctors: seq<Doc<DoctorModel.Doctor>>,
                      d: Doc<Appointment>)
    requires IndexOf(users, d.body.patientId).Some? && IndexOf(doctors, d.body.doctorId).Some?
    ensures var patient := users[IndexOf(users, d.body.patientId).value].body;
      var doctor := doctors[IndexOf(doctors, d.body.doctorId).value].body;
      var r := AdminRowOf(users, doctors, d).value;
      && r.patientName == patient.firstName + " " + patient.lastName
      && r.doctorName == doctor.firstName + " " + doctor.lastName
  {
  }

  datatype AdminListing = AdminListing(total: nat, rows: seq<AdminRow>) | ListingFailed

  /** The empty filter of Appointment.find(). */
  predicate AnyAppointment(a: Appointment) {
    true
  }

  /** The projection getAllAppointments maps over the query result. */
  function AdminRowFor(users: seq<Doc<UserModel.User>>, doctors: seq<Doc<DoctorModel.Doctor>>)
    : Doc<Appointment> -> Option<AdminRow>
  {
    (d: Doc<Appointment>) => AdminRowOf(users, doctors, d)
  }

  /** Appointment.find().sort({ appointmentDate: -1 }) and the admin row of
      each result. */
  function AllAppointmentsQuery(apts: Table, users: seq<Doc<UserModel.User>>,
                                doctors: seq<Doc<DoctorModel.Doctor>>): (r: QueryResult<Appointment, AdminRow>)
    ensures |r.docs| == |apts| && (r.rows.Some? ==> |r.rows.value| == |apts|)
    ensures multiset(r.docs) == multiset(apts)
  {
    QueryPermutesMatches(apts, AnyAppointment, AppointmentDateKey, AdminRowFor(users, doctors));
    Query(apts, AnyAppointment, AppointmentDateKey, AdminRowFor(users, doctors))
  }

  /** getAllAppointments: one row per appointment, latest date first; a
      server error when any appointment's patient or doctor is missing. */
  function GetAllAppointments(apts: Table, users: seq<Doc<UserModel.User>>,
                              doctors: seq<Doc<DoctorModel.Doctor>>): (r: AdminListing)
    ensures r.ListingFailed? <==> exists d :: d in apts && AdminRowOf(users, doctors, d).None?
    ensures r.AdminListing? ==> r.total == |r.rows| == |apts|
    ensures r.AdminListing? ==> forall i, j :: 0 <= i < j < |r.rows| ==>
      KeyGe(r.rows[i].appointmentDate, r.rows[j].appointmentDate)
  {
    var q := AllAppointmentsQuery(apts, users, doctors);
    match q.rows
    case None =>
      ListingFailed
    case Some(rows) =>
      forall i, j | 0 <= i < j < |rows| ensures KeyGe(rows[i].appointmentDate, rows[j].appointmentDate) {
        assert KeyGe(AppointmentDateKey(q.docs[i].body), AppointmentDateKey(q.docs[j].body));
      }
      AdminListing(|rows|, rows)
  }

  /** The admin listing covers every appointment, and each row is the row of
      one of them. */
  lemma AllAppointmentsListed(apts: Table, users: seq<Doc<UserModel.User>>,
                              doctors: seq<Doc<DoctorModel.Doctor>>)
    requires GetAllAppointments(apts, users, doctors).AdminListing?
    ensures var rows := GetAllAppointments(apts, users, doctors).rows;
      && (forall d :: d in apts ==>
            AdminRowOf(users, doctors, d).Some? && AdminRowOf(users, doctors, d).value in rows)
      && (forall k :: 0 <= k < |rows| ==>
            exists d :: d in apts && AdminRowOf(users, doctors, d) == Some(rows[k]))
  {
    var row := AdminRowFor(users, doctors);
    assert GetAllAppointments(apts, users, doctors).rows == Query(apts, AnyAppointment, AppointmentDateKey, row).rows.value;
    var q := Query(apts, AnyAppointment, AppointmentDateKey, row);
    var rows := GetAllAppointments(apts, users, doctors).rows;
    forall d | d in apts ensures AdminRowOf(users, doctors, d).Some? && AdminRowOf(users, doctors, d).value in rows {
      QueryCovers(apts, AnyAppointment, AppointmentDateKey, row, d);
      assert row(d) == AdminRowOf(users, doctors, d);
    }
    forall k | 0 <= k < |rows| ensures exists d :: d in apts && AdminRowOf(users, doctors, d) == Some(rows[k]) {
      QueryRowComesFromMatch(apts, AnyAppointment, AppointmentDateKey, row, k);
      assert row(q.docs[k]) == AdminRowOf(users, doctors, q.docs[k]);
    }
  }
}
