/** The Appointment record: its fields, the status enum its schema declares,
    and the defaults a new record receives. */
module AppointmentModel {
  import opened Common
  import Store

  /** Every status a stored appointment can carry. Cancelled is written by the
      cancel handler but is not among the values the schema's enum lists. */
  datatype Status = Pending | Accepted | Rejected | Completed | Cancelled

  /** The payment states the payment handlers write ('Pending' and 'Paid'). */
  datatype PaymentStatus = PaymentPending | Paid

  function StatusName(s: Status): string {
    match s
    case Pending => "Pending"
    case Accepted => "Accepted"
    case Rejected => "Rejected"
    case Completed => "Completed"
    case Cancelled => "Cancelled"
  }

  /** The request string naming a status, if it names one. */
  function ParseStatus(name: string): (r: Option<Status>)
    ensures r.Some? ==> StatusName(r.value) == name
    ensures r.None? ==> forall s :: StatusName(s) != name
  {
    if name == "Pending" then Some(Pending)
    else if name == "Accepted" then Some(Accepted)
    else if name == "Rejected" then Some(Rejected)
    else if name == "Completed" then Some(Completed)
    else if name == "Cancelled" then Some(Cancelled)
    else None
  }

  lemma StatusNameRoundTrip(s: Status)
    ensures ParseStatus(StatusName(s)) == Some(s)
  {
  }

  /** The values of the schema's status enum. */
  const SchemaStatusNames: seq<string> := ["Pending", "Accepted", "Rejected", "Completed"]

  predicate InSchemaEnum(s: Status) {
    StatusName(s) in SchemaStatusNames
  }

  /** The schema admits exactly four of the five statuses; the one the cancel
      handler writes is the one it leaves out. */
  lemma SchemaEnumOmitsCancelled()
    ensures forall s :: InSchemaEnum(s) <==> s != Cancelled
    ensures !InSchemaEnum(Cancelled)
  {
    assert "Cancelled"[1] != "Completed"[1];
    assert "Cancelled" !in SchemaStatusNames;
  }

  datatype Appointment = Appointment(
    patientId: Id,
    doctorId: Id,
    appointmentDate: Option<int>,  // milliseconds since the epoch, if given
    appointmentTime: string,       // free text such as "10:00 AM"; there is no slot catalog
    department: Option<string>,
    status: Status,
    hasVisited: bool,
    meetingLink: string,
    createdAt: int,                // set by the store's timestamps option
    razorpayOrderId: Option<string>,
    amount: Option<nat>,
    paymentStatus: Option<PaymentStatus>,
    razorpayPaymentId: Option<string>,
    razorpaySignature: Option<string>)

  /** A freshly created appointment: the given fields, and the schema defaults
      (status Pending, hasVisited false, meetingLink empty) for the rest. */
  function NewAppointment(patientId: Id, doctorId: Id, date: Option<int>, time: string,
                          department: Option<string>, now: int): (a: Appointment)
    ensures a.status == Pending && InSchemaEnum(a.status)
    ensures !a.hasVisited && a.meetingLink == ""
    ensures a.patientId == patientId && a.doctorId == doctorId && a.appointmentDate == date
    ensures a.appointmentTime == time && a.department == department && a.createdAt == now
    ensures a.razorpayOrderId.None? && a.amount.None? && a.paymentStatus.None?
    ensures a.razorpayPaymentId.None? && a.razorpaySignature.None?
  {
    Appointment(patientId, doctorId, date, time, department, Pending, false, "", now,
                None, None, None, None, None)
  }

  /** The appointment collection's documents, in natural order. */
  type Table = seq<Store.Doc<Appointment>>

  function AppointmentDateKey(a: Appointment): Option<int> {
    a.appointmentDate
  }
}
