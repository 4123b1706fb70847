/** The appointment collection under any sequence of requests: booking,
    cancellation, status updates, order creation and payment verification.
    Whatever the order of requests, ids stay unique and an appointment is
    Paid only with a signature that checks. */
module Lifecycle {
  import opened Common
  import opened Store
  import opened AppointmentModel
  import AC = AppointmentController
  import PC = PaymentController


  /** One request against the appointment collection, with what its handler
      takes as input. */
  datatype Request =
    | Book(caller: Id, form: AC.BookingForm, bookedAt: int)
    | Cancel(id: Id, caller: Id)
    | UpdateStatus(id: Id, caller: Id, requested: string)
    | CreateOrder(amount: nat, appointmentId: Option<string>, orderedAt: nat, gateway: PC.GatewayReply)
    | Verify(orderId: string, paymentId: string, signature: string)

  /** The collection after one request's handler has run. */
  function Apply(t: Table, req: Request, hmac: PC.Hmac, secret: string): Table {
    match req
    case Book(caller, form, now) => AC.BookStep(t, caller, form, now).docs
    case Cancel(id, caller) => AC.CancelStep(t, id, caller).docs
    case UpdateStatus(id, caller, requested) => AC.UpdateStatusStep(t, id, caller, requested).docs
    case CreateOrder(amount, appointmentId, now, gateway) =>
      PC.CreateOrderStep(t, amount, appointmentId, now, gateway).docs
    case Verify(orderId, paymentId, signature) =>
      PC.VerifyStep(t, orderId, paymentId, signature, hmac, secret).docs
  }

  /** The collection after the requests, in order. */
  function Run(t: Table, reqs: seq<Request>, hmac: PC.Hmac, secret: string): Table
    decreases |reqs|
  {
    if |reqs| == 0 then t else Run(Apply(t, reqs[0], hmac, secret), reqs[1..], hmac, secret)
  }

  predicate Invariant(t: Table, hmac: PC.Hmac, secret: string) {
    UniqueIds(t) && PC.PaidIsVerified(t, hmac, secret)
  }

  /** A booking appends an appointment with no payment. */
  lemma BookKeepsPaidVerified(t: Table, caller: Id, form: AC.BookingForm, now: int,
                              hmac: PC.Hmac, secret: string)
    requires PC.PaidIsVerified(t, hmac, secret)
    ensures PC.PaidIsVerified(AC.BookStep(t, caller, form, now).docs, hmac, secret)
  {
    var r := AC.BookStep(t, caller, form, now);
    assert r.docs[|t|].body.paymentStatus.None?;
    forall j | 0 <= j < |t| ensures r.docs[j] == t[j] {
      assert r.docs[j] == r.docs[..|t|][j];
    }
  }

  /** Cancelling writes the status only; the payment fields stay. */
  lemma CancelKeepsPaidVerified(t: Table, id: Id, caller: Id, hmac: PC.Hmac, secret: string)
    requires PC.PaidIsVerified(t, hmac, secret)
    ensures PC.PaidIsVerified(AC.CancelStep(t, id, caller).docs, hmac, secret)
  {
    var r := AC.CancelStep(t, id, caller);
    if r.code == OK {
      var i := IndexOf(t, id).value;
      forall j | 0 <= j < |r.docs| && r.docs[j].body.paymentStatus == Some(Paid)
        ensures r.docs[j].body.(status := t[j].body.status) == t[j].body
      {
      }
    }
  }

  /** A status update writes the status only; the payment fields stay. */
  lemma UpdateStatusKeepsPaidVerified(t: Table, id: Id, caller: Id, requested: string,
                                      hmac: PC.Hmac, secret: string)
    requires PC.PaidIsVerified(t, hmac, secret)
    ensures PC.PaidIsVerified(AC.UpdateStatusStep(t, id, caller, requested).docs, hmac, secret)
  {
    var r := AC.UpdateStatusStep(t, id, caller, requested);
    if r.code == OK {
      forall j | 0 <= j < |r.docs| && r.docs[j].body.paymentStatus == Some(Paid)
        ensures r.docs[j].body.(status := t[j].body.status) == t[j].body
      {
      }
    }
  }

  /** Booking, cancelling and status updates keep the invariant. */
  lemma AppointmentRequestKeepsInvariant(t: Table, req: Request, hmac: PC.Hmac, secret: string)
    requires Invariant(t, hmac, secret)
    requires req.Book? || req.Cancel? || req.UpdateStatus?
    ensures Invariant(Apply(t, req, hmac, secret), hmac, secret)
  {
    match req
    case Book(caller, form, now) =>
      BookKeepsPaidVerified(t, caller, form, now, hmac, secret);
    case Cancel(id, caller) =>
      CancelKeepsPaidVerified(t, id, caller, hmac, secret);
    case UpdateStatus(id, caller, requested) =>
      UpdateStatusKeepsPaidVerified(t, id, caller, requested, hmac, secret);
  }

  /** Creating an order and verifying a payment keep the invariant. */
  lemma PaymentRequestKeepsInvariant(t: Table, req: Request, hmac: PC.Hmac, secret: string)
    requires Invariant(t, hmac, secret)
    requires req.CreateOrder? || req.Verify?
    ensures Invariant(Apply(t, req, hmac, secret), hmac, secret)
  {
    match req
    case CreateOrder(amount, appointmentId, now, gateway) =>
      PC.CreateOrderKeepsPaidVerified(t, amount, appointmentId, now, gateway, hmac, secret);
    case Verify(orderId, paymentId, signature) =>
      PC.VerifyKeepsPaidVerified(t, orderId, paymentId, signature, hmac, secret);
  }

  lemma ApplyKeepsInvariant(t: Table, req: Request, hmac: PC.Hmac, secret: string)
    requires Invariant(t, hmac, secret)
    ensures Invariant(Apply(t, req, hmac, secret), hmac, secret)
  {
    if req.Book? || req.Cancel? || req.UpdateStatus? {
      AppointmentRequestKeepsInvariant(t, req, hmac, secret);
    } else {
      PaymentRequestKeepsInvariant(t, req, hmac, secret);
    }
  }

  /** From any collection that satisfies the invariant (the empty one, say),
      every sequence of requests leads to one that still does. */
  lemma {:induction false} RunKeepsInvariant(t: Table, reqs: seq<Request>, hmac: PC.Hmac, secret: string)
    requires Invariant(t, hmac, secret)
    ensures Invariant(Run(t, reqs, hmac, secret), hmac, secret)
    decreases |reqs|
  {
    if |reqs| > 0 {
      ApplyKeepsInvariant(t, reqs[0], hmac, secret);
      RunKeepsInvariant(Apply(t, reqs[0], hmac, secret), reqs[1..], hmac, secret);
    }
  }

  /** In particular, a Paid appointment in any reachable collection carries a
      signature equal to the HMAC of its order id and payment id. */
  lemma ReachablePaidIsVerified(reqs: seq<Request>, hmac: PC.Hmac, secret: string, j: nat)
    requires j < |Run([], reqs, hmac, secret)|
    requires Run([], reqs, hmac, secret)[j].body.paymentStatus == Some(Paid)
    ensures var a := Run([], reqs, hmac, secret)[j].body;
      && a.razorpayOrderId.Some? && a.razorpayPaymentId.Some?
      && a.razorpaySignature == Some(PC.ExpectedSignature(hmac, secret, a.razorpayOrderId.value,
                                                           a.razorpayPaymentId.value))
  {
    RunKeepsInvariant([], reqs, hmac, secret);
  }
}
