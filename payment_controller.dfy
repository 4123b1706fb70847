/** The payment handshake with the gateway: creating an order for an
    appointment, then verifying the gateway's signed confirmation. The
    gateway's reply, the clock and HMAC-SHA256 (RFC 2104 over FIPS 180-4
    SHA-256, hex digest) are inputs. */
module PaymentController {
  import opened Common
  import opened Store
  import opened AppointmentModel


  // ---------------------------------------------------------------------------
  // Order creation

  /** The options object sent to the gateway's orders.create. */
  datatype OrderOptions = OrderOptions(amount: nat, currency: string, receipt: string,
                                       notesAppointmentId: string)

  /** What the gateway answered: the new order's id, or a thrown error. */
  datatype GatewayReply = OrderCreated(orderId: string) | GatewayError

  /** The id check: absent, empty, or the literal text "undefined". */
  predicate MissingId(appointmentId: Option<string>) {
    appointmentId.None? || appointmentId.value == "" || appointmentId.value == "undefined"
  }

  /** String.prototype.slice(-8): the last eight characters, or all of a
      shorter string. */
  function Last8(s: string): (r: string)
    ensures |r| == if |s| < 8 then |s| else 8
    ensures s == s[..|s| - |r|] + r
  {
    if |s| <= 8 then s else s[|s| - 8..]
  }

  /** The receipt: "apt_", the id's last eight characters, "_", the timestamp. */
  function Receipt(appointmentId: string, now: nat): (r: string)
    ensures |r| == 5 + |Last8(appointmentId)| + |NatToString(now)|
    ensures r[..4] == "apt_" && r[4..4 + |Last8(appointmentId)|] == Last8(appointmentId)
    ensures r[4 + |Last8(appointmentId)|] == '_' && r[5 + |Last8(appointmentId)|..] == NatToString(now)
  {
    var tail := Last8(appointmentId);
    var r := "apt_" + tail + "_" + NatToString(now);
    assert r == "apt_" + (tail + ("_" + NatToString(now)));
    assert r[4..] == tail + ("_" + NatToString(now));
    assert r[4..][..|tail|] == tail;
    assert r[5 + |tail|..] == r[4..][|tail|..][1..];
    r
  }

  /** Receipts for the same appointment made at different times differ. */
  lemma ReceiptsAreTimeSalted(appointmentId: string, t1: nat, t2: nat)
    requires t1 != t2
    ensures Receipt(appointmentId, t1) != Receipt(appointmentId, t2)
  {
    var n := 5 + |Last8(appointmentId)|;
    if Receipt(appointmentId, t1) == Receipt(appointmentId, t2) {
      assert NatToString(t1) == Receipt(appointmentId, t1)[n..] == NatToString(t2);
      NatToStringInjective(t1, t2);
    }
  }

  /** The order requested for an amount in rupees: the amount in paise (the
      smallest unit of INR), and the receipt. */
  function OrderOptionsFor(amount: nat, appointmentId: string, now: nat): (o: OrderOptions)
    ensures o.amount == amount * 100 && o.currency == "INR"
    ensures o.receipt == Receipt(appointmentId, now) && o.notesAppointmentId == appointmentId
  {
    OrderOptions(amount * 100, "INR", Receipt(appointmentId, now), appointmentId)
  }

  /** What createOrder answers: the status code, the options it sent to the
      gateway (None when it made no call), the updated appointment (None when
      no appointment has that id), and the collection afterwards. */
  datatype OrderReply = OrderReply(code: nat, request: Option<OrderOptions>,
                                   appointment: Option<Doc<Appointment>>, docs: Table)

  /** The fields findByIdAndUpdate writes once the gateway has created the
      order: its id, the amount as supplied (not in paise), and Pending. */
  function WithOrder(a: Appointment, orderId: string, amount: nat): (b: Appointment)
    ensures b.razorpayOrderId == Some(orderId) && b.amount == Some(amount)
    ensures b.paymentStatus == Some(PaymentPending)
    ensures b.(razorpayOrderId := a.razorpayOrderId, amount := a.amount, paymentStatus := a.paymentStatus) == a
  {
    a.(razorpayOrderId := Some(orderId), amount := Some(amount), paymentStatus := Some(PaymentPending))
  }

  /** createOrder: a missing id is refused (400) with no gateway call; then
      the order is requested; a gateway failure answers 500 with the
      collection untouched; otherwise 200, with the appointment of that id, if
      there is one, carrying the new order, whatever it held before. */
  function CreateOrderStep(t: Table, amount: nat, appointmentId: Option<string>, now: nat,
                           gateway: GatewayReply): (r: OrderReply)
    ensures MissingId(appointmentId) ==> r == OrderReply(BAD_REQUEST, None, None, t)
    ensures !MissingId(appointmentId) ==>
      r.request == Some(OrderOptionsFor(amount, appointmentId.value, now))
    ensures !MissingId(appointmentId) && gateway.GatewayError? ==>
      r.code == SERVER_ERROR && r.docs == t && r.appointment.None?
    ensures !MissingId(appointmentId) && gateway.OrderCreated? ==> r.code == OK
    ensures !MissingId(appointmentId) && gateway.OrderCreated? && IndexOf(t, appointmentId.value).None? ==>
      r.docs == t && r.appointment.None?
    ensures !MissingId(appointmentId) && gateway.OrderCreated? && IndexOf(t, appointmentId.value).Some? ==>
      var i := IndexOf(t, appointmentId.value).value;
      && r.docs == t[i := Doc(t[i].id, WithOrder(t[i].body, gateway.orderId, amount))]
      && r.appointment == Some(r.docs[i])
    ensures r.code == OK || r.docs == t
  {
    if MissingId(appointmentId) then OrderReply(BAD_REQUEST, None, None, t)
    else
      var id := appointmentId.value;
      var options := OrderOptionsFor(amount, id, now);
      match gateway
      case GatewayError => OrderReply(SERVER_ERROR, Some(options), None, t)
      case OrderCreated(orderId) =>
        match IndexOf(t, id)
        case None => OrderReply(OK, Some(options), None, t)
        case Some(i) =>
          var docs := t[i := Doc(t[i].id, WithOrder(t[i].body, orderId, amount))];
          OrderReply(OK, Some(options), Some(docs[i]), docs)
  }

  method CreateOrder(apts: Collection<Appointment>, amount: nat, appointmentId: Option<string>,
                     now: nat, gateway: GatewayReply)
    returns (code: nat, request: Option<OrderOptions>, appointment: Option<Doc<Appointment>>)
    requires apts.Valid()
    modifies apts
    ensures apts.Valid()
    ensures OrderReply(code, request, appointment, apts.docs)
         == CreateOrderStep(old(apts.docs), amount, appointmentId, now, gateway)
  {
    if MissingId(appointmentId) {
      return BAD_REQUEST, None, None;
    }
    var id := appointmentId.value;
    var options := OrderOptionsFor(amount, id, now);
    request := Some(options);
    if gateway.GatewayError? {
      return SERVER_ERROR, request, None;
    }
    var found := IndexOf(apts.docs, id);
    if found.None? {
      return OK, request, None;
    }
    var i := found.value;
    apts.Save(i, WithOrder(apts.docs[i].body, gateway.orderId, amount));
    code, appointment := OK, Some(apts.docs[i]);
  }

  // ---------------------------------------------------------------------------
  // Payment verification

  /** HMAC-SHA256 of a message under a key, as a hex string. */
  type Hmac = (string, string) -> string

  /** The signature the gateway is expected to send for an order and payment. */
  function ExpectedSignature(hmac: Hmac, secret: string, orderId: string, paymentId: string): string {
    hmac(secret, orderId + "|" + paymentId)
  }

  /** findOne({ razorpayOrderId }): the first appointment holding that order. */
  function FindByOrderId(t: Table, orderId: string): (r: Option<nat>)
    ensures r.Some? ==> r.value < |t| && t[r.value].body.razorpayOrderId == Some(orderId)
    ensures r.Some? ==> forall j :: 0 <= j < r.value ==> t[j].body.razorpayOrderId != Some(orderId)
    ensures r.None? <==> forall j :: 0 <= j < |t| ==> t[j].body.razorpayOrderId != Some(orderId)
  {
    FindFirst(t, (d: Doc<Appointment>) => d.body.razorpayOrderId == Some(orderId))
  }

  /** The fields a verified payment writes. */
  function WithPayment(a: Appointment, paymentId: string, signature: string): (b: Appointment)
    ensures b.paymentStatus == Some(Paid)
    ensures b.razorpayPaymentId == Some(paymentId) && b.razorpaySignature == Some(signature)
    ensures b.(paymentStatus := a.paymentStatus, razorpayPaymentId := a.razorpayPaymentId,
               razorpaySignature := a.razorpaySignature) == a
  {
    a.(paymentStatus := Some(Paid), razorpayPaymentId := Some(paymentId), razorpaySignature := Some(signature))
  }

  /** verifyPayment: no appointment holds the order (404); the signature is
      not the HMAC of "orderId|paymentId" (400); either way nothing changes.
      Otherwise the appointment becomes Paid and keeps the payment id and
      signature. */
  function VerifyStep(t: Table, orderId: string, paymentId: string, signature: string,
                      hmac: Hmac, secret: string): (r: Reply<Appointment>)
    ensures FindByOrderId(t, orderId).None? ==> r == Reply(NOT_FOUND, t)
    ensures FindByOrderId(t, orderId).Some? && signature != ExpectedSignature(hmac, secret, orderId, paymentId) ==>
      r == Reply(BAD_REQUEST, t)
    ensures r.code == OK <==>
      FindByOrderId(t, orderId).Some? && signature == ExpectedSignature(hmac, secret, orderId, paymentId)
    ensures r.code == OK ==> var i := FindByOrderId(t, orderId).value;
      r.docs == t[i := Doc(t[i].id, WithPayment(t[i].body, paymentId, signature))]
  {
    match FindByOrderId(t, orderId)
    case None => Reply(NOT_FOUND, t)
    case Some(i) =>
      if ExpectedSignature(hmac, secret, orderId, paymentId) != signature then Reply(BAD_REQUEST, t)
      else Reply(OK, t[i := Doc(t[i].id, WithPayment(t[i].body, paymentId, signature))])
  }

  method VerifyPayment(apts: Collection<Appointment>, orderId: string, paymentId: string,
                       signature: string, hmac: Hmac, secret: string)
    returns (code: nat)
    requires apts.Valid()
    modifies apts
    ensures apts.Valid()
    ensures Reply(code, apts.docs) == VerifyStep(old(apts.docs), orderId, paymentId, signature, hmac, secret)
  {
    var found := FindByOrderId(apts.docs, orderId);
    if found.None? {
      return NOT_FOUND;
    }
    var i := found.value;
    var sign := ExpectedSignature(hmac, secret, orderId, paymentId);
    if sign != signature {
      return BAD_REQUEST;
    }
    apts.Save(i, WithPayment(apts.docs[i].body, paymentId, signature));
    code := OK;
  }

  /** Nothing guards a second verification: repeating a successful one finds
      the same appointment and leaves it as the first left it. */
  lemma VerifyIsIdempotent(t: Table, orderId: string, paymentId: string, signature: string,
                           hmac: Hmac, secret: string)
    ensures var once := VerifyStep(t, orderId, paymentId, signature, hmac, secret);
      VerifyStep(once.docs, orderId, paymentId, signature, hmac, secret) == once
  {
    var once := VerifyStep(t, orderId, paymentId, signature, hmac, secret);
    if once.code == OK {
      var i := FindByOrderId(t, orderId).value;
      var p := (d: Doc<Appointment>) => d.body.razorpayOrderId == Some(orderId);
      FindFirstAfterSave(t, i, WithPayment(t[i].body, paymentId, signature), p);
      assert FindByOrderId(once.docs, orderId) == Some(i);
      assert once.docs[i].body == WithPayment(t[i].body, paymentId, signature);
      assert WithPayment(once.docs[i].body, paymentId, signature) == once.docs[i].body;
      assert once.docs[i := Doc(once.docs[i].id, once.docs[i].body)] == once.docs;
    }
  }

  /** Every Paid appointment holds a payment id and a signature that is the
      HMAC of its order id and that payment id. */
  predicate PaidIsVerified(t: Table, hmac: Hmac, secret: string) {
    forall i :: 0 <= i < |t| && t[i].body.paymentStatus == Some(Paid) ==>
      && t[i].body.razorpayOrderId.Some? && t[i].body.razorpayPaymentId.Some?
      && t[i].body.razorpaySignature
         == Some(ExpectedSignature(hmac, secret, t[i].body.razorpayOrderId.value, t[i].body.razorpayPaymentId.value))
  }

  /** Nothing guards order creation: a successful createOrder on an
      appointment that is already Paid sets it back to Pending. */
  lemma CreateOrderResetsPaid(t: Table, amount: nat, id: string, now: nat, orderId: string)
    requires !MissingId(Some(id))
    requires IndexOf(t, id).Some? && t[IndexOf(t, id).value].body.paymentStatus == Some(Paid)
    ensures var r := CreateOrderStep(t, amount, Some(id), now, OrderCreated(orderId));
      && r.code == OK
      && r.docs[IndexOf(t, id).value].body.paymentStatus == Some(PaymentPending)
  {
  }

  lemma CreateOrderKeepsPaidVerified(t: Table, amount: nat, appointmentId: Option<string>, now: nat,
                                     gateway: GatewayReply, hmac: Hmac, secret: string)
    requires PaidIsVerified(t, hmac, secret)
    ensures PaidIsVerified(CreateOrderStep(t, amount, appointmentId, now, gateway).docs, hmac, secret)
  {
    var r := CreateOrderStep(t, amount, appointmentId, now, gateway);
    if !MissingId(appointmentId) && gateway.OrderCreated? && IndexOf(t, appointmentId.value).Some? {
      var i := IndexOf(t, appointmentId.value).value;
      assert r.docs == t[i := Doc(t[i].id, WithOrder(t[i].body, gateway.orderId, amount))];
      forall j | 0 <= j < |r.docs| && r.docs[j].body.paymentStatus == Some(Paid)
        ensures r.docs[j] == t[j]
      {
        assert j != i;
      }
    } else {
      assert r.docs == t;
    }
  }

  lemma VerifyKeepsPaidVerified(t: Table, orderId: string, paymentId: string, signature: string,
                                hmac: Hmac, secret: string)
    requires PaidIsVerified(t, hmac, secret)
    ensures PaidIsVerified(VerifyStep(t, orderId, paymentId, signature, hmac, secret).docs, hmac, secret)
  {
  }
}
