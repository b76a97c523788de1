/**
 * The Stripe webhook endpoint (`POST`): a signature gate, a dispatch on the
 * event type, the construction of an order from a completed checkout
 * session, and the mapping of the store's outcome to an HTTP response.
 *
 * The signature check is an oracle: the handler receives `Some(event)` when
 * the Stripe library accepted the body, signature header and secret, and
 * `None` when it threw. The store's `createOrder` is an outcome parameter.
 */
module StripeWebhook {
  import opened Wrappers
  import opened Money
  import opened Orders

  const CheckoutSessionCompleted := "checkout.session.completed"
  const SignatureFailedMessage := "Webhook signature verification failed"
  const OkMessage := "OK"
  const OrderFailedMessage := "Failed to create order"

  /** The fields of `event.data.object` the handler reads; the amount is in cents. */
  datatype CheckoutSession = CheckoutSession(
    id: string,
    amountTotal: Option<int>,
    metadata: Option<map<string, string>>)

  /** A verified event: its `type` string and its data object. */
  datatype StripeEvent = StripeEvent(eventType: string, session: CheckoutSession)

  /** What `createOrder` did with the order it was given: the stored record, or a thrown error. */
  datatype CreateOutcome = Created(record: Order) | CreateFailed

  /** The JSON response: status, `message`, and the `order` field when present. */
  datatype Response = Response(status: nat, message: string, order: Option<Order>)

  /** The response together with the order passed to `createOrder`, if it was called. */
  datatype Handled = Handled(response: Response, written: Option<Order>)

  /** `metadata?.[key] || ''`: the value, or "" when the metadata or the key is missing. */
  function MetadataField(metadata: Option<map<string, string>>, key: string): (v: string)
    ensures v != "" ==> metadata.Some? && key in metadata.value && metadata.value[key] == v
    ensures metadata.Some? && key in metadata.value ==> v == metadata.value[key]
  {
    if metadata.Some? && key in metadata.value then metadata.value[key] else ""
  }

  /** `amount_total ? (amount_total / 100).toString() : '0'`. */
  function TotalAmount(amountTotal: Option<int>): (s: string)
    ensures ParseMajor(s) == Some(amountTotal.GetOr(0))
    ensures CanonicalMajor(s)
    ensures amountTotal.None? || amountTotal == Some(0) ==> s == "0"
  {
    FormatCentsCanonical(0);
    FormatCentsRoundTrip(0);
    match amountTotal
    case None => "0"
    case Some(c) =>
      FormatCentsRoundTrip(c);
      FormatCentsCanonical(c);
      if c == 0 then "0" else FormatCents(c)
  }

  /**
   * The total is fully determined: being canonical and reading back as the
   * amount leave `(amount_total / 100).toString()` as the only possibility.
   */
  lemma TotalAmountDetermined(amountTotal: Option<int>)
    ensures TotalAmount(amountTotal) == FormatCents(amountTotal.GetOr(0))
  {
    CanonicalMajorUnique(TotalAmount(amountTotal), amountTotal.GetOr(0));
  }

  /** The order built from a completed checkout session at clock reading `now`. */
  function OrderFromSession(session: CheckoutSession, now: int): (o: Order)
    ensures o.stripeId == session.id
    ensures o.eventId == MetadataField(session.metadata, "eventId")
    ensures o.buyerId == MetadataField(session.metadata, "buyerId")
    ensures o.totalAmount == TotalAmount(session.amountTotal)
    ensures ParseMajor(o.totalAmount) == Some(session.amountTotal.GetOr(0)) && CanonicalMajor(o.totalAmount)
    ensures o.createdAt == now
  {
    Order(
      session.id,
      MetadataField(session.metadata, "eventId"),
      MetadataField(session.metadata, "buyerId"),
      TotalAmount(session.amountTotal),
      now)
  }

  /**
   * The handler. `verified` is the signature oracle's verdict, `now` the
   * clock, `create` what `createOrder` does if it is called.
   */
  function HandleWebhook(verified: Option<StripeEvent>, now: int, create: CreateOutcome): (h: Handled)
    // A failed signature check answers 400 and writes nothing.
    ensures verified.None? ==> h == Handled(Response(400, SignatureFailedMessage, None), None)
    // Any other event type is acknowledged and writes nothing.
    ensures verified.Some? && verified.value.eventType != CheckoutSessionCompleted ==>
      h == Handled(Response(200, OkMessage, None), None)
    // A completed checkout session is written exactly once, as built from the session.
    ensures verified.Some? && verified.value.eventType == CheckoutSessionCompleted ==>
      h.written == Some(OrderFromSession(verified.value.session, now))
    // The store's outcome decides the status.
    ensures h.written.Some? && create.Created? ==> h.response == Response(200, OkMessage, Some(create.record))
    ensures h.written.Some? && create.CreateFailed? ==> h.response == Response(500, OrderFailedMessage, None)
    // A write is attempted only for a verified completed checkout session.
    ensures h.written.Some? <==> verified.Some? && verified.value.eventType == CheckoutSessionCompleted
  {
    match verified
    case None => Handled(Response(400, SignatureFailedMessage, None), None)
    case Some(event) =>
      if event.eventType == CheckoutSessionCompleted then
        var order := OrderFromSession(event.session, now);
        match create
        case Created(record) => Handled(Response(200, OkMessage, Some(record)), Some(order))
        case CreateFailed => Handled(Response(500, OrderFailedMessage, None), Some(order))
      else
        Handled(Response(200, OkMessage, None), None)
  }

  /**
   * The webhook builds the same order as `createOrderData` of the order-data
   * test, with absent metadata read as "" and an absent amount as 0 cents.
   */
  lemma WebhookOrderMatchesCreateOrderData(session: CheckoutSession, now: int)
    ensures OrderFromSession(session, now) == CreateOrderData(
      session.id,
      MetadataField(session.metadata, "eventId"),
      MetadataField(session.metadata, "buyerId"),
      session.amountTotal.GetOr(0),
      now)
  {
  }

  /**
   * Missing metadata is not rejected: the order is still written, with ""
   * identifiers, and it is exactly such an order that the reference validator
   * turns down. The handler itself validates nothing.
   */
  lemma MissingMetadataStillWritten(id: string, amountTotal: Option<int>, now: int, create: CreateOutcome)
    ensures var h := HandleWebhook(Some(StripeEvent(CheckoutSessionCompleted, CheckoutSession(id, amountTotal, None))), now, create);
      && h.written.Some?
      && h.written.value.eventId == "" && h.written.value.buyerId == ""
      && (id != "" ==> ValidateOrderData(h.written.value) == Some(EventIdRequired))
  {
  }

  /**
   * A redelivered event is written again: the handler keeps no memory of
   * earlier deliveries and does not look up existing orders, so whatever
   * protects against duplicate orders must come from `createOrder`.
   */
  lemma RedeliveryWritesAgain(event: StripeEvent, now1: int, now2: int, c1: CreateOutcome, c2: CreateOutcome)
    requires event.eventType == CheckoutSessionCompleted
    ensures HandleWebhook(Some(event), now1, c1).written.Some?
    ensures HandleWebhook(Some(event), now2, c2).written.Some?
    ensures HandleWebhook(Some(event), now1, c1).written.value.stripeId
         == HandleWebhook(Some(event), now2, c2).written.value.stripeId
  {
  }

  /** The scenario of a paid checkout: 2500 cents, event E1, buyer U1. */
  lemma CompletedCheckoutScenario(now: int, record: Order)
    ensures var session := CheckoutSession("cs_1", Some(2500), Some(map["eventId" := "E1", "buyerId" := "U1"]));
      HandleWebhook(Some(StripeEvent(CheckoutSessionCompleted, session)), now, Created(record))
      == Handled(Response(200, OkMessage, Some(record)), Some(Order("cs_1", "E1", "U1", "25", now)))
  {
    FormatCentsExamples();
  }

  /** An ignored event type: 200, no write. */
  lemma IgnoredEventScenario(session: CheckoutSession, now: int, create: CreateOutcome)
    ensures HandleWebhook(Some(StripeEvent("payment_intent.created", session)), now, create)
         == Handled(Response(200, OkMessage, None), None)
  {
  }
}
