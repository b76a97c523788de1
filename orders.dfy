/**
 * The order record and the two reference helpers of the order-data test:
 * `createOrderData`, which assembles an order from its identifiers and an
 * amount in cents, and `validateOrderData`, which reports the first required
 * field that is empty.
 */
module Orders {
  import opened Wrappers
  import opened Money

  /** An order as handed to the store; `createdAt` is the clock reading (ms since the epoch). */
  datatype Order = Order(
    stripeId: string,
    eventId: string,
    buyerId: string,
    totalAmount: string,
    createdAt: int)

  const StripeIdRequired := "Stripe ID is required"
  const EventIdRequired := "Event ID is required"
  const BuyerIdRequired := "Buyer ID is required"
  const TotalAmountRequired := "Total amount is required"

  /**
   * `createOrderData(stripeId, eventId, buyerId, amount)`; `now` stands for
   * `new Date()`. The identifiers are copied, and the total is the exact
   * major-unit notation of the amount in cents.
   */
  function CreateOrderData(stripeId: string, eventId: string, buyerId: string, amount: int, now: int): (o: Order)
    ensures o.stripeId == stripeId && o.eventId == eventId && o.buyerId == buyerId
    ensures ParseMajor(o.totalAmount) == Some(amount) && CanonicalMajor(o.totalAmount)
    ensures o.totalAmount != ""
    ensures o.createdAt == now
  {
    FormatCentsRoundTrip(amount);
    FormatCentsCanonical(amount);
    Order(stripeId, eventId, buyerId, FormatCents(amount), now)
  }

  /** The message of every empty field, in the order the validator checks them. */
  function MissingFieldMessages(o: Order): seq<string>
  {
    (if o.stripeId == "" then [StripeIdRequired] else [])
    + (if o.eventId == "" then [EventIdRequired] else [])
    + (if o.buyerId == "" then [BuyerIdRequired] else [])
    + (if o.totalAmount == "" then [TotalAmountRequired] else [])
  }

  /**
   * `validateOrderData`: `None` for JavaScript's `null`, otherwise the message
   * for the first empty field, checked in the order stripeId, eventId,
   * buyerId, totalAmount. A field the object lacks reads as "" here.
   */
  function ValidateOrderData(o: Order): (r: Option<string>)
    ensures r == None <==> o.stripeId != "" && o.eventId != "" && o.buyerId != "" && o.totalAmount != ""
    ensures var missing := MissingFieldMessages(o);
      r == if missing == [] then None else Some(missing[0])
  {
    if o.stripeId == "" then Some(StripeIdRequired)
    else if o.eventId == "" then Some(EventIdRequired)
    else if o.buyerId == "" then Some(BuyerIdRequired)
    else if o.totalAmount == "" then Some(TotalAmountRequired)
    else None
  }

  /** An order built by `createOrderData` passes validation exactly when its three identifiers are non-empty. */
  lemma CreatedOrderValidity(stripeId: string, eventId: string, buyerId: string, amount: int, now: int)
    ensures ValidateOrderData(CreateOrderData(stripeId, eventId, buyerId, amount, now)) == None
        <==> stripeId != "" && eventId != "" && buyerId != ""
  {
  }

  /** The assertions of the `createOrderData` test. */
  lemma CreateOrderDataExamples(now: int)
    ensures var o := CreateOrderData("cs_test_123", "event_123", "user_123", 2500, now);
      o.stripeId == "cs_test_123" && o.eventId == "event_123" && o.buyerId == "user_123" && o.totalAmount == "25"
    ensures CreateOrderData("cs_test", "event", "user", 1000, now).totalAmount == "10"
    ensures CreateOrderData("cs_test", "event", "user", 99, now).totalAmount == "0.99"
  {
    FormatCentsExamples();
  }

  /** The assertions of the `validateOrderData` test. */
  lemma ValidateOrderDataExamples(now: int)
    ensures var valid := Order("cs_test_123", "event_123", "user_123", "25.00", now);
      && ValidateOrderData(valid) == None
      && ValidateOrderData(valid.(stripeId := "")) == Some("Stripe ID is required")
      && ValidateOrderData(valid.(eventId := "")) == Some("Event ID is required")
  {
  }
}
