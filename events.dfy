/**
 * The messages that the product service reads from and writes to the
 * `order_events` fanout exchange, after JSON decoding.
 */
module Events {
  import opened Wrappers

  type ProductId = string

  /** Event type the product service reacts to. */
  const ORDER_SHIPPED := "ORDER_SHIPPED"
  /** Event type of the compensation the product service publishes. */
  const STOCK_UPDATE_FAILED := "STOCK_UPDATE_FAILED"
  /** The fanout exchange every service publishes to and consumes from. */
  const ORDER_EVENTS := "order_events"

  /** `item.quantity`: a JavaScript number (here an integer) or any other value. */
  datatype Quantity = Number(value: int) | NotNumber

  /** One element of `event.products`: an object, or a JSON `null`. */
  datatype LineItem =
    | Item(productId: ProductId, quantity: Quantity)
    | NullItem

  /**
   * A decoded inbound event. `products` is `None` when the field is not an
   * array; a JSON value that is not an object (a number, a string, an array)
   * reads as an event whose type matches nothing.
   */
  datatype Event = Event(
    eventType: string,
    orderId: Option<string>,
    userId: Option<string>,
    products: Option<seq<LineItem>>)

  /** The outcome of `JSON.parse` on the message body. */
  datatype Body = Unparsable | JsonNull | Parsed(event: Event)

  /** What the consumer callback receives: `null` when the broker cancels the consumer. */
  datatype Delivery = Cancelled | Delivered(deliveryTag: nat, body: Body)

  /** One entry of `failedProducts`. */
  datatype FailedProduct = FailedProduct(productId: ProductId, requested: int, available: int)

  /** The compensation event, as serialised onto the exchange. */
  datatype Compensation = Compensation(
    eventType: string,
    orderId: Option<string>,
    userId: Option<string>,
    failedProducts: seq<FailedProduct>)

  /** An operation on the AMQP channel, in the order the handler performs them. */
  datatype ChannelOp =
    | Publish(exchange: string, routingKey: string, content: Compensation, persistent: bool)
    | Ack(deliveryTag: nat)

  /** What the product store does when the item at a given position is processed. */
  datatype StoreFault = LookupThrows | SaveThrows

  /** `event.orderId || null`: an absent or empty order id becomes `null`. */
  function CorrelationId(orderId: Option<string>): Option<string>
  {
    if orderId.Some? && orderId.value != "" then orderId else None
  }

  /** Number of acknowledgements in a channel log. */
  function AckCount(ops: seq<ChannelOp>): nat
  {
    if ops == [] then 0 else (if ops[0].Ack? then 1 else 0) + AckCount(ops[1..])
  }

  /** The compensation events published in a channel log, in order. */
  function Publications(ops: seq<ChannelOp>): seq<Compensation>
  {
    if ops == [] then []
    else (if ops[0].Publish? then [ops[0].content] else []) + Publications(ops[1..])
  }

  lemma {:induction false} LogConcat(a: seq<ChannelOp>, b: seq<ChannelOp>)
    ensures AckCount(a + b) == AckCount(a) + AckCount(b)
    ensures Publications(a + b) == Publications(a) + Publications(b)
  {
    if a == [] {
      assert a + b == b;
    } else {
      assert (a + b)[1..] == a[1..] + b;
      LogConcat(a[1..], b);
    }
  }
}
