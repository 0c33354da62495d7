/**
 * The product service's consumer of the `order_events_product` queue: the
 * stock levels it owns and the AMQP channel it publishes and acks on.
 */
module Consumer {
  import opened Wrappers
  import opened Events
  import opened Deduction

  class ProductConsumer {
    /** Stock level of every product in the store. */
    var stock: Stock
    /** Everything done on the channel so far, in order. */
    var channel: seq<ChannelOp>

    /** Stock levels are never negative. */
    ghost predicate Valid()
      reads this
    {
      NonNegative(stock)
    }

    ghost function Published(): seq<Compensation>
      reads this
    {
      Publications(channel)
    }

    ghost function Acks(): nat
      reads this
    {
      AckCount(channel)
    }

    constructor (initial: Stock)
      requires NonNegative(initial)
      ensures Valid() && stock == initial && channel == []
    {
      stock := initial;
      channel := [];
    }

    /**
     * The `for...of` loop over the line items: deduct in place item by item
     * and collect the shortfalls.
     */
    method DeductItems(items: seq<LineItem>, faults: Faults) returns (failed: seq<FailedProduct>)
      modifies this
      ensures channel == old(channel)
      ensures stock == Run(old(stock), items, faults).stock
      ensures failed == Run(old(stock), items, faults).failed
    {
      failed := [];
      var i := 0;
      while i < |items|
        invariant 0 <= i <= |items|
        invariant channel == old(channel)
        invariant stock == Run(old(stock), items[..i], faults).stock
        invariant failed == Run(old(stock), items[..i], faults).failed
      {
        var item := items[i];
        var fault := FaultAt(faults, i);
        if item.Item? && fault != Some(LookupThrows) {
          var id := item.productId;
          if id in stock && item.quantity.Number? {
            var quantity := item.quantity.value;
            if stock[id] >= quantity {
              // a throwing save() leaves the stored level as it was
              if fault != Some(SaveThrows) {
                stock := stock[id := stock[id] - quantity];
              }
            } else {
              failed := failed + [FailedProduct(id, quantity, stock[id])];
            }
          }
        }
        assert Progress(stock, failed) == Step(Run(old(stock), items[..i], faults), item, fault);
        PrefixStep(old(stock), items, faults, i);
        i := i + 1;
      }
      assert items[..i] == items;
    }

    /**
     * The consumer callback: decode, filter ORDER_SHIPPED events, deduct
     * item by item, publish one compensation if some item fell short, ack.
     */
    method HandleMessage(msg: Delivery, faults: Faults)
      requires Valid()
      modifies this
      ensures Valid()
      ensures stock == Handle(old(stock), msg, faults).stock
      ensures channel == old(channel) + Handle(old(stock), msg, faults).ops
      ensures Acks() == old(Acks()) + (if msg.Delivered? then 1 else 0)
      ensures |Published()| <= |old(Published())| + 1
    {
      ghost var out := Handle(stock, msg, faults);
      AckedExactlyOnceLast(stock, msg, faults);
      HandleNonNegative(stock, msg, faults);
      LogConcat(channel, out.ops);
      if msg.Cancelled? {
        return;
      }
      var tag := msg.deliveryTag;
      if msg.body.Parsed? && IsStockDeduction(msg.body.event) {
        var event := msg.body.event;
        var failed := DeductItems(event.products.value, faults);
        if |failed| > 0 {
          channel := channel + [CompensationOp(event, failed)];
          assert out.ops == [CompensationOp(event, failed), Ack(tag)];
        } else {
          assert out.ops == [Ack(tag)];
        }
      }
      channel := channel + [Ack(tag)];
    }
  }
}
