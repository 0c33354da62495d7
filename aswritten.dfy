/**
 * The handler exactly as the JavaScript is written, for the two inputs on
 * which it differs from Deduction.Handle. Both throw a TypeError outside any
 * catch, so the async consumer callback's promise rejects before
 * `channel.ack(msg)`:
 *  - a body that parses to JSON `null`: `event.type` reads a property of null;
 *  - a `null` element of `products`: `item.productId` throws inside the try,
 *    and the catch block's log line reads `item.productId` again.
 */
module AsWritten {
  import opened Wrappers
  import opened Events
  import opened Deduction

  /** How the `for...of` loop ends: normally, or by an exception escaping it. */
  datatype LoopEnd = Completed(progress: Progress) | Escaped(stock: Stock)

  function RunAsWritten(stock: Stock, items: seq<LineItem>, faults: Faults): LoopEnd
    decreases |items|
  {
    if items == [] then Completed(Progress(stock, []))
    else
      var n := |items| - 1;
      match RunAsWritten(stock, items[..n], faults)
      case Escaped(st) => Escaped(st)
      case Completed(pr) =>
        if items[n].NullItem? then Escaped(pr.stock)
        else Completed(Step(pr, items[n], FaultAt(faults, n)))
  }

  function HandleAsWritten(stock: Stock, msg: Delivery, faults: Faults): Outcome
  {
    match msg
    case Cancelled => Outcome(stock, [])
    case Delivered(tag, body) =>
      match body
      case Unparsable => Outcome(stock, [Ack(tag)])
      case JsonNull => Outcome(stock, [])
      case Parsed(e) =>
        if !IsStockDeduction(e) then Outcome(stock, [Ack(tag)])
        else
          match RunAsWritten(stock, e.products.value, faults)
          case Escaped(st) => Outcome(st, [])
          case Completed(r) =>
            var publish := if |r.failed| > 0 then [CompensationOp(e, r.failed)] else [];
            Outcome(r.stock, publish + [Ack(tag)])
  }

  predicate NoNullItems(items: seq<LineItem>)
  {
    forall k :: 0 <= k < |items| ==> items[k].Item?
  }

  /** Without `null` line items, the loop as written is the loop of the model. */
  lemma {:induction false} RunAsWrittenAgrees(stock: Stock, items: seq<LineItem>, faults: Faults)
    requires NoNullItems(items)
    ensures RunAsWritten(stock, items, faults) == Completed(Run(stock, items, faults))
    decreases |items|
  {
    if items != [] {
      var n := |items| - 1;
      assert NoNullItems(items[..n]) by {
        forall k | 0 <= k < n ensures items[..n][k].Item? {
          assert items[..n][k] == items[k];
        }
      }
      RunAsWrittenAgrees(stock, items[..n], faults);
    }
  }

  /** On every other delivery the code as written and the model agree. */
  lemma HandleAsWrittenAgrees(stock: Stock, msg: Delivery, faults: Faults)
    requires msg.Delivered? ==> !msg.body.JsonNull?
    requires msg.Delivered? && msg.body.Parsed? && msg.body.event.products.Some? ==>
      NoNullItems(msg.body.event.products.value)
    ensures HandleAsWritten(stock, msg, faults) == Handle(stock, msg, faults)
  {
    if msg.Delivered? && msg.body.Parsed? && IsStockDeduction(msg.body.event) {
      RunAsWrittenAgrees(stock, msg.body.event.products.value, faults);
    }
  }

  /**
   * At the first `null` line item the loop as written stops: the items before
   * it have been processed as in the model, and nothing after it is.
   */
  lemma {:induction false} RunAsWrittenEscapesAtFirstNull(stock: Stock, items: seq<LineItem>, faults: Faults, k: nat)
    requires k < |items| && items[k].NullItem? && NoNullItems(items[..k])
    ensures RunAsWritten(stock, items, faults) == Escaped(Run(stock, items[..k], faults).stock)
    decreases |items|
  {
    var n := |items| - 1;
    if n == k {
      RunAsWrittenAgrees(stock, items[..k], faults);
    } else {
      assert items[..n][..k] == items[..k];
      RunAsWrittenEscapesAtFirstNull(stock, items[..n], faults, k);
    }
  }

  /**
   * Any ORDER_SHIPPED event with a `null` line item, as written: the stock is
   * what the items before the first `null` left, and nothing is published or
   * acked.
   */
  lemma NullItemStopsHandler(stock: Stock, tag: nat, e: Event, faults: Faults, k: nat)
    requires IsStockDeduction(e)
    requires k < |e.products.value| && e.products.value[k].NullItem? && NoNullItems(e.products.value[..k])
    ensures HandleAsWritten(stock, Delivered(tag, Parsed(e)), faults)
         == Outcome(Run(stock, e.products.value[..k], faults).stock, [])
  {
    RunAsWrittenEscapesAtFirstNull(stock, e.products.value, faults, k);
  }

  /** A `null` body is never acked as written; the model acks it once. */
  lemma NullBodyIsNeverAcked(stock: Stock, tag: nat, faults: Faults)
    ensures HandleAsWritten(stock, Delivered(tag, JsonNull), faults).ops == []
    ensures Handle(stock, Delivered(tag, JsonNull), faults).ops == [Ack(tag)]
  {
  }

  /**
   * `products: [{p1, 3}, null, {p1, 9}]` against a stock of 5: as written the
   * first deduction is saved, then the message is neither acked nor
   * compensated and the third item is never looked at; the model skips the
   * `null`, records the shortfall of the third item and acks.
   */
  lemma NullItemLosesAckAndCompensation(tag: nat)
    ensures var stock := map["p1" := 5];
      var e := Event(ORDER_SHIPPED, Some("o1"), Some("u1"),
                     Some([Item("p1", Number(3)), NullItem, Item("p1", Number(9))]));
      HandleAsWritten(stock, Delivered(tag, Parsed(e)), map[]) == Outcome(map["p1" := 2], [])
      && Handle(stock, Delivered(tag, Parsed(e)), map[])
         == Outcome(map["p1" := 2],
                    [Publish(ORDER_EVENTS, "", Compensation(STOCK_UPDATE_FAILED, Some("o1"), Some("u1"),
                                                             [FailedProduct("p1", 9, 2)]), true),
                     Ack(tag)])
  {
    var stock := map["p1" := 5];
    var items := [Item("p1", Number(3)), NullItem, Item("p1", Number(9))];
    assert items[..0] == [] && items[..1][..0] == [];
    assert items[..2][..1] == items[..1] && items[..3] == items;
    assert RunAsWritten(stock, items[..1], map[]) == Completed(Progress(map["p1" := 2], []));
    assert RunAsWritten(stock, items[..2], map[]) == Escaped(map["p1" := 2]);
    assert RunAsWritten(stock, items, map[]) == Escaped(map["p1" := 2]);
    assert Run(stock, items[..1], map[]) == Progress(map["p1" := 2], []);
    assert Run(stock, items[..2], map[]) == Progress(map["p1" := 2], []);
    assert Run(stock, items, map[]) == Progress(map["p1" := 2], [FailedProduct("p1", 9, 2)]);
  }
}
