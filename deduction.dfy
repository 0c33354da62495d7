/**
 * What the product service's ORDER_SHIPPED handler does, as functions of the
 * stock levels before the message and of the message itself. The store is a
 * map from product id to stock level; a product that `findById` does not
 * find is a key the map lacks. Store exceptions are an input: `faults[i]`
 * says whether the lookup or the save of the item at position `i` throws.
 */
module Deduction {
  import opened Wrappers
  import opened Events

  type Stock = map<ProductId, int>
  type Faults = map<nat, StoreFault>

  /** The stock levels and the `failedProducts` list while the loop runs. */
  datatype Progress = Progress(stock: Stock, failed: seq<FailedProduct>)

  /** The stock levels after a message, and what the handler did on the channel. */
  datatype Outcome = Outcome(stock: Stock, ops: seq<ChannelOp>)

  ghost predicate NonNegative(stock: Stock)
  {
    forall p :: p in stock ==> stock[p] >= 0
  }

  function FaultAt(faults: Faults, i: nat): Option<StoreFault>
  {
    if i in faults then Some(faults[i]) else None
  }

  /** Product found and quantity a number: the item is evaluated at all. */
  predicate Applies(stock: Stock, item: LineItem, fault: Option<StoreFault>)
  {
    item.Item? && fault != Some(LookupThrows) && item.productId in stock && item.quantity.Number?
  }

  /** The item's quantity is available and the save goes through. */
  predicate Deducts(stock: Stock, item: LineItem, fault: Option<StoreFault>)
  {
    Applies(stock, item, fault) && stock[item.productId] >= item.quantity.value
      && fault != Some(SaveThrows)
  }

  /** The item asks for more than is in stock: it goes on the failure list. */
  predicate Rejects(stock: Stock, item: LineItem, fault: Option<StoreFault>)
  {
    Applies(stock, item, fault) && stock[item.productId] < item.quantity.value
  }

  /** Names(items, p): some line item names product p. */
  predicate Names(items: seq<LineItem>, p: ProductId)
  {
    exists k :: 0 <= k < |items| && items[k].Item? && items[k].productId == p
  }

  /**
   * One iteration of the `for...of` loop. A `null` item is skipped, as a
   * caught error would be (see HandleAsWritten for what the code does).
   */
  function Step(pr: Progress, item: LineItem, fault: Option<StoreFault>): (r: Progress)
    ensures r.stock.Keys == pr.stock.Keys
    ensures forall p :: p in pr.stock && (item.NullItem? || p != item.productId) ==> r.stock[p] == pr.stock[p]
    ensures Deducts(pr.stock, item, fault) ==>
      r.failed == pr.failed && r.stock[item.productId] == pr.stock[item.productId] - item.quantity.value
    ensures Rejects(pr.stock, item, fault) ==>
      r.stock == pr.stock
      && r.failed == pr.failed + [FailedProduct(item.productId, item.quantity.value, pr.stock[item.productId])]
    ensures !Deducts(pr.stock, item, fault) && !Rejects(pr.stock, item, fault) ==> r == pr
  {
    if Deducts(pr.stock, item, fault) then
      var id := item.productId;
      Progress(pr.stock[id := pr.stock[id] - item.quantity.value], pr.failed)
    else if Rejects(pr.stock, item, fault) then
      var id := item.productId;
      Progress(pr.stock, pr.failed + [FailedProduct(id, item.quantity.value, pr.stock[id])])
    else
      pr
  }

  /** The whole loop over `items`, in order, each item seeing the stock the earlier ones left. */
  function Run(stock: Stock, items: seq<LineItem>, faults: Faults): Progress
    decreases |items|
  {
    if items == [] then Progress(stock, [])
    else
      var n := |items| - 1;
      Step(Run(stock, items[..n], faults), items[n], FaultAt(faults, n))
  }

  /** The stock the item at position k sees when its turn comes. */
  function StockBefore(stock: Stock, items: seq<LineItem>, faults: Faults, k: nat): Stock
    requires k <= |items|
  {
    Run(stock, items[..k], faults).stock
  }

  /** The item at position k asks for more than the stock it sees at its turn. */
  predicate RejectedAt(stock: Stock, items: seq<LineItem>, faults: Faults, k: nat)
    requires k < |items|
  {
    Rejects(StockBefore(stock, items, faults, k), items[k], FaultAt(faults, k))
  }

  predicate IsStockDeduction(e: Event)
  {
    e.eventType == ORDER_SHIPPED && e.products.Some?
  }

  function CompensationFor(e: Event, failed: seq<FailedProduct>): Compensation
  {
    Compensation(STOCK_UPDATE_FAILED, CorrelationId(e.orderId), e.userId, failed)
  }

  /** The publish of the compensation event: to the fanout exchange, empty routing key, persistent. */
  function CompensationOp(e: Event, failed: seq<FailedProduct>): ChannelOp
  {
    Publish(ORDER_EVENTS, "", CompensationFor(e, failed), true)
  }

  /**
   * The consumer callback for one delivery. A JSON `null` body is acked and
   * dropped like any other non-matching event (see HandleAsWritten).
   */
  function Handle(stock: Stock, msg: Delivery, faults: Faults): Outcome
  {
    match msg
    case Cancelled => Outcome(stock, [])
    case Delivered(tag, body) =>
      if body.Parsed? && IsStockDeduction(body.event) then
        var r := Run(stock, body.event.products.value, faults);
        var publish := if |r.failed| > 0 then [CompensationOp(body.event, r.failed)] else [];
        Outcome(r.stock, publish + [Ack(tag)])
      else
        Outcome(stock, [Ack(tag)])
  }

  // ---------------------------------------------------------------------
  // The loop

  lemma {:induction false} RunKeepsProducts(stock: Stock, items: seq<LineItem>, faults: Faults)
    ensures Run(stock, items, faults).stock.Keys == stock.Keys
    decreases |items|
  {
    if items != [] {
      RunKeepsProducts(stock, items[..|items| - 1], faults);
    }
  }

  /** Stock never goes negative: a deduction happens only when stock >= quantity. */
  lemma {:induction false} RunNonNegative(stock: Stock, items: seq<LineItem>, faults: Faults)
    requires NonNegative(stock)
    ensures NonNegative(Run(stock, items, faults).stock)
    decreases |items|
  {
    if items != [] {
      RunNonNegative(stock, items[..|items| - 1], faults);
    }
  }

  /** A product no line item names keeps its stock level. */
  lemma {:induction false} RunLeavesUnnamedAlone(stock: Stock, items: seq<LineItem>, faults: Faults, p: ProductId)
    requires p in stock && !Names(items, p)
    ensures p in Run(stock, items, faults).stock
    ensures Run(stock, items, faults).stock[p] == stock[p]
    decreases |items|
  {
    if items != [] {
      var n := |items| - 1;
      assert !Names(items[..n], p) by {
        forall k | 0 <= k < n && items[..n][k].Item? ensures items[..n][k].productId != p {
          assert items[..n][k] == items[k];
        }
      }
      RunKeepsProducts(stock, items[..n], faults);
      RunLeavesUnnamedAlone(stock, items[..n], faults, p);
    }
  }

  /** The loop's result on a prefix one item longer is one more step. */
  lemma PrefixStep(stock: Stock, items: seq<LineItem>, faults: Faults, k: nat)
    requires k < |items|
    ensures Run(stock, items[..k + 1], faults)
         == Step(Run(stock, items[..k], faults), items[k], FaultAt(faults, k))
  {
    assert items[..k + 1][..k] == items[..k];
  }

  /**
   * The failure list is empty exactly when no item asks for more than the
   * stock it sees at its turn.
   */
  lemma {:induction false} RunFailedEmptyIff(stock: Stock, items: seq<LineItem>, faults: Faults)
    ensures Run(stock, items, faults).failed == []
        <==> forall k :: 0 <= k < |items| ==> !RejectedAt(stock, items, faults, k)
    decreases |items|
  {
    if items != [] {
      var n := |items| - 1;
      var pre := items[..n];
      var mid := Run(stock, pre, faults);
      RunFailedEmptyIff(stock, pre, faults);
      forall k | 0 <= k < n
        ensures RejectedAt(stock, items, faults, k) == RejectedAt(stock, pre, faults, k)
      {
        assert items[..k] == pre[..k];
        assert items[k] == pre[k];
      }
      assert RejectedAt(stock, items, faults, n) == Rejects(mid.stock, items[n], FaultAt(faults, n));
      assert Run(stock, items, faults).failed == [] <==> mid.failed == [] && !RejectedAt(stock, items, faults, n);
    }
  }

  /** Each failure entry is a genuine shortfall for a product in the store, and there are no more entries than items. */
  lemma {:induction false} RunFailedAreShortfalls(stock: Stock, items: seq<LineItem>, faults: Faults)
    ensures |Run(stock, items, faults).failed| <= |items|
    ensures forall e :: e in Run(stock, items, faults).failed ==>
      e.requested > e.available && e.productId in stock && Names(items, e.productId)
    decreases |items|
  {
    if items != [] {
      var n := |items| - 1;
      var pre := items[..n];
      RunFailedAreShortfalls(stock, pre, faults);
      RunKeepsProducts(stock, pre, faults);
      forall p | Names(pre, p) ensures Names(items, p) {
        var k :| 0 <= k < |pre| && pre[k].Item? && pre[k].productId == p;
        assert items[k] == pre[k];
      }
    }
  }

  /** The positions k < n whose item asks for more than the stock it sees at its turn, in increasing order. */
  function RejectedPositions(stock: Stock, items: seq<LineItem>, faults: Faults, n: nat): seq<nat>
    requires n <= |items|
  {
    if n == 0 then []
    else
      RejectedPositions(stock, items, faults, n - 1)
        + (if RejectedAt(stock, items, faults, n - 1) then [n - 1] else [])
  }

  /** The failure entry the item at position k contributes: its id, its quantity and the stock it saw. */
  function EntryAt(stock: Stock, items: seq<LineItem>, faults: Faults, k: nat): FailedProduct
    requires k < |items| && RejectedAt(stock, items, faults, k)
  {
    FailedProduct(items[k].productId, items[k].quantity.value,
                  StockBefore(stock, items, faults, k)[items[k].productId])
  }

  /**
   * The failure list after the first n items is exactly one entry per
   * shortfall item, in line-item order, each carrying the requested quantity
   * and the stock that item saw at its turn.
   */
  lemma {:induction false} RunFailedAreRejections(stock: Stock, items: seq<LineItem>, faults: Faults, n: nat)
    requires n <= |items|
    ensures var failed := Run(stock, items[..n], faults).failed;
      var ps := RejectedPositions(stock, items, faults, n);
      |failed| == |ps|
      && (forall i, j :: 0 <= i < j < |ps| ==> ps[i] < ps[j])
      && forall j :: 0 <= j < |ps| ==>
           ps[j] < n && RejectedAt(stock, items, faults, ps[j])
           && failed[j] == EntryAt(stock, items, faults, ps[j])
    decreases n
  {
    if n == 0 {
      assert items[..0] == [];
    } else {
      var k := n - 1;
      RunFailedAreRejections(stock, items, faults, k);
      PrefixStep(stock, items, faults, k);
      var mid := Run(stock, items[..k], faults);
      var ps := RejectedPositions(stock, items, faults, k);
      assert StockBefore(stock, items, faults, k) == mid.stock;
      if RejectedAt(stock, items, faults, k) {
        assert Run(stock, items[..n], faults).failed == mid.failed + [EntryAt(stock, items, faults, k)];
        assert RejectedPositions(stock, items, faults, n) == ps + [k];
      } else {
        assert Run(stock, items[..n], faults).failed == mid.failed;
        assert RejectedPositions(stock, items, faults, n) == ps;
      }
    }
  }

  /** No two line items name the same product. */
  predicate DistinctProducts(items: seq<LineItem>)
  {
    forall i, j :: 0 <= i < j < |items| && items[i].Item? && items[j].Item? ==> items[i].productId != items[j].productId
  }

  /** The shortfall items judged against one fixed stock level, in order. */
  function Shortfalls(stock: Stock, items: seq<LineItem>, faults: Faults): seq<FailedProduct>
    decreases |items|
  {
    if items == [] then []
    else
      var n := |items| - 1;
      var item := items[n];
      Shortfalls(stock, items[..n], faults)
        + if Rejects(stock, item, FaultAt(faults, n))
          then [FailedProduct(item.productId, item.quantity.value, stock[item.productId])]
          else []
  }

  /**
   * When each product is named at most once, every item is judged against
   * the stock before the message: the failure list is exactly the items
   * asking for more than that, an over-requested product is left untouched,
   * and a satisfiable one loses exactly its quantity.
   */
  lemma {:induction false} DistinctOrderClosedForm(stock: Stock, items: seq<LineItem>, faults: Faults)
    requires DistinctProducts(items)
    ensures Run(stock, items, faults).failed == Shortfalls(stock, items, faults)
    ensures forall k :: 0 <= k < |items| && items[k].Item? && items[k].productId in stock ==>
      items[k].productId in Run(stock, items, faults).stock &&
      Run(stock, items, faults).stock[items[k].productId]
        == if Deducts(stock, items[k], FaultAt(faults, k))
           then stock[items[k].productId] - items[k].quantity.value
           else stock[items[k].productId]
    decreases |items|
  {
    if items != [] {
      var n := |items| - 1;
      var pre := items[..n];
      var item := items[n];
      assert DistinctProducts(pre) by {
        forall i, j | 0 <= i < j < |pre| && pre[i].Item? && pre[j].Item?
          ensures pre[i].productId != pre[j].productId
        {
          assert pre[i] == items[i] && pre[j] == items[j];
        }
      }
      DistinctOrderClosedForm(stock, pre, faults);
      RunKeepsProducts(stock, pre, faults);
      var mid := Run(stock, pre, faults);
      if item.Item? && item.productId in stock {
        assert !Names(pre, item.productId) by {
          forall k | 0 <= k < |pre| && pre[k].Item? ensures pre[k].productId != item.productId {
            assert pre[k] == items[k];
          }
        }
        RunLeavesUnnamedAlone(stock, pre, faults, item.productId);
        assert mid.stock[item.productId] == stock[item.productId];
      }
      assert Deducts(mid.stock, item, FaultAt(faults, n)) == Deducts(stock, item, FaultAt(faults, n));
      assert Rejects(mid.stock, item, FaultAt(faults, n)) == Rejects(stock, item, FaultAt(faults, n));
      forall k | 0 <= k < n && items[k].Item? && items[k].productId in stock
        ensures Run(stock, items, faults).stock[items[k].productId]
          == if Deducts(stock, items[k], FaultAt(faults, k))
             then stock[items[k].productId] - items[k].quantity.value
             else stock[items[k].productId]
      {
        assert pre[k] == items[k];
      }
    }
  }

  // ---------------------------------------------------------------------
  // The whole message

  /** A body that does not parse is acked once and changes nothing else. */
  lemma ParseFailureIsDropped(stock: Stock, tag: nat, faults: Faults)
    ensures Handle(stock, Delivered(tag, Unparsable), faults) == Outcome(stock, [Ack(tag)])
  {
  }

  /** An event that is not ORDER_SHIPPED with a `products` array is acked once and has no other effect. */
  lemma IgnoredEventHasNoEffect(stock: Stock, tag: nat, e: Event, faults: Faults)
    requires !IsStockDeduction(e)
    ensures Handle(stock, Delivered(tag, Parsed(e)), faults) == Outcome(stock, [Ack(tag)])
  {
  }

  /**
   * Every delivery is acked exactly once, as the last channel operation, and
   * at most one compensation is published before it; a cancelled consumer
   * (a `null` delivery) does nothing on the channel.
   */
  lemma AckedExactlyOnceLast(stock: Stock, msg: Delivery, faults: Faults)
    ensures msg.Cancelled? ==> Handle(stock, msg, faults).ops == []
    ensures msg.Delivered? ==>
      var ops := Handle(stock, msg, faults).ops;
      AckCount(ops) == 1 && |ops| >= 1 && ops[|ops| - 1] == Ack(msg.deliveryTag)
      && |Publications(ops)| <= 1
      && forall i :: 0 <= i < |ops| - 1 ==> ops[i].Publish?
  {
    match msg
    case Cancelled =>
    case Delivered(tag, body) =>
      var ack := [Ack(tag)];
      assert AckCount(ack) == 1 && Publications(ack) == [] by {
        assert ack[1..] == [];
      }
      if body.Parsed? && IsStockDeduction(body.event) {
        var e := body.event;
        var failed := Run(stock, e.products.value, faults).failed;
        if |failed| > 0 {
          var publish := [CompensationOp(e, failed)];
          assert AckCount(publish) == 0 && |Publications(publish)| == 1 by {
            assert publish[1..] == [];
          }
          LogConcat(publish, ack);
        }
      }
  }

  /**
   * For an ORDER_SHIPPED event with a `products` array: the stock is the
   * loop's result, and a STOCK_UPDATE_FAILED event carrying the order's
   * correlation id, its user id and the whole non-empty failure list is
   * published exactly when some item failed, and then once.
   */
  lemma {:induction false} CompensationIffFailure(stock: Stock, tag: nat, e: Event, faults: Faults)
    requires IsStockDeduction(e)
    ensures var out := Handle(stock, Delivered(tag, Parsed(e)), faults);
      var failed := Run(stock, e.products.value, faults).failed;
      out.stock == Run(stock, e.products.value, faults).stock
      && (failed == [] <==> Publications(out.ops) == [])
      && (failed != [] ==> Publications(out.ops) == [Compensation(STOCK_UPDATE_FAILED, CorrelationId(e.orderId), e.userId, failed)])
  {
    var out := Handle(stock, Delivered(tag, Parsed(e)), faults);
    var failed := Run(stock, e.products.value, faults).failed;
    var publish := if |failed| > 0 then [CompensationOp(e, failed)] else [];
    LogConcat(publish, [Ack(tag)]);
    assert Publications([Ack(tag)]) == [];
    if publish != [] {
      assert publish[1..] == [];
    }
  }

  /** Handling a message never makes a stock level negative. */
  lemma HandleNonNegative(stock: Stock, msg: Delivery, faults: Faults)
    requires NonNegative(stock)
    ensures NonNegative(Handle(stock, msg, faults).stock)
  {
    if msg.Delivered? && msg.body.Parsed? && IsStockDeduction(msg.body.event) {
      RunNonNegative(stock, msg.body.event.products.value, faults);
    }
  }

  /** Any sequence of deliveries, each with its own store faults, one after the other. */
  function HandleAll(stock: Stock, msgs: seq<(Delivery, Faults)>): Stock
    decreases |msgs|
  {
    if msgs == [] then stock
    else HandleAll(Handle(stock, msgs[0].0, msgs[0].1).stock, msgs[1..])
  }

  /** However often messages (including the same one) are delivered, stock stays non-negative. */
  lemma {:induction false} HandleAllNonNegative(stock: Stock, msgs: seq<(Delivery, Faults)>)
    requires NonNegative(stock)
    ensures NonNegative(HandleAll(stock, msgs))
    decreases |msgs|
  {
    if msgs != [] {
      HandleNonNegative(stock, msgs[0].0, msgs[0].1);
      HandleAllNonNegative(Handle(stock, msgs[0].0, msgs[0].1).stock, msgs[1..]);
    }
  }
}
