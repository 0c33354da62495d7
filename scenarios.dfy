/** Concrete runs of the handler model on small stores. */
module Scenarios {
  import opened Wrappers
  import opened Events
  import opened Deduction

  /** Stock 5, one item asking for 3: the stock drops to 2 and only the ack goes out. */
  lemma EnoughStockDeducts(tag: nat)
    ensures var e := Event(ORDER_SHIPPED, Some("O1"), Some("U1"), Some([Item("P1", Number(3))]));
      Handle(map["P1" := 5], Delivered(tag, Parsed(e)), map[]) == Outcome(map["P1" := 2], [Ack(tag)])
  {
    var items := [Item("P1", Number(3))];
    assert items[..0] == [];
  }

  /** Stock 1, one item asking for 4: the stock stays 1 and one compensation precedes the ack. */
  lemma ShortfallCompensates(tag: nat)
    ensures var e := Event(ORDER_SHIPPED, Some("O2"), Some("U2"), Some([Item("P2", Number(4))]));
      Handle(map["P2" := 1], Delivered(tag, Parsed(e)), map[])
      == Outcome(map["P2" := 1],
                 [Publish(ORDER_EVENTS, "", Compensation(STOCK_UPDATE_FAILED, Some("O2"), Some("U2"),
                                                          [FailedProduct("P2", 4, 1)]), true),
                  Ack(tag)])
  {
    var items := [Item("P2", Number(4))];
    assert items[..0] == [];
    assert Run(map["P2" := 1], items, map[]) == Progress(map["P2" := 1], [FailedProduct("P2", 4, 1)]);
    assert CorrelationId(Some("O2")) == Some("O2");
  }

  /**
   * A product named twice sees the stock the first item left: 5 - 3 leaves 2,
   * so the second request for 3 fails with `available: 2`. An empty order id
   * goes out as `null`.
   */
  lemma RepeatedProductSeesEarlierDeduction(tag: nat)
    ensures var e := Event(ORDER_SHIPPED, Some(""), Some("U3"),
                           Some([Item("P3", Number(3)), Item("P3", Number(3))]));
      Handle(map["P3" := 5], Delivered(tag, Parsed(e)), map[])
      == Outcome(map["P3" := 2],
                 [Publish(ORDER_EVENTS, "", Compensation(STOCK_UPDATE_FAILED, None, Some("U3"),
                                                          [FailedProduct("P3", 3, 2)]), true),
                  Ack(tag)])
  {
    var items := [Item("P3", Number(3)), Item("P3", Number(3))];
    assert items[..1][..0] == [] && items[..2] == items;
    assert Run(map["P3" := 5], items[..1], map[]) == Progress(map["P3" := 2], []);
    assert Run(map["P3" := 5], items, map[]) == Progress(map["P3" := 2], [FailedProduct("P3", 3, 2)]);
    assert CorrelationId(Some("")) == None;
  }

  /**
   * A store error on one item is swallowed: the save of the first item
   * throws, so its stock stays, and the second item is still deducted; no
   * compensation is published for the error.
   */
  lemma StoreErrorIsIsolated(tag: nat)
    ensures var e := Event(ORDER_SHIPPED, Some("O4"), None,
                           Some([Item("A", Number(1)), Item("B", Number(2))]));
      Handle(map["A" := 4, "B" := 4], Delivered(tag, Parsed(e)), map[0 := SaveThrows])
      == Outcome(map["A" := 4, "B" := 2], [Ack(tag)])
  {
    var items := [Item("A", Number(1)), Item("B", Number(2))];
    assert items[..1][..0] == [] && items[..2] == items;
    assert Run(map["A" := 4, "B" := 4], items[..1], map[0 := SaveThrows]) == Progress(map["A" := 4, "B" := 4], []);
    assert map["A" := 4, "B" := 4]["B" := 2] == map["A" := 4, "B" := 2];
  }

  /** Nothing deduplicates deliveries: the same event delivered twice deducts twice. */
  lemma DuplicateDeliveryDeductsTwice(tag: nat)
    ensures var e := Event(ORDER_SHIPPED, Some("O5"), Some("U5"), Some([Item("P5", Number(2))]));
      var msg := Delivered(tag, Parsed(e));
      HandleAll(map["P5" := 5], [(msg, map[]), (msg, map[])]) == map["P5" := 1]
  {
    var items := [Item("P5", Number(2))];
    assert items[..0] == [];
    var e := Event(ORDER_SHIPPED, Some("O5"), Some("U5"), Some(items));
    var msg := Delivered(tag, Parsed(e));
    var msgs: seq<(Delivery, Faults)> := [(msg, map[]), (msg, map[])];
    assert Handle(map["P5" := 5], msg, map[]).stock == map["P5" := 3];
    assert Handle(map["P5" := 3], msg, map[]).stock == map["P5" := 1];
    assert msgs[1..][1..] == [];
    assert HandleAll(map["P5" := 1], msgs[1..][1..]) == map["P5" := 1];
    assert HandleAll(map["P5" := 3], msgs[1..]) == map["P5" := 1];
  }
}
