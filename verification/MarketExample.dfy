/** Two concrete runs.  In one, money went back to the buyer and no refund record says so: the buyer's
    own refund request was rejected, and a later dispute over the same order was decided for a refund.
    In the other, an order makes all the five status changes an order can make. */
module MarketExample {
  import opened Support
  import opened Market
  import opened MarketInvariant
  import opened MarketRuns
  import opened MarketResolution

  const PAID: Order := Order(Id(2), Id(11), Id(10), OrderPaid, 1000, 500, 50, 950,
                             PAYMENT_WINDOW, Some(2), None, None, None, None, None)

  const UNPAID: Order := PAID.(status := OrderPendingPayment, paidAt := None)

  const CONTESTED: Order := PAID.(status := OrderDisputed, disputedAt := Some(4))

  const RESUMED: Order := PAID.(disputedAt := Some(4))

  const DELIVERED: Order := RESUMED.(status := OrderDelivered, deliveredAt := Some(6))

  const REQUEST: Payment := Payment(Id(3), "pay", None, 1000, RecordPending)

  const REJECTED: Refund := Refund(Id(3), Id(11), "refund", None, 1000, RecordRejected)

  const DISPUTED: Dispute := Dispute(Id(3), Id(11), OrderPaid, DisputePending)

  // ---------- counting the status changes of order 3 ----------

  /** Some run leads to this state and changes the order's status that many times. */
  ghost predicate Counted(t: Tables, n: nat) {
    exists ops :: Run(EMPTY, ops) == t && Changes(EMPTY, ops, Id(3)) == n
  }

  lemma CountStep(t: Tables, n: nat, op: Op, t': Tables, m: nat)
    requires Counted(t, n) && Apply(t, op) == t' && m == n + Changed(t, t', Id(3))
    ensures Counted(t', m)
  {
    var ops :| Run(EMPTY, ops) == t && Changes(EMPTY, ops, Id(3)) == n;
    var more := ops + [op];
    assert more[..|ops|] == ops;
    assert Run(EMPTY, more) == t' && Changes(EMPTY, more, Id(3)) == m;
  }

  lemma CountedIsReachable(t: Tables, n: nat)
    requires Counted(t, n)
    ensures Reachable(t)
  {
    var ops :| Run(EMPTY, ops) == t && Changes(EMPTY, ops, Id(3)) == n;
  }

  /** What the later steps look at: one order, no settlement. */
  ghost predicate Holding(t: Tables, order: Order, refunds: map<Id, Refund>, disputes: map<Id, Dispute>) {
    t.orders == map[Id(3) := order] && t.refunds == refunds && t.disputes == disputes && t.settlements == map[]
  }

  // ---------- what each transaction makes of such a state ----------

  lemma OrderPlaced(t: Tables)
    requires t == EMPTY.(categories := map[Id(1) := Category(500, true)],
                         items := map[Id(2) := Item(Id(10), Id(1), 1000, ItemPublished, None)])
    ensures CreateOrder(t, Id(3), Id(2), Id(11), 0).Commit?
    ensures var t' := CreateOrder(t, Id(3), Id(2), Id(11), 0).db; Holding(t', UNPAID, map[], map[]) && t'.payments == map[]
  {}

  lemma PaymentAsked(t: Tables)
    requires Holding(t, UNPAID, map[], map[]) && t.payments == map[]
    ensures StartPayment(t, Id(11), Id(4), Id(3), "pay", 1) == Commit(t.(payments := map[Id(4) := REQUEST]), true)
  {
    assert !PaymentRequestTaken(t, "pay");
  }

  lemma PaymentArrives(t: Tables)
    requires Holding(t, UNPAID, map[], map[]) && t.payments == map[Id(4) := REQUEST]
    ensures ApplyPaymentCallback(t, "pay", "tx", 1000, 2).Commit?
    ensures Holding(ApplyPaymentCallback(t, "pay", "tx", 1000, 2).db, PAID, map[], map[])
  {
    assert t.payments[Id(4)].requestID == "pay";
    assert PaymentByRequest(t, "pay") == Id(4);
  }

  lemma RefundAsked(t: Tables)
    requires Holding(t, PAID, map[], map[])
    ensures CreateRefund(t, Id(5), Id(3), Id(11), "refund")
            == Commit(t.(refunds := map[Id(5) := REJECTED.(status := RecordPending)]), ())
  {
    assert !HasRefund(t, Id(3)) && !RefundRequestTaken(t, "refund");
  }

  lemma RefundRejected(t: Tables)
    requires Holding(t, PAID, map[Id(5) := REJECTED.(status := RecordPending)], map[])
    ensures DecideRefund(t, Id(5), false, "", 3).Commit?
    ensures Holding(DecideRefund(t, Id(5), false, "", 3).db, PAID, map[Id(5) := REJECTED], map[])
  {
    assert DecideRefund(t, Id(5), false, "", 3).db.refunds == map[Id(5) := REJECTED];
  }

  lemma DisputeRaised(t: Tables, refunds: map<Id, Refund>)
    requires Holding(t, PAID, refunds, map[]) && (refunds == map[] || refunds == map[Id(5) := REJECTED])
    ensures CreateDispute(t, Id(6), Id(3), Id(11), 4)
            == Commit(t.(orders := map[Id(3) := CONTESTED], disputes := map[Id(6) := DISPUTED]), ())
  {
    assert !HasPendingRefund(t, Id(3)) && !HasDispute(t, Id(3));
  }

  lemma DisputeRefunded(t: Tables, t': Tables)
    requires Holding(t, CONTESTED, map[Id(5) := REJECTED], map[Id(6) := DISPUTED])
    requires t' == t.(orders := map[Id(3) := CONTESTED.(status := OrderRefunded, refundedAt := Some(5))],
                      items := Retire(t.items, Id(2)), disputes := map[Id(6) := DISPUTED.(status := DisputeResolved)])
    ensures Apply(t, DoResolveDispute(Id(6), true, "back", Id(7), 5)) == t'
  {
    assert RefundOf(t.refunds, Id(5), Id(3));
    assert ResolveDispute(t, Id(6), true, "back", Id(7), 5).After(t) == t';
  }

  lemma DisputeDismissed(t: Tables, t': Tables)
    requires Holding(t, CONTESTED, map[], map[Id(6) := DISPUTED])
    requires t' == t.(orders := map[Id(3) := RESUMED], disputes := map[Id(6) := DISPUTED.(status := DisputeRejected)])
    ensures Apply(t, DoResolveDispute(Id(6), false, "", Id(7), 5)) == t'
  {
    assert ResolveDispute(t, Id(6), false, "", Id(7), 5).After(t) == t';
  }

  lemma GoodsDelivered(t: Tables)
    requires Holding(t, RESUMED, map[], map[Id(6) := DISPUTED.(status := DisputeRejected)])
    ensures MarkDelivered(t, Id(3), Id(10), 6) == Commit(t.(orders := map[Id(3) := DELIVERED]), ())
  {}

  lemma GoodsReceived(t: Tables)
    requires Holding(t, DELIVERED, map[], map[Id(6) := DISPUTED.(status := DisputeRejected)])
    ensures ConfirmReceived(t, Id(3), Id(11), Id(8), 7).Commit?
    ensures ConfirmReceived(t, Id(3), Id(11), Id(8), 7).db.orders == map[Id(3) := DELIVERED.(status := OrderCompleted, completedAt := Some(7))]
  {
    assert !HasPendingRefund(t, Id(3)) && !HasSettlement(t, Id(3)) && !SettlementRequestTaken(t, SettlementRequestID(Id(3)));
  }

  // ---------- the runs ----------

  lemma Listed() returns (t: Tables)
    ensures Counted(t, 0)
    ensures t == EMPTY.(categories := map[Id(1) := Category(500, true)],
                        items := map[Id(2) := Item(Id(10), Id(1), 1000, ItemPublished, None)])
  {
    assert Run(EMPTY, []) == EMPTY && Changes(EMPTY, [], Id(3)) == 0;
    var t1 := EMPTY.(categories := map[Id(1) := Category(500, true)]);
    CountStep(EMPTY, 0, DoSaveCategory(Id(1), Category(500, true)), t1, 0);
    t := t1.(items := map[Id(2) := Item(Id(10), Id(1), 1000, ItemPublished, None)]);
    CountStep(t1, 0, DoCreateItem(Id(2), Id(10), Id(1), 1000, true), t, 0);
  }

  lemma Ordered() returns (t: Tables)
    ensures Counted(t, 0) && Holding(t, UNPAID, map[], map[]) && t.payments == map[]
  {
    var t0 := Listed();
    OrderPlaced(t0);
    t := CreateOrder(t0, Id(3), Id(2), Id(11), 0).db;
    CountStep(t0, 0, DoCreateOrder(Id(3), Id(2), Id(11), 0), t, 0);
  }

  lemma Requested() returns (t: Tables)
    ensures Counted(t, 0) && Holding(t, UNPAID, map[], map[]) && t.payments == map[Id(4) := REQUEST]
  {
    var t0 := Ordered();
    PaymentAsked(t0);
    t := t0.(payments := map[Id(4) := REQUEST]);
    CountStep(t0, 0, DoStartPayment(Id(11), Id(4), Id(3), "pay", 1), t, 0);
  }

  lemma Charged() returns (t: Tables)
    ensures Counted(t, 1) && Holding(t, PAID, map[], map[])
  {
    var t0 := Requested();
    PaymentArrives(t0);
    t := ApplyPaymentCallback(t0, "pay", "tx", 1000, 2).db;
    CountStep(t0, 0, DoPaymentCallback("pay", "tx", 1000, 2), t, 1);
  }

  lemma Claimed() returns (t: Tables)
    ensures Counted(t, 1) && Holding(t, PAID, map[Id(5) := REJECTED.(status := RecordPending)], map[])
  {
    var t0 := Charged();
    RefundAsked(t0);
    t := t0.(refunds := map[Id(5) := REJECTED.(status := RecordPending)]);
    CountStep(t0, 1, DoCreateRefund(Id(5), Id(3), Id(11), "refund"), t, 1);
  }

  lemma Refused() returns (t: Tables)
    ensures Counted(t, 1) && Holding(t, PAID, map[Id(5) := REJECTED], map[])
  {
    var t0 := Claimed();
    RefundRejected(t0);
    t := DecideRefund(t0, Id(5), false, "", 3).db;
    CountStep(t0, 1, DoDecideRefund(Id(5), false, "", 3), t, 1);
  }

  lemma Contested(t: Tables, refunds: map<Id, Refund>) returns (t': Tables)
    requires Counted(t, 1) && Holding(t, PAID, refunds, map[]) && (refunds == map[] || refunds == map[Id(5) := REJECTED])
    ensures Counted(t', 2) && Holding(t', CONTESTED, refunds, map[Id(6) := DISPUTED])
  {
    DisputeRaised(t, refunds);
    t' := t.(orders := map[Id(3) := CONTESTED], disputes := map[Id(6) := DISPUTED]);
    CountStep(t, 1, DoCreateDispute(Id(6), Id(3), Id(11), 4), t', 2);
  }

  lemma Compensated(t: Tables) returns (t': Tables)
    requires Counted(t, 2) && Holding(t, CONTESTED, map[Id(5) := REJECTED], map[Id(6) := DISPUTED])
    ensures Counted(t', 3) && t'.refunds == map[Id(5) := REJECTED]
    ensures t'.orders == map[Id(3) := CONTESTED.(status := OrderRefunded, refundedAt := Some(5))]
  {
    t' := t.(orders := map[Id(3) := CONTESTED.(status := OrderRefunded, refundedAt := Some(5))],
             items := Retire(t.items, Id(2)), disputes := map[Id(6) := DISPUTED.(status := DisputeResolved)]);
    DisputeRefunded(t, t');
    CountStep(t, 2, DoResolveDispute(Id(6), true, "back", Id(7), 5), t', 3);
  }

  /** "A refunded order has a succeeded refund record" fails in a reachable state: the order is
      refunded, and its only refund record is the rejected one. */
  lemma RefundedWithoutRecord() returns (t: Tables)
    ensures Reachable(t) && Id(3) in t.orders && t.orders[Id(3)].status == OrderRefunded
    ensures t.refunds == map[Id(5) := REJECTED] && !RefundRecorded(t, Id(3))
  {
    var t0 := Refused();
    var t1 := Contested(t0, map[Id(5) := REJECTED]);
    t := Compensated(t1);
    CountedIsReachable(t, 3);
  }

  lemma Resumed(t: Tables) returns (t': Tables)
    requires Counted(t, 2) && Holding(t, CONTESTED, map[], map[Id(6) := DISPUTED])
    ensures Counted(t', 3) && Holding(t', RESUMED, map[], map[Id(6) := DISPUTED.(status := DisputeRejected)])
  {
    t' := t.(orders := map[Id(3) := RESUMED], disputes := map[Id(6) := DISPUTED.(status := DisputeRejected)]);
    DisputeDismissed(t, t');
    CountStep(t, 2, DoResolveDispute(Id(6), false, "", Id(7), 5), t', 3);
  }

  lemma Delivered(t: Tables) returns (t': Tables)
    requires Counted(t, 3) && Holding(t, RESUMED, map[], map[Id(6) := DISPUTED.(status := DisputeRejected)])
    ensures Counted(t', 4) && Holding(t', DELIVERED, map[], map[Id(6) := DISPUTED.(status := DisputeRejected)])
  {
    t' := t.(orders := map[Id(3) := DELIVERED]);
    GoodsDelivered(t);
    CountStep(t, 3, DoMarkDelivered(Id(3), Id(10), 6), t', 4);
  }

  lemma Completed(t: Tables)
    requires Counted(t, 4) && Holding(t, DELIVERED, map[], map[Id(6) := DISPUTED.(status := DisputeRejected)])
    ensures exists ops :: Changes(EMPTY, ops, Id(3)) == 5
  {
    GoodsReceived(t);
    var t' := ConfirmReceived(t, Id(3), Id(11), Id(8), 7).db;
    CountStep(t, 4, DoConfirmReceived(Id(3), Id(11), Id(8), 7), t', 5);
  }

  /** The bound on status changes is reached: pay, dispute, resume, deliver, complete. */
  lemma FiveChangesHappen()
    ensures exists ops :: Changes(EMPTY, ops, Id(3)) == 5
  {
    var paid := Charged();
    var contested := Contested(paid, map[]);
    var resumed := Resumed(contested);
    var delivered := Delivered(resumed);
    Completed(delivered);
  }
}
