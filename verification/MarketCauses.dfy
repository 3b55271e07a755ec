/** Who causes what: for every status an order can enter, the transactions that make it enter, exactly; and
    over whole runs, where an order's terms came from and who released, returned or kept its money. */
module MarketCauses {
  import opened Support
  import opened Commission
  import opened Market
  import opened MarketInvariant
  import opened MarketRuns
  import opened MarketReference

  ghost predicate Enters(t: Tables, op: Op, id: Id, s: OrderStatus) {
    && id in t.orders && t.orders[id].status != s
    && id in Apply(t, op).orders && Apply(t, op).orders[id].status == s
  }

  ghost predicate ChargesBy(t: Tables, op: Op, id: Id) {
    op.DoPaymentCallback? && exists p :: MayCharge(t, p, op.requestID, op.tx, op.amount, op.now) && t.payments[p].order == id
  }

  ghost predicate DeliversBy(t: Tables, op: Op, id: Id) {
    op.DoMarkDelivered? && op.id == id && id in t.orders && t.orders[id].status == OrderPaid && t.orders[id].seller == op.seller
  }

  ghost predicate DisputesBy(t: Tables, op: Op, id: Id) {
    op.DoCreateDispute? && op.order == id && MayDispute(t, op.id, id, op.who)
  }

  ghost predicate RefundsBy(t: Tables, op: Op, id: Id) {
    || (op.DoDecideRefund? && op.approved && MayPayOut(t, op.id, op.gatewayID) && t.refunds[op.id].order == id)
    || (op.DoResolveDispute? && op.refund && MayCompensate(t, op.id, op.gatewayID, op.refundID) && t.disputes[op.id].order == id)
  }

  ghost predicate ResumesBy(t: Tables, op: Op, id: Id) {
    op.DoResolveDispute? && !op.refund && Pending(t, op.id) && t.disputes[op.id].order == id
  }

  /** What may be said of the order row a transaction writes. */
  ghost predicate Caused(t: Tables, op: Op, id: Id, row: Order) {
    match row.status
    case OrderPendingPayment => op.DoCreateOrder? && op.id == id && MayOrder(t, id, op.item, op.buyer)
    case OrderPaid => ChargesBy(t, op, id) || ResumesBy(t, op, id)
    case OrderDelivered => DeliversBy(t, op, id) || ResumesBy(t, op, id)
    case OrderCompleted => CompletesBy(t, op, id)
    case OrderCancelled => CancelsBy(t, op, id)
    case OrderRefunded => RefundsBy(t, op, id)
    case OrderDisputed => DisputesBy(t, op, id)
  }

  /** A dispute was raised on a paid or a delivered order. */
  ghost predicate RaisedOnHeld(t: Tables) {
    forall d :: Pending(t, d) ==> t.disputes[d].previous in {OrderPaid, OrderDelivered}
  }

  lemma DisputesAreOnHeld(t: Tables)
    requires DisputesOk(t.orders, t.disputes)
    ensures RaisedOnHeld(t)
  {
    forall d | Pending(t, d)
      ensures t.disputes[d].previous in {OrderPaid, OrderDelivered}
    {
      assert DisputeOk(t.disputes[d], t.orders[t.disputes[d].order]);
    }
  }

  lemma EveryWriteIsCaused(t: Tables, op: Op)
    requires RaisedOnHeld(t)
    ensures OrderWrite(t, op).Some? ==> Caused(t, op, OrderWrite(t, op).value.id, OrderWrite(t, op).value.row)
    ensures OrderWrite(t, op).Some? ==> op.DoCreateOrder? || OrderWrite(t, op).value.id in t.orders
  {}

  lemma OrdersByReference(t: Tables, op: Op)
    requires Inv(t)
    ensures Apply(t, op).orders == With(t.orders, OrderWrite(t, op))
  {
    ApplyByReference(t, op);
  }

  // ---------- one transaction ----------

  /** An order row appears exactly by an order that may be placed, with the terms of the moment. */
  lemma BornIff(t: Tables, op: Op, id: Id)
    requires Inv(t) && id !in t.orders
    ensures id in Apply(t, op).orders <==> op.DoCreateOrder? && op.id == id && MayOrder(t, id, op.item, op.buyer)
    ensures id in Apply(t, op).orders ==> Apply(t, op).orders[id] == NewRow(t, op.item, op.buyer, op.now)
  {
    OrdersByReference(t, op);
    DisputesAreOnHeld(t);
    EveryWriteIsCaused(t, op);
  }

  /** A status is entered only by a transaction that causes it. */
  lemma EntersOnlyBy(t: Tables, op: Op, id: Id, s: OrderStatus)
    requires Inv(t) && Enters(t, op, id, s)
    ensures OrderWrite(t, op).Some? && OrderWrite(t, op).value.id == id && OrderWrite(t, op).value.row == Apply(t, op).orders[id]
    ensures Caused(t, op, id, Apply(t, op).orders[id])
  {
    OrdersByReference(t, op);
    DisputesAreOnHeld(t);
    EveryWriteIsCaused(t, op);
  }

  lemma EntersByWrite(t: Tables, op: Op, id: Id, row: Order)
    requires Inv(t) && OrderWrite(t, op) == Some(Write(id, row)) && id in t.orders && row.status != t.orders[id].status
    ensures Enters(t, op, id, row.status)
  {
    OrdersByReference(t, op);
  }

  lemma CompletionWrites(t: Tables, op: Op, id: Id) returns (row: Order)
    requires CompletesBy(t, op, id)
    ensures OrderWrite(t, op) == Some(Write(id, row)) && row.status == OrderCompleted
  {
    row := t.orders[id].(status := OrderCompleted, completedAt := Some(op.now));
  }

  /** Only the buyer's confirmation, or the passing of the cutoff after delivery, releases the money, and
      either always does when nothing stands in its way. */
  lemma CompletedIff(t: Tables, op: Op, id: Id)
    requires Inv(t)
    ensures Enters(t, op, id, OrderCompleted) <==> CompletesBy(t, op, id)
  {
    if Enters(t, op, id, OrderCompleted) {
      EntersOnlyBy(t, op, id, OrderCompleted);
    }
    if CompletesBy(t, op, id) {
      var row := CompletionWrites(t, op, id);
      EntersByWrite(t, op, id, row);
    }
  }

  lemma DeliveryWrites(t: Tables, op: Op, id: Id) returns (row: Order)
    requires DeliversBy(t, op, id)
    ensures OrderWrite(t, op) == Some(Write(id, row)) && row.status == OrderDelivered
  {
    row := t.orders[id].(status := OrderDelivered, deliveredAt := Some(op.now));
  }

  lemma ResumptionWrites(t: Tables, op: Op, id: Id) returns (row: Order)
    requires ResumesBy(t, op, id) && DisputesOk(t.orders, t.disputes)
    ensures OrderWrite(t, op) == Some(Write(id, row)) && row.status == t.disputes[op.id].previous
    ensures t.orders[id].status == OrderDisputed && row.status in {OrderPaid, OrderDelivered}
  {
    row := t.orders[id].(status := t.disputes[op.id].previous);
    assert DisputeOk(t.disputes[op.id], t.orders[id]);
  }

  /** Only the seller delivers; a dispute may also fall back to delivery. */
  lemma DeliveredIff(t: Tables, op: Op, id: Id)
    requires Inv(t)
    ensures Enters(t, op, id, OrderDelivered) <==>
      DeliversBy(t, op, id) || (ResumesBy(t, op, id) && t.disputes[op.id].previous == OrderDelivered)
  {
    if Enters(t, op, id, OrderDelivered) {
      EntersOnlyBy(t, op, id, OrderDelivered);
    }
    if DeliversBy(t, op, id) {
      var row := DeliveryWrites(t, op, id);
      EntersByWrite(t, op, id, row);
    } else if ResumesBy(t, op, id) {
      var row := ResumptionWrites(t, op, id);
      EntersByWrite(t, op, id, row);
    }
  }

  lemma CancellationWrites(t: Tables, op: Op, id: Id) returns (row: Order)
    requires CancelsBy(t, op, id) && Custody(t.items, t.orders)
    ensures OrderWrite(t, op) == Some(Write(id, row)) && row.status == OrderCancelled
  {
    row := t.orders[id].(status := OrderCancelled, cancelledAt := Some(op.now));
    if op.DoHideItem? {
      HidesOrder(t, op, id);
      HideOrderWrite(t, op);
    }
  }

  /** Only the buyer, the expiry of the order, or the hiding of its item cancels. */
  lemma CancelledIff(t: Tables, op: Op, id: Id)
    requires Inv(t)
    ensures Enters(t, op, id, OrderCancelled) <==> CancelsBy(t, op, id)
  {
    if Enters(t, op, id, OrderCancelled) {
      EntersOnlyBy(t, op, id, OrderCancelled);
    }
    if CancelsBy(t, op, id) {
      var row := CancellationWrites(t, op, id);
      EntersByWrite(t, op, id, row);
    }
  }

  lemma DisputeWrites(t: Tables, op: Op, id: Id) returns (row: Order)
    requires DisputesBy(t, op, id)
    ensures OrderWrite(t, op) == Some(Write(id, row)) && row.status == OrderDisputed
  {
    row := t.orders[id].(status := OrderDisputed, disputedAt := Some(op.now));
  }

  /** Only a party to the order raises a dispute. */
  lemma DisputedIff(t: Tables, op: Op, id: Id)
    requires Inv(t)
    ensures Enters(t, op, id, OrderDisputed) <==> DisputesBy(t, op, id)
  {
    if Enters(t, op, id, OrderDisputed) {
      EntersOnlyBy(t, op, id, OrderDisputed);
    }
    if DisputesBy(t, op, id) {
      var row := DisputeWrites(t, op, id);
      EntersByWrite(t, op, id, row);
    }
  }

  lemma RefundWrites(t: Tables, op: Op, id: Id) returns (row: Order)
    requires RefundsBy(t, op, id) && RefundsOk(t.orders, t.refunds) && DisputesOk(t.orders, t.disputes)
    ensures OrderWrite(t, op) == Some(Write(id, row)) && row.status == OrderRefunded
    ensures id in t.orders && t.orders[id].status != OrderRefunded
  {
    if op.DoDecideRefund? {
      assert RefundOk(t.refunds[op.id], t.orders[id]);
    } else {
      assert DisputeOk(t.disputes[op.id], t.orders[id]);
    }
    row := t.orders[id].(status := OrderRefunded, refundedAt := Some(op.now));
  }

  /** Only an approved refund or a dispute decided for one sends the money back. */
  lemma RefundedIff(t: Tables, op: Op, id: Id)
    requires Inv(t)
    ensures Enters(t, op, id, OrderRefunded) <==> RefundsBy(t, op, id)
  {
    if Enters(t, op, id, OrderRefunded) {
      EntersOnlyBy(t, op, id, OrderRefunded);
    }
    if RefundsBy(t, op, id) {
      var row := RefundWrites(t, op, id);
      EntersByWrite(t, op, id, row);
    }
  }

  lemma ChargeWrites(t: Tables, op: Op, id: Id) returns (row: Order)
    requires ChargesBy(t, op, id) && UniqueRequests(t.payments)
    ensures OrderWrite(t, op) == Some(Write(id, row)) && row.status == OrderPaid
    ensures id in t.orders && t.orders[id].status == OrderPendingPayment
  {
    var p :| MayCharge(t, p, op.requestID, op.tx, op.amount, op.now) && t.payments[p].order == id;
    forall q | MayCharge(t, q, op.requestID, op.tx, op.amount, op.now)
      ensures q == p
    {
      assert t.payments[q].requestID == t.payments[p].requestID;
    }
    row := t.orders[id].(status := OrderPaid, paidAt := Some(op.now));
  }

  /** Only a callback for one of its pending payments, to the cent and before the expiry, pays an order; a
      dispute may also fall back to paid. */
  lemma PaidIff(t: Tables, op: Op, id: Id)
    requires Inv(t)
    ensures Enters(t, op, id, OrderPaid) <==>
      ChargesBy(t, op, id) || (ResumesBy(t, op, id) && t.disputes[op.id].previous == OrderPaid)
  {
    if Enters(t, op, id, OrderPaid) {
      EntersOnlyBy(t, op, id, OrderPaid);
    }
    if ChargesBy(t, op, id) {
      var row := ChargeWrites(t, op, id);
      EntersByWrite(t, op, id, row);
    } else if ResumesBy(t, op, id) {
      var row := ResumptionWrites(t, op, id);
      EntersByWrite(t, op, id, row);
    }
  }

  // ---------- over runs ----------

  ghost predicate SameTerms(o: Order, n: Order) {
    && o.item == n.item && o.buyer == n.buyer && o.seller == n.seller && o.price == n.price && o.rateBps == n.rateBps
    && o.fee == n.fee && o.net == n.net && o.expiresAt == n.expiresAt
  }

  /** The k-th transaction of the run placed the order. */
  ghost predicate PlacedAt(ops: seq<Op>, k: nat, id: Id)
    requires k < |ops|
  {
    ops[k].DoCreateOrder? && ops[k].id == id && MayOrder(Run(EMPTY, ops[..k]), id, ops[k].item, ops[k].buyer)
  }

  ghost predicate TermsFrom(ops: seq<Op>, k: nat, o: Order)
    requires k < |ops|
  {
    && ops[k].DoCreateOrder? && OnSale(Run(EMPTY, ops[..k]), ops[k].item)
    && SameTerms(o, NewRow(Run(EMPTY, ops[..k]), ops[k].item, ops[k].buyer, ops[k].now))
  }

  lemma OriginStays(ops: seq<Op>, k: nat, id: Id)
    requires k < |ops| - 1 && id in Run(EMPTY, ops[..|ops| - 1]).orders && id in Run(EMPTY, ops).orders
    requires PlacedAt(ops[..|ops| - 1], k, id) && TermsFrom(ops[..|ops| - 1], k, Run(EMPTY, ops[..|ops| - 1]).orders[id])
    ensures PlacedAt(ops, k, id) && TermsFrom(ops, k, Run(EMPTY, ops).orders[id])
  {
    var before := ops[..|ops| - 1];
    assert before[..k] == ops[..k] && before[k] == ops[k];
    TermsStay(before, ops[|ops| - 1], id);
  }

  lemma TermsStay(before: seq<Op>, op: Op, id: Id)
    requires id in Run(EMPTY, before).orders
    ensures id in Apply(Run(EMPTY, before), op).orders && SameTerms(Apply(Run(EMPTY, before), op).orders[id], Run(EMPTY, before).orders[id])
  {
    EveryRunIsSafe(before);
    ApplyMovesRow(Run(EMPTY, before), op, id);
  }

  /** In every run, every order was placed by a buyer other than the seller on an item then on sale, and
      still carries the seller, the price and the category's rate of that moment, whatever has happened to
      the item and the category since. */
  lemma {:induction false} OrderOrigin(ops: seq<Op>, id: Id) returns (k: nat)
    requires id in Run(EMPTY, ops).orders
    ensures k < |ops| && PlacedAt(ops, k, id) && TermsFrom(ops, k, Run(EMPTY, ops).orders[id])
    decreases |ops|
  {
    var before, last := ops[..|ops| - 1], ops[|ops| - 1];
    var t := Run(EMPTY, before);
    EveryRunIsSafe(before);
    if id in t.orders {
      k := OrderOrigin(before, id);
      OriginStays(ops, k, id);
    } else {
      BornIff(t, last, id);
      k := |ops| - 1;
    }
  }

  /** The k-th transaction of the run made the order enter the status. */
  ghost predicate EnteredAt(ops: seq<Op>, k: nat, id: Id, s: OrderStatus)
    requires k < |ops|
  {
    Enters(Run(EMPTY, ops[..k]), ops[k], id, s)
  }

  /** In every run, an order that is in a status other than the first entered it by some transaction. */
  lemma {:induction false} StatusEntered(ops: seq<Op>, id: Id) returns (k: nat)
    requires id in Run(EMPTY, ops).orders && Run(EMPTY, ops).orders[id].status != OrderPendingPayment
    ensures k < |ops| && EnteredAt(ops, k, id, Run(EMPTY, ops).orders[id].status)
    decreases |ops|
  {
    var before, last := ops[..|ops| - 1], ops[|ops| - 1];
    var t := Run(EMPTY, before);
    EveryRunIsSafe(before);
    ApplyMovesRow(t, last, id);
    if id in t.orders && t.orders[id].status == Run(EMPTY, ops).orders[id].status {
      k := StatusEntered(before, id);
      assert before[..k] == ops[..k] && before[k] == ops[k];
    } else {
      k := |ops| - 1;
    }
  }

  /** In every run, the money of a completed order was released by its buyer's confirmation, or by the
      job once the delivery was as old as its cutoff asks. */
  lemma CompletedByBuyerOrTime(ops: seq<Op>, id: Id) returns (k: nat)
    requires id in Run(EMPTY, ops).orders && Run(EMPTY, ops).orders[id].status == OrderCompleted
    ensures k < |ops| && CompletesBy(Run(EMPTY, ops[..k]), ops[k], id)
  {
    k := StatusEntered(ops, id);
    EveryRunIsSafe(ops[..k]);
    CompletedIff(Run(EMPTY, ops[..k]), ops[k], id);
  }
}
