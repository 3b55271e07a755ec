/** What the marketplace invariant means over whole runs: how an order row may move, that a paid
    item is sold once, how disputes end, and that refunds and settlements exclude each other. */
module MarketRuns {
  import opened Support
  import opened Commission
  import opened Market
  import opened MarketInvariant

  // ---------- the life of one order row ----------

  /** The moves of an order row; each changes the status and the matching time stamp only. */
  ghost predicate RowStep(o: Order, o': Order) {
    || o' == o
    || (&& o.status == OrderPendingPayment && o' == o.(status := OrderPaid, paidAt := o'.paidAt)
        && o'.paidAt.Some? && o'.paidAt.value < o.expiresAt)
    || (o.status == OrderPendingPayment && o' == o.(status := OrderCancelled, cancelledAt := o'.cancelledAt))
    || (o.status == OrderPaid && o' == o.(status := OrderDelivered, deliveredAt := o'.deliveredAt))
    || (o.status == OrderDelivered && o' == o.(status := OrderCompleted, completedAt := o'.completedAt))
    || (Held(o.status) && o' == o.(status := OrderRefunded, refundedAt := o'.refundedAt))
    || (&& o.status in {OrderPaid, OrderDelivered} && o.disputedAt.None?
        && o' == o.(status := OrderDisputed, disputedAt := o'.disputedAt) && o'.disputedAt.Some?)
    || (&& o.status == OrderDisputed && o.disputedAt.Some?
        && o' == o.(status := if o.deliveredAt.Some? then OrderDelivered else OrderPaid))
  }

  ghost predicate RowKept(t: Tables, t': Tables, id: Id) {
    id in t.orders ==> id in t'.orders && RowStep(t.orders[id], t'.orders[id])
  }

  ghost predicate RowBorn(t: Tables, t': Tables, id: Id) {
    id !in t.orders && id in t'.orders ==> t'.orders[id].status == OrderPendingPayment
  }

  /** Transactions on categories, items and records other than orders leave order rows alone. */
  ghost predicate Quiet(op: Op) {
    || op.DoSaveCategory? || op.DoCreateItem? || op.DoUpdateItem? || op.DoWithdrawItem?
    || op.DoStartPayment? || op.DoAttachTransaction? || op.DoCreateRefund? || op.DoUpdateSettlement?
  }

  lemma QuietOpsLeaveOrders(t: Tables, op: Op)
    requires Quiet(op)
    ensures Apply(t, op).orders == t.orders
  {}

  lemma HideMovesRow(t: Tables, op: Op, id: Id)
    requires op.DoHideItem?
    ensures RowKept(t, Apply(t, op), id) && RowBorn(t, Apply(t, op), id)
  {}

  lemma ReservationOpsMoveRow(t: Tables, op: Op, id: Id)
    requires op.DoCreateOrder? || op.DoCancelOrder? || op.DoExpireOrder?
    ensures RowKept(t, Apply(t, op), id) && RowBorn(t, Apply(t, op), id)
  {}

  lemma CallbackMovesRow(t: Tables, op: Op, id: Id)
    requires op.DoPaymentCallback?
    ensures RowKept(t, Apply(t, op), id) && RowBorn(t, Apply(t, op), id)
  {}

  lemma DeliveryMovesRow(t: Tables, op: Op, id: Id)
    requires op.DoMarkDelivered?
    ensures RowKept(t, Apply(t, op), id) && RowBorn(t, Apply(t, op), id)
  {}

  lemma RefundMovesRow(t: Tables, op: Op, id: Id)
    requires op.DoDecideRefund?
    ensures RowKept(t, Apply(t, op), id) && RowBorn(t, Apply(t, op), id)
  {}

  lemma CompletionMovesOneRow(t: Tables, id: Id, settlement: Id, now: int)
    requires id in t.orders
    ensures var orders := CompleteOrder(t, id, settlement, now).After(t).orders;
      || orders == t.orders
      || (&& t.orders[id].status == OrderDelivered
          && orders == t.orders[id := t.orders[id].(status := OrderCompleted, completedAt := Some(now))])
  {}

  lemma CompletionOpsMoveRow(t: Tables, op: Op, id: Id)
    requires op.DoConfirmReceived? || op.DoAutoComplete?
    ensures RowKept(t, Apply(t, op), id) && RowBorn(t, Apply(t, op), id)
  {
    if op.id in t.orders {
      CompletionMovesOneRow(t, op.id, op.settlement, op.now);
      assert Apply(t, op) == t || Apply(t, op) == CompleteOrder(t, op.id, op.settlement, op.now).After(t);
    }
  }

  lemma DisputeMovesRow(t: Tables, op: Op, id: Id)
    requires DisputesOk(t.orders, t.disputes) && op.DoCreateDispute?
    ensures RowKept(t, Apply(t, op), id) && RowBorn(t, Apply(t, op), id)
  {
    var DoCreateDispute(d, order, who, now) := op;
    if CreateDispute(t, d, order, who, now).Commit? {
      assert t.orders[order].disputedAt.None?;
    }
  }

  lemma ResolvedRow(d: Dispute, o: Order, now: int)
    requires DisputeOk(d, o) && StampsOk(o) && d.status == DisputePending
    ensures RowStep(o, o.(status := d.previous))
    ensures RowStep(o, o.(status := OrderRefunded, refundedAt := Some(now)))
  {}

  lemma ResolveMovesOneRow(t: Tables, d: Id, refund: bool, gatewayID: string, refundID: Id, now: int)
    requires ResolveDispute(t, d, refund, gatewayID, refundID, now).Commit?
    ensures d in t.disputes && t.disputes[d].status == DisputePending && t.disputes[d].order in t.orders
    ensures var orders := ResolveDispute(t, d, refund, gatewayID, refundID, now).db.orders;
      var order := t.disputes[d].order; var o := t.orders[order];
      || orders == t.orders[order := o.(status := t.disputes[d].previous)]
      || orders == t.orders[order := o.(status := OrderRefunded, refundedAt := Some(now))]
  {}

  lemma ResolveMovesRow(t: Tables, op: Op, id: Id)
    requires OrdersOk(t.orders) && DisputesOk(t.orders, t.disputes) && op.DoResolveDispute?
    ensures RowKept(t, Apply(t, op), id) && RowBorn(t, Apply(t, op), id)
  {
    var DoResolveDispute(d, refund, gatewayID, refundID, now) := op;
    if ResolveDispute(t, d, refund, gatewayID, refundID, now).Commit? {
      ResolveMovesOneRow(t, d, refund, gatewayID, refundID, now);
      ResolvedRow(t.disputes[d], t.orders[t.disputes[d].order], now);
    }
  }

  /** No transaction moves an order row in any other way, and every row starts unpaid. */
  lemma ApplyMovesRow(t: Tables, op: Op, id: Id)
    requires Inv(t)
    ensures RowKept(t, Apply(t, op), id) && RowBorn(t, Apply(t, op), id)
  {
    if Quiet(op) {
      QuietOpsLeaveOrders(t, op);
    } else if op.DoCreateDispute? {
      DisputeMovesRow(t, op, id);
    } else if op.DoResolveDispute? {
      ResolveMovesRow(t, op, id);
    } else if op.DoConfirmReceived? || op.DoAutoComplete? {
      CompletionOpsMoveRow(t, op, id);
    } else if op.DoPaymentCallback? {
      CallbackMovesRow(t, op, id);
    } else if op.DoMarkDelivered? {
      DeliveryMovesRow(t, op, id);
    } else if op.DoDecideRefund? {
      RefundMovesRow(t, op, id);
    } else if op.DoHideItem? {
      HideMovesRow(t, op, id);
    } else {
      ReservationOpsMoveRow(t, op, id);
    }
  }

  // ---------- absorbing statuses and the number of status changes ----------

  ghost predicate Terminal(s: OrderStatus) {
    s in {OrderCompleted, OrderCancelled, OrderRefunded}
  }

  /** How many status changes an order can still make; a dispute can be opened once. */
  ghost function Budget(o: Order): nat {
    match o.status
    case OrderPendingPayment => 5
    case OrderPaid => if o.disputedAt.None? then 4 else 2
    case OrderDelivered => if o.disputedAt.None? then 3 else 1
    case OrderDisputed => if o.deliveredAt.None? then 3 else 2
    case _ => 0
  }

  ghost function Changed(t: Tables, t': Tables, id: Id): nat {
    if id in t.orders && id in t'.orders && t.orders[id].status != t'.orders[id].status then 1 else 0
  }

  /** The number of status changes of one order in a run. */
  ghost function Changes(t: Tables, ops: seq<Op>, id: Id): nat
    decreases |ops|
  {
    if ops == [] then 0 else
      var before := ops[..|ops| - 1];
      Changes(t, before, id) + Changed(Run(t, before), Run(t, ops), id)
  }

  ghost function BudgetIn(t: Tables, id: Id): nat {
    if id in t.orders then Budget(t.orders[id]) else 5
  }

  lemma RowStepSpends(o: Order, o': Order)
    requires RowStep(o, o') && StampsOk(o)
    ensures Budget(o') + (if o.status != o'.status then 1 else 0) <= Budget(o)
  {}

  lemma StepSpendsBudget(t: Tables, op: Op, id: Id)
    requires Inv(t)
    ensures Changed(t, Apply(t, op), id) + BudgetIn(Apply(t, op), id) <= BudgetIn(t, id)
  {
    ApplyMovesRow(t, op, id);
    if id in t.orders {
      RowStepSpends(t.orders[id], Apply(t, op).orders[id]);
    }
  }

  /** Whatever happens, an order makes at most five status changes. */
  lemma {:induction false} AtMostFiveChanges(t: Tables, ops: seq<Op>, id: Id)
    requires Inv(t)
    ensures Changes(t, ops, id) + BudgetIn(Run(t, ops), id) <= BudgetIn(t, id) <= 5
    decreases |ops|
  {
    if ops != [] {
      var before := ops[..|ops| - 1];
      AtMostFiveChanges(t, before, id);
      RunKeeps(t, before);
      StepSpendsBudget(Run(t, before), ops[|ops| - 1], id);
    }
  }

  /** What never changes about an order row, and what stays once it holds. */
  ghost predicate LaterRow(o: Order, o': Order) {
    && o'.item == o.item && o'.buyer == o.buyer && o'.seller == o.seller
    && o'.price == o.price && o'.rateBps == o.rateBps && o'.fee == o.fee && o'.net == o.net
    && o'.expiresAt == o.expiresAt
    && (o.paidAt.Some? ==> o'.paidAt == o.paidAt)
    && (Terminal(o.status) ==> o' == o)
    && (o.disputedAt.Some? ==> o'.disputedAt == o.disputedAt && (o' == o || o'.status != OrderDisputed))
  }

  lemma LaterRowStep(o: Order, o': Order, o'': Order)
    requires StampsOk(o) && StampsOk(o') && LaterRow(o, o') && RowStep(o', o'')
    ensures LaterRow(o, o'')
  {}

  /** Terms are fixed, a payment date is never lost, completed, cancelled and refunded rows are
      frozen, and a disputed order that leaves the dispute never returns to one. */
  lemma {:induction false} RowsOverRuns(t: Tables, ops: seq<Op>, id: Id)
    requires Inv(t) && id in t.orders
    ensures id in Run(t, ops).orders && LaterRow(t.orders[id], Run(t, ops).orders[id])
    decreases |ops|
  {
    if ops != [] {
      var before := ops[..|ops| - 1];
      RowsOverRuns(t, before, id);
      RunKeeps(t, before);
      var mid := Run(t, before);
      ApplyMovesRow(mid, ops[|ops| - 1], id);
      LaterRowStep(t.orders[id], mid.orders[id], Run(t, ops).orders[id]);
    }
  }

  // ---------- single sale ----------

  /** At any moment an item has at most one live order and at most one that was ever paid. */
  lemma OneLiveOrder(t: Tables, o: Id, u: Id)
    requires Inv(t)
    requires o in t.orders && u in t.orders && t.orders[o].item == t.orders[u].item
    requires Live(t.orders[o].status) || t.orders[o].paidAt.Some?
    requires Live(t.orders[u].status) || t.orders[u].paidAt.Some?
    ensures o == u
  {
    assert StampsOk(t.orders[o]) && StampsOk(t.orders[u]) && !Rivals(t.orders, o, u);
  }

  /** Once an order has been paid, in every later state its item is neither draft nor published,
      whatever moderation does to it, and no other order for the item is live or was ever paid. */
  lemma SingleSale(t: Tables, ops: seq<Op>, o: Id, u: Id)
    requires Inv(t) && o in t.orders && t.orders[o].paidAt.Some?
    ensures var t' := Run(t, ops);
      && o in t'.orders && t'.orders[o].paidAt == t.orders[o].paidAt
      && t'.orders[o].item == t.orders[o].item && t'.orders[o].item in t'.items
      && t'.items[t'.orders[o].item].status !in {ItemDraft, ItemPublished}
      && (u in t'.orders && u != o && t'.orders[u].item == t.orders[o].item ==>
            t'.orders[u].status == OrderCancelled && t'.orders[u].paidAt.None?)
  {
    var t' := Run(t, ops);
    RunKeeps(t, ops);
    RowsOverRuns(t, ops, o);
    assert StampsOk(t'.orders[o]) && OrderCustody(t'.items, o, t'.orders[o]);
    if u in t'.orders && u != o && t'.orders[u].item == t.orders[o].item {
      assert StampsOk(t'.orders[u]) && !Rivals(t'.orders, o, u);
    }
  }

  /** In every reachable state: no payment at or after expiry, and fee plus net is the price the
      buyer was quoted, at the rate of the day the order was made. */
  lemma ReachableOrderTerms(ops: seq<Op>, id: Id)
    requires id in Run(EMPTY, ops).orders
    ensures var o := Run(EMPTY, ops).orders[id];
      && (o.paidAt.Some? ==> o.paidAt.value < o.expiresAt)
      && o.fee == (o.price * o.rateBps) / BPS && 0 <= o.fee <= o.price
      && o.fee + o.net == o.price
  {
    EveryRunIsSafe(ops);
    var o := Run(EMPTY, ops).orders[id];
    assert TermsOk(o) && StampsOk(o);
    FeeIsFloor(o.price, o.rateBps);
  }
}
