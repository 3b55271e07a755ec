/** Refunds, disputes and settlements: how they exclude each other, what approving, refunding and
    resuming really leave behind, and where the refund records stop telling the whole story. */
module MarketResolution {
  import opened Support
  import opened Market
  import opened MarketInvariant
  import opened MarketRuns

  // ---------- interlock ----------

  /** No order has a pending refund and a pending dispute at once. */
  lemma RefundAndDisputeExclude(t: Tables, r: Id, d: Id)
    requires Inv(t)
    requires r in t.refunds && t.refunds[r].status == RecordPending
    requires d in t.disputes && t.disputes[d].status == DisputePending
    ensures t.refunds[r].order != t.disputes[d].order
  {
    assert RefundOk(t.refunds[r], t.orders[t.refunds[r].order]);
    assert DisputeOk(t.disputes[d], t.orders[t.disputes[d].order]);
  }

  lemma DisputedIffPendingDispute(t: Tables, o: Id)
    requires Inv(t) && o in t.orders
    ensures t.orders[o].status == OrderDisputed <==>
      exists d :: DisputeOf(t.disputes, d, o) && t.disputes[d].status == DisputePending
  {
    if t.orders[o].status == OrderDisputed {
      assert StampsOk(t.orders[o]);
      var d :| DisputeOf(t.disputes, d, o);
      assert DisputeOk(t.disputes[d], t.orders[o]);
    }
    if d :| DisputeOf(t.disputes, d, o) && t.disputes[d].status == DisputePending {
      assert DisputeOk(t.disputes[d], t.orders[o]);
    }
  }

  /** Approving a refund never misses its order, although nothing checks the row count: the order
      ends refunded, its item off the shop and unreserved, the record succeeded. */
  lemma ApprovedRefundLands(t: Tables, id: Id, gatewayID: string, now: int)
    requires Inv(t) && DecideRefund(t, id, true, gatewayID, now).Commit?
    ensures var t' := DecideRefund(t, id, true, gatewayID, now).db; var o := t.refunds[id].order;
      && o in t'.orders && t'.orders[o] == t.orders[o].(status := OrderRefunded, refundedAt := Some(now))
      && t.orders[o].item in t'.items
      && t'.items[t.orders[o].item].status == ItemWithdrawn && t'.items[t.orders[o].item].reservedOrder.None?
      && t'.refunds[id].status == RecordSucceeded && t'.refunds[id].amount == t.orders[o].price
  {
    assert RefundOk(t.refunds[id], t.orders[t.refunds[id].order]);
    assert OrderCustody(t.items, t.refunds[id].order, t.orders[t.refunds[id].order]);
  }

  // ---------- settlements exclude refunds ----------

  /** A settlement exists exactly for a completed order and pays out the seller's net amount. */
  lemma SettlementIffCompleted(t: Tables, o: Id)
    requires Inv(t) && o in t.orders
    ensures HasSettlement(t, o) <==> t.orders[o].status == OrderCompleted
    ensures forall s, q :: SettlementOf(t.settlements, s, o) && SettlementOf(t.settlements, q, o) ==> s == q
    ensures forall s :: SettlementOf(t.settlements, s, o) ==>
      t.settlements[s].amount == t.orders[o].net && t.settlements[s].requestID == SettlementRequestID(o)
  {
    forall s | SettlementOf(t.settlements, s, o)
      ensures SettlementOk(t.settlements[s], t.orders[o])
    {
      assert RowSettled(t.orders, t.settlements, s);
    }
  }

  /** A completed order's refund records are all rejected ones. */
  lemma CompletedHasNoRefund(t: Tables, o: Id, r: Id)
    requires Inv(t) && o in t.orders && t.orders[o].status == OrderCompleted && RefundOf(t.refunds, r, o)
    ensures t.refunds[r].status == RecordRejected
  {
    assert RefundOk(t.refunds[r], t.orders[o]);
  }

  /** Once completed, an order is settled and never refunded in any later state: none of its refund
      records is pending or succeeded, ever. */
  lemma CompletedNeverRefunded(t: Tables, ops: seq<Op>, o: Id, r: Id)
    requires Inv(t) && o in t.orders && t.orders[o].status == OrderCompleted
    ensures var t' := Run(t, ops);
      && o in t'.orders && t'.orders[o] == t.orders[o] && HasSettlement(t', o)
      && (RefundOf(t'.refunds, r, o) ==> t'.refunds[r].status == RecordRejected)
  {
    RunKeeps(t, ops);
    RowsOverRuns(t, ops, o);
    var t' := Run(t, ops);
    SettlementIffCompleted(t', o);
    if RefundOf(t'.refunds, r, o) {
      CompletedHasNoRefund(t', o, r);
    }
  }

  /** One settlement request id per order. */
  lemma SettlementRequestsDiffer(o: Id, u: Id)
    requires SettlementRequestID(o) == SettlementRequestID(u)
    ensures o == u
  {
    assert SettlementRequestID(o)[|"settlement:"|..] == Decimal(o);
    assert SettlementRequestID(u)[|"settlement:"|..] == Decimal(u);
    DecimalInjective(o, u);
  }

  // ---------- a refunded order without a refund record ----------

  ghost predicate RefundRecorded(t: Tables, o: Id) {
    exists r :: RefundOf(t.refunds, r, o) && t.refunds[r].status == RecordSucceeded
  }

  /** A dispute refund is recorded as a succeeded refund exactly when the order had no refund record
      before; an earlier rejected request silently takes the record's place. */
  lemma DisputeRefundRecordedIff(t: Tables, id: Id, gatewayID: string, refundID: Id, now: int)
    requires Inv(t) && ResolveDispute(t, id, true, gatewayID, refundID, now).Commit?
    ensures var t' := ResolveDispute(t, id, true, gatewayID, refundID, now).db; var o := t.disputes[id].order;
      && o in t'.orders && t'.orders[o].status == OrderRefunded
      && (RefundRecorded(t', o) <==> !HasRefund(t, o))
  {
    var t' := ResolveDispute(t, id, true, gatewayID, refundID, now).db;
    var o := t.disputes[id].order;
    if HasRefund(t, o) {
      assert forall r :: RefundOf(t.refunds, r, o) ==> RefundOk(t.refunds[r], t.orders[o]);
    } else {
      assert RefundOf(t'.refunds, refundID, o);
    }
  }

  // ---------- resuming a dispute ----------

  ghost predicate PaymentKept(t: Tables, t': Tables, p: Id) {
    p in t.payments ==>
      && p in t'.payments && t'.payments[p].order == t.payments[p].order && t'.payments[p].amount == t.payments[p].amount
      && (t.payments[p].status == RecordSucceeded ==> t'.payments[p] == t.payments[p])
  }

  ghost predicate DisputeKept(t: Tables, t': Tables, d: Id) {
    d in t.disputes ==>
      && d in t'.disputes && t'.disputes[d] == t.disputes[d].(status := t'.disputes[d].status)
      && (t.disputes[d].status != DisputePending ==> t'.disputes[d] == t.disputes[d])
  }

  ghost predicate ShopOp(op: Op) {
    || op.DoSaveCategory? || op.DoCreateItem? || op.DoUpdateItem? || op.DoWithdrawItem? || op.DoHideItem?
    || op.DoCreateOrder? || op.DoCancelOrder? || op.DoExpireOrder? || op.DoMarkDelivered?
  }

  ghost predicate PaymentOp(op: Op) {
    op.DoStartPayment? || op.DoAttachTransaction? || op.DoPaymentCallback?
  }

  ghost predicate ResolutionOp(op: Op) {
    op.DoCreateRefund? || op.DoDecideRefund? || op.DoCreateDispute? || op.DoResolveDispute?
  }

  ghost predicate SettlementOp(op: Op) {
    op.DoConfirmReceived? || op.DoAutoComplete? || op.DoUpdateSettlement?
  }

  /** Which transactions write which records. */
  lemma ShopFrame(t: Tables, op: Op)
    requires ShopOp(op)
    ensures var t' := Apply(t, op);
      t'.payments == t.payments && t'.refunds == t.refunds && t'.disputes == t.disputes && t'.settlements == t.settlements
  {}

  lemma PaymentFrame(t: Tables, op: Op)
    requires PaymentOp(op)
    ensures var t' := Apply(t, op);
      t'.items == t.items && t'.refunds == t.refunds && t'.disputes == t.disputes && t'.settlements == t.settlements
  {}

  lemma ResolutionFrame(t: Tables, op: Op)
    requires ResolutionOp(op)
    ensures Apply(t, op).payments == t.payments && Apply(t, op).settlements == t.settlements
    ensures op.DoCreateRefund? || op.DoDecideRefund? ==> Apply(t, op).disputes == t.disputes
  {}

  lemma SettlementFrame(t: Tables, op: Op)
    requires SettlementOp(op)
    ensures var t' := Apply(t, op);
      t'.payments == t.payments && t'.refunds == t.refunds && t'.disputes == t.disputes
  {}

  lemma AttachKeepsPayment(t: Tables, op: Op, p: Id)
    requires Escrow(t.orders, t.payments) && op.DoAttachTransaction?
    ensures PaymentKept(t, Apply(t, op), p)
  {
    if AttachPaymentTransaction(t, op.id, op.tx).Commit? && t.payments[op.id].status == RecordSucceeded {
      assert t.payments[op.id].(gatewayTx := Some(op.tx)) == t.payments[op.id];
    }
  }

  lemma CallbackKeepsPayment(t: Tables, op: Op, p: Id)
    requires op.DoPaymentCallback?
    ensures PaymentKept(t, Apply(t, op), p)
  {}

  lemma StartKeepsPayment(t: Tables, op: Op, p: Id)
    requires op.DoStartPayment?
    ensures PaymentKept(t, Apply(t, op), p)
  {}

  lemma ApplyKeepsPayment(t: Tables, op: Op, p: Id)
    requires Inv(t)
    ensures PaymentKept(t, Apply(t, op), p)
  {
    if op.DoStartPayment? {
      StartKeepsPayment(t, op, p);
    } else if op.DoAttachTransaction? {
      AttachKeepsPayment(t, op, p);
    } else if op.DoPaymentCallback? {
      CallbackKeepsPayment(t, op, p);
    } else if ShopOp(op) {
      ShopFrame(t, op);
    } else if ResolutionOp(op) {
      ResolutionFrame(t, op);
    } else {
      SettlementFrame(t, op);
    }
  }

  lemma DisputeOpsKeepDispute(t: Tables, op: Op, d: Id)
    requires op.DoCreateDispute? || op.DoResolveDispute?
    ensures DisputeKept(t, Apply(t, op), d)
  {
    if op.DoCreateDispute? {
      DisputeEffect(t, op);
    } else {
      ResolutionEffect(t, op);
    }
  }

  lemma ApplyKeepsDispute(t: Tables, op: Op, d: Id)
    ensures DisputeKept(t, Apply(t, op), d)
  {
    if op.DoCreateDispute? || op.DoResolveDispute? {
      DisputeOpsKeepDispute(t, op, d);
    } else if ShopOp(op) {
      ShopFrame(t, op);
    } else if PaymentOp(op) {
      PaymentFrame(t, op);
    } else if ResolutionOp(op) {
      ResolutionFrame(t, op);
    } else {
      SettlementFrame(t, op);
    }
  }

  lemma {:induction false} RunKeepsRecords(t: Tables, ops: seq<Op>, p: Id, d: Id)
    requires Inv(t)
    ensures PaymentKept(t, Run(t, ops), p) && DisputeKept(t, Run(t, ops), d)
    decreases |ops|
  {
    if ops != [] {
      var before := ops[..|ops| - 1];
      RunKeepsRecords(t, before, p, d);
      RunKeeps(t, before);
      ApplyKeepsPayment(Run(t, before), ops[|ops| - 1], p);
      ApplyKeepsDispute(Run(t, before), ops[|ops| - 1], d);
    }
  }

  /** While a dispute is open, whatever else happens, the order row and its payment stand still. */
  lemma DisputeFreezesOrder(t: Tables, ops: seq<Op>, id: Id, p: Id)
    requires Inv(t) && id in t.disputes && t.disputes[id].status == DisputePending
    requires Pays(t.payments, p, t.disputes[id].order)
    ensures var t' := Run(t, ops); var order := t.disputes[id].order;
      && order in t.orders && order in t'.orders && id in t'.disputes
      && (t'.disputes[id].status == DisputePending ==>
            t'.disputes[id] == t.disputes[id] && t'.orders[order] == t.orders[order])
      && p in t'.payments && t'.payments[p] == t.payments[p]
  {
    var order := t.disputes[id].order;
    assert DisputeOk(t.disputes[id], t.orders[order]);
    RunKeeps(t, ops);
    RunKeepsRecords(t, ops, p, id);
    RowsOverRuns(t, ops, order);
    var t' := Run(t, ops);
    assert DisputeOk(t'.disputes[id], t'.orders[order]);
  }

  // ---------- the item of a disputed order ----------

  /** A pending dispute over an order that its item is still reserved for. */
  ghost predicate HoldsItem(t: Tables, id: Id) {
    && id in t.disputes && t.disputes[id].status == DisputePending && t.disputes[id].order in t.orders
    && ItemOf(t, id) in t.items && t.items[ItemOf(t, id)].reservedOrder == Some(t.disputes[id].order)
  }

  ghost function ItemOf(t: Tables, id: Id): Id
    requires id in t.disputes && t.disputes[id].order in t.orders
  {
    t.orders[t.disputes[id].order].item
  }

  /** What keeps other transactions away from such an item. */
  ghost predicate Guarded(t: Tables, id: Id)
    requires HoldsItem(t, id)
  {
    var order := t.disputes[id].order;
    && t.orders[order].status == OrderDisputed && t.items[ItemOf(t, id)].status == ItemReserved
    && (forall o :: o in t.orders && o != order && t.orders[o].item == ItemOf(t, id) ==> t.orders[o].status == OrderCancelled)
    && (forall r :: r in t.refunds && t.refunds[r].status == RecordPending ==>
          t.refunds[r].order in t.orders && t.orders[t.refunds[r].order].status in {OrderPaid, OrderDelivered})
    && (forall d :: d in t.disputes && t.disputes[d].status == DisputePending && d != id ==>
          t.disputes[d].order in t.orders && t.disputes[d].order != order && t.orders[t.disputes[d].order].status == OrderDisputed)
  }

  lemma ItemIsGuarded(t: Tables, id: Id)
    requires Inv(t) && HoldsItem(t, id)
    ensures Guarded(t, id)
  {
    var order := t.disputes[id].order;
    assert DisputeOk(t.disputes[id], t.orders[order]);
    assert PointerOk(t.items[ItemOf(t, id)], ItemOf(t, id), order, t.orders);
    OthersCancelled(t.orders, order);
    forall d | d in t.disputes && t.disputes[d].status == DisputePending && d != id
      ensures t.disputes[d].order in t.orders && t.disputes[d].order != order && t.orders[t.disputes[d].order].status == OrderDisputed
    {
      assert DisputeOk(t.disputes[d], t.orders[t.disputes[d].order]);
      assert DisputeOf(t.disputes, id, order) && DisputeOf(t.disputes, d, t.disputes[d].order);
    }
    forall r | r in t.refunds && t.refunds[r].status == RecordPending
      ensures t.refunds[r].order in t.orders && t.orders[t.refunds[r].order].status in {OrderPaid, OrderDelivered}
    {
      assert RefundOk(t.refunds[r], t.orders[t.refunds[r].order]);
    }
  }

  ghost predicate Hides(op: Op, item: Id) {
    op.DoHideItem? && op.id == item
  }

  lemma ShopOpSparesItem(t: Tables, op: Op, id: Id)
    requires HoldsItem(t, id) && Guarded(t, id) && PricesOk(t.items) && RatesOk(t.categories)
    requires op.DoSaveCategory? || op.DoCreateItem? || op.DoUpdateItem? || op.DoWithdrawItem? || op.DoHideItem? || op.DoCreateOrder?
    requires !Hides(op, ItemOf(t, id))
    ensures ItemOf(t, id) in Apply(t, op).items && Apply(t, op).items[ItemOf(t, id)] == t.items[ItemOf(t, id)]
  {
    if op.DoSaveCategory? {
      SaveCategoryEffect(t, op);
    } else if op.DoHideItem? {
      HideItemEffect(t, op);
    } else if op.DoCreateOrder? {
      CreateOrderEffect(t, op);
    } else {
      ItemEffect(t, op);
    }
  }

  lemma OrderOpSparesItem(t: Tables, op: Op, id: Id)
    requires HoldsItem(t, id) && Guarded(t, id) && Settled(t.orders, t.settlements)
    requires op.DoCancelOrder? || op.DoExpireOrder? || op.DoMarkDelivered? || op.DoConfirmReceived? || op.DoAutoComplete?
    ensures ItemOf(t, id) in Apply(t, op).items && Apply(t, op).items[ItemOf(t, id)] == t.items[ItemOf(t, id)]
  {
    if op.DoCancelOrder? || op.DoExpireOrder? {
      ReleaseEffect(t, op);
    } else if op.DoMarkDelivered? {
      DeliveryEffect(t, op);
    } else {
      CompletionCases(t, op);
      if op.id in t.orders {
        CompletionEffect(t, op.id, op.settlement, op.now);
      }
    }
  }

  /** Ending another dispute, or a refund, concerns another item. */
  lemma ResolutionOpSparesItem(t: Tables, op: Op, id: Id)
    requires HoldsItem(t, id) && Guarded(t, id) && RefundsOk(t.orders, t.refunds) && ResolutionOp(op)
    ensures var t' := Apply(t, op);
      id in t'.disputes && t'.disputes[id].status == DisputePending ==>
        ItemOf(t, id) in t'.items && t'.items[ItemOf(t, id)] == t.items[ItemOf(t, id)]
  {
    if op.DoCreateRefund? {
      RefundRequestEffect(t, op);
    } else if op.DoDecideRefund? {
      DecisionEffect(t, op);
    } else if op.DoCreateDispute? {
      DisputeEffect(t, op);
    } else {
      ResolutionEffect(t, op);
    }
  }

  lemma OpSparesItem(t: Tables, op: Op, id: Id)
    requires Inv(t) && HoldsItem(t, id) && !Hides(op, ItemOf(t, id))
    ensures var t' := Apply(t, op);
      id in t'.disputes && t'.disputes[id].status == DisputePending ==>
        ItemOf(t, id) in t'.items && t'.items[ItemOf(t, id)] == t.items[ItemOf(t, id)]
  {
    ItemIsGuarded(t, id);
    if ResolutionOp(op) {
      ResolutionOpSparesItem(t, op, id);
    } else if PaymentOp(op) {
      PaymentFrame(t, op);
    } else if op.DoUpdateSettlement? {
      SettlementEffect(t, op);
    } else if op.DoCancelOrder? || op.DoExpireOrder? || op.DoMarkDelivered? || op.DoConfirmReceived? || op.DoAutoComplete? {
      OrderOpSparesItem(t, op, id);
    } else {
      ShopOpSparesItem(t, op, id);
    }
  }

  /** The dispute, its order and its item are as they were. */
  ghost predicate SameCase(t: Tables, t': Tables, id: Id)
    requires HoldsItem(t, id)
  {
    && id in t'.disputes && t'.disputes[id] == t.disputes[id]
    && t.disputes[id].order in t'.orders && t'.orders[t.disputes[id].order] == t.orders[t.disputes[id].order]
    && ItemOf(t, id) in t'.items && t'.items[ItemOf(t, id)] == t.items[ItemOf(t, id)]
  }

  lemma CaseStep(t: Tables, mid: Tables, op: Op, id: Id)
    requires HoldsItem(t, id) && SameCase(t, mid, id) && Inv(mid) && !Hides(op, ItemOf(t, id))
    ensures var t' := Apply(mid, op);
      id in t'.disputes && t'.disputes[id].status == DisputePending ==>
        ItemOf(t, id) in t'.items && t'.items[ItemOf(t, id)] == t.items[ItemOf(t, id)]
  {
    OpSparesItem(mid, op, id);
  }

  /** As long as the dispute is open and nobody hides the item, the item stands still too. */
  lemma {:induction false} DisputeFreezesItem(t: Tables, ops: seq<Op>, id: Id, p: Id)
    requires Inv(t) && HoldsItem(t, id) && Pays(t.payments, p, t.disputes[id].order)
    requires !SomeHides(ops, ItemOf(t, id))
    ensures var t' := Run(t, ops);
      id in t'.disputes && t'.disputes[id].status == DisputePending ==> SameCase(t, t', id)
    decreases |ops|
  {
    if ops != [] {
      var before, last := ops[..|ops| - 1], ops[|ops| - 1];
      SomeHidesLast(ops, ItemOf(t, id));
      var mid := Run(t, before);
      DisputeFreezesItem(t, before, id, p);
      RunKeepsRecords(t, before, p, id);
      ApplyKeepsDispute(mid, last, id);
      RunKeeps(t, before);
      if mid.disputes[id].status == DisputePending {
        CaseStep(t, mid, last, id);
      }
      DisputeFreezesOrder(t, ops, id, p);
    }
  }

  /** Items stay, and an existing order never gets an item back that does not point at it. */
  ghost predicate PointerKept(items: map<Id, Item>, items': map<Id, Item>, order: Id, item: Id) {
    item in items ==> item in items' && (items[item].reservedOrder != Some(order) ==> items'[item].reservedOrder != Some(order))
  }

  lemma ItemOpKeepsPointer(t: Tables, op: Op, order: Id, item: Id)
    requires PricesOk(t.items) && RatesOk(t.categories)
    requires op.DoSaveCategory? || op.DoCreateItem? || op.DoUpdateItem? || op.DoWithdrawItem? || op.DoHideItem?
    ensures PointerKept(t.items, Apply(t, op).items, order, item)
  {
    if op.DoSaveCategory? {
      SaveCategoryEffect(t, op);
    } else if op.DoHideItem? {
      HideItemEffect(t, op);
    } else {
      ItemEffect(t, op);
    }
  }

  lemma OrderOpKeepsPointer(t: Tables, op: Op, order: Id, item: Id)
    requires PricesOk(t.items) && RatesOk(t.categories) && order in t.orders
    requires op.DoCreateOrder? || op.DoCancelOrder? || op.DoExpireOrder? || op.DoMarkDelivered?
    ensures PointerKept(t.items, Apply(t, op).items, order, item)
  {
    if op.DoCreateOrder? {
      CreateOrderEffect(t, op);
    } else if op.DoMarkDelivered? {
      DeliveryEffect(t, op);
    } else {
      ReleaseEffect(t, op);
    }
  }

  lemma ResolutionOpKeepsPointer(t: Tables, op: Op, order: Id, item: Id)
    requires RefundsOk(t.orders, t.refunds) && ResolutionOp(op)
    ensures PointerKept(t.items, Apply(t, op).items, order, item)
  {
    if op.DoCreateRefund? {
      RefundRequestEffect(t, op);
    } else if op.DoDecideRefund? {
      DecisionEffect(t, op);
    } else if op.DoCreateDispute? {
      DisputeEffect(t, op);
    } else {
      ResolutionEffect(t, op);
    }
  }

  lemma SettlementOpKeepsPointer(t: Tables, op: Op, order: Id, item: Id)
    requires Settled(t.orders, t.settlements) && SettlementOp(op)
    ensures PointerKept(t.items, Apply(t, op).items, order, item)
  {
    if op.DoUpdateSettlement? {
      SettlementEffect(t, op);
    } else {
      CompletionCases(t, op);
      if op.id in t.orders {
        CompletionEffect(t, op.id, op.settlement, op.now);
      }
    }
  }

  lemma ApplyKeepsPointer(t: Tables, op: Op, order: Id, item: Id)
    requires Inv(t) && order in t.orders
    ensures PointerKept(t.items, Apply(t, op).items, order, item)
  {
    if op.DoCreateOrder? || op.DoCancelOrder? || op.DoExpireOrder? || op.DoMarkDelivered? {
      OrderOpKeepsPointer(t, op, order, item);
    } else if ShopOp(op) {
      ItemOpKeepsPointer(t, op, order, item);
    } else if PaymentOp(op) {
      PaymentFrame(t, op);
    } else if ResolutionOp(op) {
      ResolutionOpKeepsPointer(t, op, order, item);
    } else {
      SettlementOpKeepsPointer(t, op, order, item);
    }
  }

  lemma DetachStep(t: Tables, op: Op, order: Id, item: Id)
    requires Inv(t) && order in t.orders && item in t.items
    ensures item in Apply(t, op).items
    ensures t.items[item].reservedOrder != Some(order) || Hides(op, item) ==> Apply(t, op).items[item].reservedOrder != Some(order)
  {
    ApplyKeepsPointer(t, op, order, item);
    if Hides(op, item) {
      HideItemEffect(t, op);
    }
  }

  ghost predicate SomeHides(ops: seq<Op>, item: Id) {
    exists k :: 0 <= k < |ops| && Hides(ops[k], item)
  }

  /** Once hidden in the course of a run, an item does not point at the order again. */
  lemma {:induction false} HiddenStaysDetached(t: Tables, ops: seq<Op>, order: Id, item: Id)
    requires Inv(t) && order in t.orders && item in t.items
    ensures item in Run(t, ops).items
    ensures SomeHides(ops, item) ==> Run(t, ops).items[item].reservedOrder != Some(order)
    decreases |ops|
  {
    if ops != [] {
      var before, last := ops[..|ops| - 1], ops[|ops| - 1];
      HiddenStaysDetached(t, before, order, item);
      RunKeeps(t, before);
      RowsOverRuns(t, before, order);
      DetachStep(Run(t, before), last, order, item);
      SomeHidesLast(ops, item);
    }
  }

  lemma SomeHidesLast(ops: seq<Op>, item: Id)
    requires ops != []
    ensures SomeHides(ops, item) <==> SomeHides(ops[..|ops| - 1], item) || Hides(ops[|ops| - 1], item)
  {
    var before := ops[..|ops| - 1];
    assert forall k :: 0 <= k < |before| ==> before[k] == ops[k];
    if k :| 0 <= k < |before| && Hides(before[k], item) {
      assert Hides(ops[k], item);
    }
  }

  // ---------- resuming ----------

  lemma DisputeOpens(t: Tables, id: Id, order: Id, who: Id, now: int)
    requires CreateDispute(t, id, order, who, now).Commit?
    ensures order in t.orders
    ensures CreateDispute(t, id, order, who, now).db ==
      t.(disputes := t.disputes[id := Dispute(order, who, t.orders[order].status, DisputePending)],
         orders := t.orders[order := t.orders[order].(status := OrderDisputed, disputedAt := Some(now))])
    ensures CreateDispute(t, id, order, who, now).db == Apply(t, DoCreateDispute(id, order, who, now))
  {}

  lemma DisputeResumes(t: Tables, id: Id, gatewayID: string, refundID: Id, now: int)
    requires ResolveDispute(t, id, false, gatewayID, refundID, now).Commit?
    ensures id in t.disputes && t.disputes[id].status == DisputePending && t.disputes[id].order in t.orders
    ensures var d := t.disputes[id];
      ResolveDispute(t, id, false, gatewayID, refundID, now).db ==
        t.(orders := t.orders[d.order := t.orders[d.order].(status := d.previous)],
           disputes := t.disputes[id := d.(status := DisputeRejected)])
  {}

  /** Open a dispute, let anything at all happen, resume: the order row is exactly the one before the
      dispute (but for the dispute date), and its payment is the same row.  If the item was reserved for
      the order, it is exactly as before if and only if nobody hid it meanwhile. */
  lemma ResumeRestores(t: Tables, id: Id, order: Id, who: Id, now: int, ops: seq<Op>,
                       gatewayID: string, refundID: Id, later: int, p: Id)
    requires Inv(t) && CreateDispute(t, id, order, who, now).Commit?
    requires Pays(t.payments, p, order)
    requires ResolveDispute(Run(CreateDispute(t, id, order, who, now).db, ops), id, false, gatewayID, refundID, later).Commit?
    ensures var mid := Run(CreateDispute(t, id, order, who, now).db, ops);
      var closed := ResolveDispute(mid, id, false, gatewayID, refundID, later).db;
      && order in t.orders && order in closed.orders && closed.orders[order] == t.orders[order].(disputedAt := Some(now))
      && p in closed.payments && closed.payments[p] == t.payments[p]
      && var item := t.orders[order].item;
         && item in t.items && item in closed.items
         && (t.items[item].reservedOrder == Some(order) ==>
               (closed.items[item] == t.items[item] <==> !SomeHides(ops, item)))
  {
    DisputeOpens(t, id, order, who, now);
    ApplyKeeps(t, DoCreateDispute(id, order, who, now));
    var disputed := CreateDispute(t, id, order, who, now).db;
    DisputeFreezesOrder(disputed, ops, id, p);
    DisputeResumes(Run(disputed, ops), id, gatewayID, refundID, later);
    assert OrderCustody(t.items, order, t.orders[order]);
    ItemAcrossDispute(disputed, ops, id, p);
  }

  lemma ItemAcrossDispute(t: Tables, ops: seq<Op>, id: Id, p: Id)
    requires Inv(t) && id in t.disputes && t.disputes[id].status == DisputePending && t.disputes[id].order in t.orders
    requires Pays(t.payments, p, t.disputes[id].order) && ItemOf(t, id) in t.items
    requires id in Run(t, ops).disputes && Run(t, ops).disputes[id].status == DisputePending
    ensures ItemOf(t, id) in Run(t, ops).items
    ensures t.items[ItemOf(t, id)].reservedOrder == Some(t.disputes[id].order) ==>
      (Run(t, ops).items[ItemOf(t, id)] == t.items[ItemOf(t, id)] <==> !SomeHides(ops, ItemOf(t, id)))
  {
    HiddenStaysDetached(t, ops, t.disputes[id].order, ItemOf(t, id));
    if t.items[ItemOf(t, id)].reservedOrder == Some(t.disputes[id].order) && !SomeHides(ops, ItemOf(t, id)) {
      DisputeFreezesItem(t, ops, id, p);
    }
  }
}
