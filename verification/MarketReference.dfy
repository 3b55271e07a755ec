/** The marketplace told a second time, table by table: for each table, which transaction changes which
    row to what, and on whose behalf.  The conditions are those of a state that satisfies the invariant;
    statements that cannot fail or cannot miss there do not appear.  `ApplyByReference` proves that the
    transactions do exactly this. */
module MarketReference {
  import opened Support
  import opened Commission
  import opened Market
  import opened MarketInvariant
  import opened MarketResolution

  /** One row of a table is written. */
  datatype Write<T> = Write(id: Id, row: T)

  ghost function With<T>(table: map<Id, T>, w: Option<Write<T>>): map<Id, T> {
    match w
    case None => table
    case Some(Write(id, row)) => table[id := row]
  }

  // ---------- who may do what ----------

  /** A published, unreserved item of an active category, bought by somebody else. */
  ghost predicate MayOrder(t: Tables, id: Id, item: Id, buyer: Id) {
    && id !in t.orders && OnSale(t, item) && t.items[item].seller != buyer
  }

  ghost predicate OnSale(t: Tables, item: Id) {
    && item in t.items && t.items[item].status == ItemPublished && t.items[item].reservedOrder.None?
    && t.items[item].category in t.categories && t.categories[t.items[item].category].active
  }

  /** The terms of a new order: the item's seller and price, the category's rate of the moment, fifteen
      minutes to pay. */
  ghost function NewRow(t: Tables, item: Id, buyer: Id, now: int): Order
    requires item in t.items && t.items[item].category in t.categories
  {
    var price, rate := t.items[item].price, t.categories[t.items[item].category].rateBps;
    Order(item, buyer, t.items[item].seller, OrderPendingPayment, price, rate, price * rate / 10000, price - price * rate / 10000,
          now + 15 * 60 * 1000, None, None, None, None, None, None)
  }

  ghost predicate Awaits(t: Tables, order: Id, now: int) {
    order in t.orders && t.orders[order].status == OrderPendingPayment && now < t.orders[order].expiresAt
  }

  /** The buyer asks for a new payment of an order that awaits one. */
  ghost predicate MayRequest(t: Tables, caller: Id, id: Id, order: Id, requestID: string, now: int) {
    && Awaits(t, order, now) && t.orders[order].buyer == caller && requestID != ""
    && id !in t.payments && forall q :: q in t.payments ==> t.payments[q].requestID != requestID
  }

  /** No other payment carries the gateway transaction, and this one carries no other. */
  ghost predicate FitsTransaction(t: Tables, p: Id, tx: string) {
    && p in t.payments && (t.payments[p].gatewayTx.None? || t.payments[p].gatewayTx == Some(tx))
    && forall q :: q in t.payments && q != p ==> t.payments[q].gatewayTx != Some(tx)
  }

  /** The callback is about this pending payment, to the cent and in time. */
  ghost predicate MayCharge(t: Tables, p: Id, requestID: string, tx: string, amount: int, now: int) {
    && FitsTransaction(t, p, tx) && t.payments[p].requestID == requestID && t.payments[p].amount == amount
    && t.payments[p].status == RecordPending && Awaits(t, t.payments[p].order, now)
  }

  ghost predicate MayComplete(t: Tables, id: Id, settlement: Id) {
    && id in t.orders && t.orders[id].status == OrderDelivered && settlement !in t.settlements
    && forall r :: RefundOf(t.refunds, r, id) ==> t.refunds[r].status != RecordPending
  }

  ghost predicate CompletesBy(t: Tables, op: Op, id: Id) {
    || (op.DoConfirmReceived? && op.id == id && MayComplete(t, id, op.settlement) && t.orders[id].buyer == op.buyer)
    || (&& op.DoAutoComplete? && op.id == id && MayComplete(t, id, op.settlement)
        && t.orders[id].deliveredAt.Some? && t.orders[id].deliveredAt.value <= op.cutoff)
  }

  ghost predicate CancelsBy(t: Tables, op: Op, id: Id) {
    && id in t.orders && t.orders[id].status == OrderPendingPayment
    && (|| (op.DoCancelOrder? && op.id == id && op.buyer == t.orders[id].buyer)
        || (op.DoExpireOrder? && op.id == id && t.orders[id].expiresAt <= op.now)
        || (op.DoHideItem? && op.id == t.orders[id].item))
  }

  ghost predicate MayAskRefund(t: Tables, id: Id, order: Id, who: Id, requestID: string) {
    && order in t.orders && t.orders[order].buyer == who && t.orders[order].status in {OrderPaid, OrderDelivered}
    && id !in t.refunds
    && forall r :: r in t.refunds ==> t.refunds[r].order != order && t.refunds[r].requestID != requestID
  }

  ghost predicate FreshRefundID(t: Tables, id: Id, gatewayID: string) {
    forall r :: r in t.refunds && r != id ==> t.refunds[r].gatewayID != Some(gatewayID)
  }

  /** The administrator pays a pending refund out. */
  ghost predicate MayPayOut(t: Tables, id: Id, gatewayID: string) {
    id in t.refunds && t.refunds[id].status == RecordPending && FreshRefundID(t, id, gatewayID)
  }

  ghost predicate MayDispute(t: Tables, id: Id, order: Id, who: Id) {
    && order in t.orders && who in {t.orders[order].buyer, t.orders[order].seller}
    && t.orders[order].status in {OrderPaid, OrderDelivered}
    && (forall r :: RefundOf(t.refunds, r, order) ==> t.refunds[r].status != RecordPending)
    && id !in t.disputes && forall d :: d in t.disputes ==> t.disputes[d].order != order
  }

  ghost predicate Pending(t: Tables, d: Id) {
    d in t.disputes && t.disputes[d].status == DisputePending && t.disputes[d].order in t.orders
  }

  ghost predicate NoRefundOf(t: Tables, order: Id) {
    forall r :: r in t.refunds ==> t.refunds[r].order != order
  }

  /** The refund row a dispute refund writes can be inserted, or need not be. */
  ghost predicate MayCompensate(t: Tables, d: Id, gatewayID: string, refundID: Id) {
    && Pending(t, d)
    && (NoRefundOf(t, t.disputes[d].order) ==>
          && refundID !in t.refunds && FreshRefundID(t, refundID, gatewayID)
          && forall r :: r in t.refunds ==> t.refunds[r].requestID != DisputeRefundRequestID(d))
  }

  ghost predicate MayRecord(t: Tables, id: Id, gatewayID: string) {
    && id in t.settlements && t.settlements[id].status != RecordSucceeded
    && (gatewayID != "" ==> forall s :: s in t.settlements && s != id ==> t.settlements[s].gatewayID != Some(gatewayID))
  }

  // ---------- the tables ----------

  ghost function CategoryWrite(t: Tables, op: Op): Option<Write<Category>> {
    if op.DoSaveCategory? && 0 <= op.category.rateBps <= 10000 then Some(Write(op.id, op.category)) else None
  }

  ghost function OrderWrite(t: Tables, op: Op): Option<Write<Order>> {
    match op
    case DoCreateOrder(id, item, buyer, now) =>
      if MayOrder(t, id, item, buyer) then Some(Write(id, NewRow(t, item, buyer, now))) else None
    case DoPaymentCallback(requestID, tx, amount, now) =>
      (if p :| MayCharge(t, p, requestID, tx, amount, now) then
        Some(Write(t.payments[p].order, t.orders[t.payments[p].order].(status := OrderPaid, paidAt := Some(now))))
      else None)
    case DoCancelOrder(id, buyer, now) =>
      if CancelsBy(t, op, id) then Some(Write(id, t.orders[id].(status := OrderCancelled, cancelledAt := Some(now)))) else None
    case DoExpireOrder(id, now) =>
      if CancelsBy(t, op, id) then Some(Write(id, t.orders[id].(status := OrderCancelled, cancelledAt := Some(now)))) else None
    case DoHideItem(item, now) =>
      (if o :| CancelsBy(t, op, o) then Some(Write(o, t.orders[o].(status := OrderCancelled, cancelledAt := Some(now)))) else None)
    case DoMarkDelivered(id, seller, now) =>
      if id in t.orders && t.orders[id].seller == seller && t.orders[id].status == OrderPaid
      then Some(Write(id, t.orders[id].(status := OrderDelivered, deliveredAt := Some(now)))) else None
    case DoConfirmReceived(id, buyer, settlement, now) =>
      if CompletesBy(t, op, id) then Some(Write(id, t.orders[id].(status := OrderCompleted, completedAt := Some(now)))) else None
    case DoAutoComplete(id, settlement, cutoff, now) =>
      if CompletesBy(t, op, id) then Some(Write(id, t.orders[id].(status := OrderCompleted, completedAt := Some(now)))) else None
    case DoDecideRefund(id, approved, gatewayID, now) =>
      if approved && MayPayOut(t, id, gatewayID) && t.refunds[id].order in t.orders
      then Some(Write(t.refunds[id].order, t.orders[t.refunds[id].order].(status := OrderRefunded, refundedAt := Some(now)))) else None
    case DoCreateDispute(id, order, who, now) =>
      if MayDispute(t, id, order, who) then Some(Write(order, t.orders[order].(status := OrderDisputed, disputedAt := Some(now)))) else None
    case DoResolveDispute(d, refund, gatewayID, refundID, now) =>
      if refund && MayCompensate(t, d, gatewayID, refundID)
      then Some(Write(t.disputes[d].order, t.orders[t.disputes[d].order].(status := OrderRefunded, refundedAt := Some(now))))
      else if !refund && Pending(t, d)
      then Some(Write(t.disputes[d].order, t.orders[t.disputes[d].order].(status := t.disputes[d].previous)))
      else None
    case _ => None
  }

  ghost function PaymentWrite(t: Tables, op: Op): Option<Write<Payment>> {
    match op
    case DoStartPayment(caller, id, order, requestID, now) =>
      if MayRequest(t, caller, id, order, requestID, now)
      then Some(Write(id, Payment(order, requestID, None, t.orders[order].price, RecordPending))) else None
    case DoAttachTransaction(id, tx) =>
      if FitsTransaction(t, id, tx) then Some(Write(id, t.payments[id].(gatewayTx := Some(tx)))) else None
    case DoPaymentCallback(requestID, tx, amount, now) =>
      (if p :| MayCharge(t, p, requestID, tx, amount, now)
      then Some(Write(p, t.payments[p].(gatewayTx := Some(tx), status := RecordSucceeded))) else None)
    case _ => None
  }

  ghost function RefundWrite(t: Tables, op: Op): Option<Write<Refund>> {
    match op
    case DoCreateRefund(id, order, who, requestID) =>
      if MayAskRefund(t, id, order, who, requestID)
      then Some(Write(id, Refund(order, who, requestID, None, t.orders[order].price, RecordPending))) else None
    case DoDecideRefund(id, approved, gatewayID, now) =>
      if approved && MayPayOut(t, id, gatewayID)
      then Some(Write(id, t.refunds[id].(status := RecordSucceeded, gatewayID := Some(gatewayID))))
      else if !approved && id in t.refunds && t.refunds[id].status == RecordPending
      then Some(Write(id, t.refunds[id].(status := RecordRejected)))
      else None
    case DoResolveDispute(d, refund, gatewayID, refundID, now) =>
      if refund && MayCompensate(t, d, gatewayID, refundID) && NoRefundOf(t, t.disputes[d].order)
      then Some(Write(refundID, Refund(t.disputes[d].order, t.disputes[d].raisedBy, DisputeRefundRequestID(d), Some(gatewayID),
                                       t.orders[t.disputes[d].order].price, RecordSucceeded)))
      else None
    case _ => None
  }

  ghost function DisputeWrite(t: Tables, op: Op): Option<Write<Dispute>> {
    match op
    case DoCreateDispute(id, order, who, now) =>
      if MayDispute(t, id, order, who) then Some(Write(id, Dispute(order, who, t.orders[order].status, DisputePending))) else None
    case DoResolveDispute(d, refund, gatewayID, refundID, now) =>
      if refund && MayCompensate(t, d, gatewayID, refundID) then Some(Write(d, t.disputes[d].(status := DisputeResolved)))
      else if !refund && Pending(t, d) then Some(Write(d, t.disputes[d].(status := DisputeRejected)))
      else None
    case _ => None
  }

  ghost function SettlementWrite(t: Tables, op: Op): Option<Write<Settlement>> {
    match op
    case DoConfirmReceived(id, buyer, settlement, now) =>
      if CompletesBy(t, op, id) then Some(Write(settlement, Settlement(id, SettlementRequestID(id), None, t.orders[id].net, RecordPending))) else None
    case DoAutoComplete(id, settlement, cutoff, now) =>
      if CompletesBy(t, op, id) then Some(Write(settlement, Settlement(id, SettlementRequestID(id), None, t.orders[id].net, RecordPending))) else None
    case DoUpdateSettlement(id, succeeded, gatewayID) =>
      if MayRecord(t, id, gatewayID)
      then Some(Write(id, t.settlements[id].(status := if succeeded then RecordSucceeded else RecordFailed,
                                             gatewayID := if gatewayID == "" then t.settlements[id].gatewayID else Some(gatewayID))))
      else None
    case _ => None
  }

  ghost function Withdrawn(t: Tables, item: Id): Option<Write<Item>> {
    if item in t.items then Some(Write(item, t.items[item].(status := ItemWithdrawn, reservedOrder := None))) else None
  }

  ghost function ItemWrite(t: Tables, op: Op): Option<Write<Item>> {
    match op
    case DoCreateItem(id, seller, category, price, published) =>
      if id !in t.items && category in t.categories && 0 < price <= MAX_INT64
      then Some(Write(id, Item(seller, category, price, if published then ItemPublished else ItemDraft, None))) else None
    case DoUpdateItem(id, owner, category, price, status) =>
      if id in t.items && t.items[id].seller == owner && t.items[id].status in {ItemDraft, ItemPublished}
         && category in t.categories && 0 < price <= MAX_INT64
      then Some(Write(id, t.items[id].(category := category, price := price, status := status))) else None
    case DoWithdrawItem(id, owner) =>
      if id in t.items && t.items[id].seller == owner && t.items[id].status in {ItemDraft, ItemPublished, ItemHidden}
      then Some(Write(id, t.items[id].(status := ItemWithdrawn))) else None
    case DoHideItem(id, now) =>
      if id in t.items then Some(Write(id, t.items[id].(status := ItemHidden, reservedOrder := None))) else None
    case DoCreateOrder(id, item, buyer, now) =>
      if MayOrder(t, id, item, buyer) then Some(Write(item, t.items[item].(status := ItemReserved, reservedOrder := Some(id)))) else None
    case DoCancelOrder(id, buyer, now) =>
      if CancelsBy(t, op, id) && t.orders[id].item in t.items
      then Some(Write(t.orders[id].item, t.items[t.orders[id].item].(status := ItemPublished, reservedOrder := None))) else None
    case DoExpireOrder(id, now) =>
      if CancelsBy(t, op, id) && t.orders[id].item in t.items
      then Some(Write(t.orders[id].item, t.items[t.orders[id].item].(status := ItemPublished, reservedOrder := None))) else None
    case DoConfirmReceived(id, buyer, settlement, now) =>
      if CompletesBy(t, op, id) then Sold(t, id) else None
    case DoAutoComplete(id, settlement, cutoff, now) =>
      if CompletesBy(t, op, id) then Sold(t, id) else None
    case DoDecideRefund(id, approved, gatewayID, now) =>
      if approved && MayPayOut(t, id, gatewayID) && t.refunds[id].order in t.orders then Withdrawn(t, t.orders[t.refunds[id].order].item) else None
    case DoResolveDispute(d, refund, gatewayID, refundID, now) =>
      if refund && MayCompensate(t, d, gatewayID, refundID) then Withdrawn(t, t.orders[t.disputes[d].order].item) else None
    case _ => None
  }

  /** An item still reserved for a completed order is sold; a detached one is left alone. */
  ghost function Sold(t: Tables, id: Id): Option<Write<Item>>
    requires id in t.orders
  {
    var item := t.orders[id].item;
    if item in t.items && t.items[item].reservedOrder == Some(id) then Some(Write(item, t.items[item].(status := ItemSold))) else None
  }

  ghost function Reference(t: Tables, op: Op): Tables {
    Tables(With(t.categories, CategoryWrite(t, op)), With(t.items, ItemWrite(t, op)), With(t.orders, OrderWrite(t, op)),
           With(t.payments, PaymentWrite(t, op)), With(t.refunds, RefundWrite(t, op)), With(t.disputes, DisputeWrite(t, op)),
           With(t.settlements, SettlementWrite(t, op)))
  }

  // ---------- transaction by transaction ----------

  lemma CategoryByReference(t: Tables, op: Op)
    requires op.DoSaveCategory?
    ensures Apply(t, op) == Reference(t, op)
  {}

  lemma ItemByReference(t: Tables, op: Op)
    requires op.DoCreateItem? || op.DoUpdateItem? || op.DoWithdrawItem?
    ensures Apply(t, op) == Reference(t, op)
  {}

  /** A waiting order for the item is the one the item points at. */
  lemma HidesOrder(t: Tables, op: Op, o: Id)
    requires op.DoHideItem? && Custody(t.items, t.orders)
    ensures CancelsBy(t, op, o) <==> Waiting(t, op.id) && t.items[op.id].reservedOrder == Some(o)
  {
    if CancelsBy(t, op, o) {
      assert OrderCustody(t.items, o, t.orders[o]);
      assert PointerOk(t.items[op.id], op.id, o, t.orders);
    }
    if Waiting(t, op.id) && t.items[op.id].reservedOrder == Some(o) {
      assert PointerOk(t.items[op.id], op.id, o, t.orders);
    }
  }

  lemma HideByReference(t: Tables, op: Op)
    requires op.DoHideItem? && Custody(t.items, t.orders)
    ensures Apply(t, op) == Reference(t, op)
  {
    HideItemEffect(t, op);
    HideOrderWrite(t, op);
  }

  lemma HideOrderWrite(t: Tables, op: Op)
    requires op.DoHideItem? && Custody(t.items, t.orders)
    ensures OrderWrite(t, op) ==
      if Waiting(t, op.id) then
        var o := t.items[op.id].reservedOrder.value; Some(Write(o, Cancelled(t.orders[o], op.now)))
      else None
  {
    forall o
      ensures CancelsBy(t, op, o) <==> Waiting(t, op.id) && t.items[op.id].reservedOrder == Some(o)
    {
      HidesOrder(t, op, o);
    }
    if Waiting(t, op.id) {
      assert CancelsBy(t, op, t.items[op.id].reservedOrder.value);
    }
  }

  lemma OrderExact(t: Tables, id: Id, item: Id, buyer: Id, now: int)
    requires RatesOk(t.categories) && PricesOk(t.items)
    ensures CreateOrder(t, id, item, buyer, now).After(t) ==
      if MayOrder(t, id, item, buyer) then
        t.(items := t.items[item := t.items[item].(status := ItemReserved, reservedOrder := Some(id))],
           orders := t.orders[id := NewRow(t, item, buyer, now)])
      else t
  {
    if OnSale(t, item) {
      FeeIsFloor(t.items[item].price, t.categories[t.items[item].category].rateBps);
    }
  }

  lemma OrderByReference(t: Tables, op: Op)
    requires op.DoCreateOrder? && RatesOk(t.categories) && PricesOk(t.items)
    ensures Apply(t, op) == Reference(t, op)
  {
    OrderExact(t, op.id, op.item, op.buyer, op.now);
  }

  lemma RequestByReference(t: Tables, op: Op)
    requires op.DoStartPayment?
    ensures Apply(t, op) == Reference(t, op)
  {}

  lemma AttachByReference(t: Tables, op: Op)
    requires op.DoAttachTransaction?
    ensures Apply(t, op) == Reference(t, op)
  {}

  ghost function ChargedBy(t: Tables, p: Id, tx: string, now: int): Tables
    requires p in t.payments && t.payments[p].order in t.orders
  {
    t.(payments := t.payments[p := t.payments[p].(gatewayTx := Some(tx), status := RecordSucceeded)],
       orders := t.orders[t.payments[p].order := t.orders[t.payments[p].order].(status := OrderPaid, paidAt := Some(now))])
  }

  /** The one payment a callback can be about. */
  lemma ChargesOne(t: Tables, p: Id, requestID: string, tx: string, amount: int, now: int)
    requires UniqueRequests(t.payments) && MayCharge(t, p, requestID, tx, amount, now)
    ensures PaymentRequestTaken(t, requestID) && PaymentByRequest(t, requestID) == p
    ensures ApplyPaymentCallback(t, requestID, tx, amount, now) == Commit(ChargedBy(t, p, tx, now), true)
  {
    assert PaymentByRequest(t, requestID) == p;
    assert !TransactionTaken(t, tx, p);
  }

  lemma ChargesNone(t: Tables, requestID: string, tx: string, amount: int, now: int)
    requires Escrow(t.orders, t.payments) && forall p :: !MayCharge(t, p, requestID, tx, amount, now)
    ensures ApplyPaymentCallback(t, requestID, tx, amount, now).After(t) == t
  {
    if PaymentRequestTaken(t, requestID) {
      var p := PaymentByRequest(t, requestID);
      assert !MayCharge(t, p, requestID, tx, amount, now);
      if !TransactionTaken(t, tx, p) {
        assert forall q :: q in t.payments && q != p ==> t.payments[q].gatewayTx != Some(tx);
      }
    }
  }

  lemma CallbackWrites(t: Tables, op: Op, p: Id)
    requires op.DoPaymentCallback? && UniqueRequests(t.payments) && MayCharge(t, p, op.requestID, op.tx, op.amount, op.now)
    ensures Reference(t, op) == ChargedBy(t, p, op.tx, op.now)
  {
    forall q | MayCharge(t, q, op.requestID, op.tx, op.amount, op.now)
      ensures q == p
    {
      assert t.payments[q].requestID == t.payments[p].requestID;
    }
  }

  lemma CallbackByReference(t: Tables, op: Op)
    requires op.DoPaymentCallback? && Escrow(t.orders, t.payments)
    ensures Apply(t, op) == Reference(t, op)
  {
    if p :| MayCharge(t, p, op.requestID, op.tx, op.amount, op.now) {
      ChargesOne(t, p, op.requestID, op.tx, op.amount, op.now);
      CallbackWrites(t, op, p);
    } else {
      ChargesNone(t, op.requestID, op.tx, op.amount, op.now);
    }
  }

  lemma ReleaseExact(t: Tables, op: Op)
    requires (op.DoCancelOrder? || op.DoExpireOrder?) && Custody(t.items, t.orders)
    ensures CancelsBy(t, op, op.id) ==> t.orders[op.id].item in t.items
    ensures Apply(t, op) ==
      if CancelsBy(t, op, op.id) then
        t.(orders := t.orders[op.id := Cancelled(t.orders[op.id], op.now)],
           items := t.items[t.orders[op.id].item := t.items[t.orders[op.id].item].(status := ItemPublished, reservedOrder := None)])
      else t
  {
    if op.id in t.orders {
      assert OrderCustody(t.items, op.id, t.orders[op.id]);
    }
  }

  lemma ReleaseByReference(t: Tables, op: Op)
    requires (op.DoCancelOrder? || op.DoExpireOrder?) && Custody(t.items, t.orders)
    ensures Apply(t, op) == Reference(t, op)
  {
    ReleaseExact(t, op);
  }

  lemma DeliveryByReference(t: Tables, op: Op)
    requires op.DoMarkDelivered?
    ensures Apply(t, op) == Reference(t, op)
  {}

  /** Under the invariant the only obstacles to completing are the status, a pending refund and a taken
      settlement id: the request id of an order's settlement is its own. */
  lemma CompletionExact(t: Tables, id: Id, settlement: Id, now: int)
    requires id in t.orders && Settled(t.orders, t.settlements)
    ensures CompleteOrder(t, id, settlement, now).After(t) ==
      if MayComplete(t, id, settlement) then
        t.(orders := t.orders[id := t.orders[id].(status := OrderCompleted, completedAt := Some(now))],
           items := MarkSold(t.items, t.orders[id].item, id),
           settlements := t.settlements[settlement := Settlement(id, SettlementRequestID(id), None, t.orders[id].net, RecordPending)])
      else t
    ensures CompleteOrder(t, id, settlement, now).Commit? <==> MayComplete(t, id, settlement)
  {
    if t.orders[id].status == OrderDelivered {
      OwnRequest(t, id);
      assert HasPendingRefund(t, id) <==> !forall r :: RefundOf(t.refunds, r, id) ==> t.refunds[r].status != RecordPending;
    }
  }

  lemma OwnRequest(t: Tables, id: Id)
    requires Settled(t.orders, t.settlements) && id in t.orders && t.orders[id].status != OrderCompleted
    ensures !HasSettlement(t, id) && !SettlementRequestTaken(t, SettlementRequestID(id))
  {
    forall s
      ensures !SettlementOf(t.settlements, s, id)
      ensures s in t.settlements ==> t.settlements[s].requestID != SettlementRequestID(id)
    {
      assert RowSettled(t.orders, t.settlements, s);
      if s in t.settlements && t.settlements[s].requestID == SettlementRequestID(id) {
        SettlementRequestsDiffer(t.settlements[s].order, id);
      }
    }
  }

  lemma CompletionOpExact(t: Tables, op: Op)
    requires (op.DoConfirmReceived? || op.DoAutoComplete?) && Settled(t.orders, t.settlements)
    ensures Apply(t, op) ==
      if CompletesBy(t, op, op.id) then
        t.(orders := t.orders[op.id := t.orders[op.id].(status := OrderCompleted, completedAt := Some(op.now))],
           items := MarkSold(t.items, t.orders[op.id].item, op.id),
           settlements := t.settlements[op.settlement := Settlement(op.id, SettlementRequestID(op.id), None, t.orders[op.id].net, RecordPending)])
      else t
  {
    if op.id in t.orders {
      CompletionExact(t, op.id, op.settlement, op.now);
    }
  }

  lemma CompletionByReference(t: Tables, op: Op)
    requires (op.DoConfirmReceived? || op.DoAutoComplete?) && Settled(t.orders, t.settlements)
    ensures Apply(t, op) == Reference(t, op)
  {
    CompletionOpExact(t, op);
  }

  lemma RefundRequestExact(t: Tables, id: Id, order: Id, who: Id, requestID: string)
    ensures CreateRefund(t, id, order, who, requestID).Commit? <==> MayAskRefund(t, id, order, who, requestID)
  {
    if HasRefund(t, order) {
      var r :| RefundOf(t.refunds, r, order);
    }
    if !HasRefund(t, order) {
      forall r | r in t.refunds
        ensures t.refunds[r].order != order
      {
        assert !RefundOf(t.refunds, r, order);
      }
    }
  }

  lemma RefundRequestByReference(t: Tables, op: Op)
    requires op.DoCreateRefund?
    ensures Apply(t, op) == Reference(t, op)
  {
    RefundRequestExact(t, op.id, op.order, op.who, op.requestID);
  }

  lemma PayOutExact(t: Tables, id: Id, gatewayID: string, now: int)
    requires RefundsOk(t.orders, t.refunds)
    ensures MayPayOut(t, id, gatewayID) ==> t.refunds[id].order in t.orders
    ensures DecideRefund(t, id, true, gatewayID, now).Commit? <==> MayPayOut(t, id, gatewayID)
    ensures DecideRefund(t, id, true, gatewayID, now).After(t) ==
      if MayPayOut(t, id, gatewayID) then
        var o := t.refunds[id].order;
        t.(orders := t.orders[o := Refunded(t.orders[o], now)], items := Retire(t.items, t.orders[o].item),
           refunds := t.refunds[id := PaidOut(t.refunds[id], gatewayID)])
      else t
  {
    if id in t.refunds {
      assert RefundOk(t.refunds[id], t.orders[t.refunds[id].order]);
      assert FreshRefundID(t, id, gatewayID) <==> !GatewayRefundTaken(t, gatewayID, id);
    }
  }

  lemma RejectExact(t: Tables, id: Id, gatewayID: string, now: int)
    requires RefundsOk(t.orders, t.refunds)
    ensures DecideRefund(t, id, false, gatewayID, now).Commit? <==> id in t.refunds && t.refunds[id].status == RecordPending
    ensures DecideRefund(t, id, false, gatewayID, now).After(t) ==
      if id in t.refunds && t.refunds[id].status == RecordPending
      then t.(refunds := t.refunds[id := t.refunds[id].(status := RecordRejected)]) else t
  {
    if id in t.refunds {
      assert RefundOk(t.refunds[id], t.orders[t.refunds[id].order]);
    }
  }

  lemma PayOutWrites(t: Tables, op: Op)
    requires op.DoDecideRefund? && op.approved && (MayPayOut(t, op.id, op.gatewayID) ==> t.refunds[op.id].order in t.orders)
    ensures Reference(t, op) ==
      if MayPayOut(t, op.id, op.gatewayID) then
        var o := t.refunds[op.id].order;
        t.(orders := t.orders[o := Refunded(t.orders[o], op.now)], items := Retire(t.items, t.orders[o].item),
           refunds := t.refunds[op.id := PaidOut(t.refunds[op.id], op.gatewayID)])
      else t
  {}

  lemma RejectWrites(t: Tables, op: Op)
    requires op.DoDecideRefund? && !op.approved
    ensures Reference(t, op) ==
      if op.id in t.refunds && t.refunds[op.id].status == RecordPending
      then t.(refunds := t.refunds[op.id := t.refunds[op.id].(status := RecordRejected)]) else t
  {}

  lemma DecisionApplies(t: Tables, op: Op)
    requires op.DoDecideRefund?
    ensures Apply(t, op) == DecideRefund(t, op.id, op.approved, op.gatewayID, op.now).After(t)
  {}

  lemma DecisionByReference(t: Tables, op: Op)
    requires op.DoDecideRefund? && RefundsOk(t.orders, t.refunds)
    ensures Apply(t, op) == Reference(t, op)
  {
    DecisionApplies(t, op);
    if op.approved {
      PayOutExact(t, op.id, op.gatewayID, op.now);
      PayOutWrites(t, op);
    } else {
      RejectExact(t, op.id, op.gatewayID, op.now);
      RejectWrites(t, op);
    }
  }

  lemma DisputeExact(t: Tables, id: Id, order: Id, who: Id, now: int)
    ensures CreateDispute(t, id, order, who, now).Commit? <==> MayDispute(t, id, order, who)
  {
    if !HasDispute(t, order) {
      forall d | d in t.disputes
        ensures t.disputes[d].order != order
      {
        assert !DisputeOf(t.disputes, d, order);
      }
    } else {
      var d :| DisputeOf(t.disputes, d, order);
    }
    assert HasPendingRefund(t, order) <==> !forall r :: RefundOf(t.refunds, r, order) ==> t.refunds[r].status != RecordPending;
  }

  lemma DisputeByReference(t: Tables, op: Op)
    requires op.DoCreateDispute?
    ensures Apply(t, op) == Reference(t, op)
  {
    DisputeExact(t, op.id, op.order, op.who, op.now);
    DisputeEffect(t, op);
  }

  lemma CompensationExact(t: Tables, d: Id, gatewayID: string, refundID: Id, now: int)
    requires DisputesOk(t.orders, t.disputes)
    ensures ResolveDispute(t, d, true, gatewayID, refundID, now).Commit? <==> MayCompensate(t, d, gatewayID, refundID)
    ensures Pending(t, d) ==> (HasRefund(t, t.disputes[d].order) <==> !NoRefundOf(t, t.disputes[d].order))
  {
    if Pending(t, d) {
      var order := t.disputes[d].order;
      assert DisputeOk(t.disputes[d], t.orders[order]);
      if !HasRefund(t, order) {
        forall r | r in t.refunds
          ensures t.refunds[r].order != order
        {
          assert !RefundOf(t.refunds, r, order);
        }
      } else {
        var r :| RefundOf(t.refunds, r, order);
      }
      assert FreshRefundID(t, refundID, gatewayID) <==> !GatewayRefundTaken(t, gatewayID, refundID);
    }
  }

  lemma ResumeExact(t: Tables, d: Id, gatewayID: string, refundID: Id, now: int)
    requires DisputesOk(t.orders, t.disputes)
    ensures ResolveDispute(t, d, false, gatewayID, refundID, now).Commit? <==> Pending(t, d)
  {
    if Pending(t, d) {
      assert DisputeOk(t.disputes[d], t.orders[t.disputes[d].order]);
    }
  }

  lemma CompensationWrites(t: Tables, op: Op)
    requires op.DoResolveDispute? && op.refund
    ensures Reference(t, op) ==
      if MayCompensate(t, op.id, op.gatewayID, op.refundID) then
        var order := t.disputes[op.id].order;
        t.(orders := t.orders[order := Refunded(t.orders[order], op.now)], items := Retire(t.items, t.orders[order].item),
           disputes := t.disputes[op.id := t.disputes[op.id].(status := DisputeResolved)],
           refunds := if NoRefundOf(t, order) then t.refunds[op.refundID := DisputeRefund(op.id, t.disputes[op.id], t.orders[order], op.gatewayID)]
                      else t.refunds)
      else t
  {}

  lemma ResumeWrites(t: Tables, op: Op)
    requires op.DoResolveDispute? && !op.refund
    ensures Reference(t, op) ==
      if Pending(t, op.id) then
        var order := t.disputes[op.id].order;
        t.(orders := t.orders[order := t.orders[order].(status := t.disputes[op.id].previous)],
           disputes := t.disputes[op.id := t.disputes[op.id].(status := DisputeRejected)])
      else t
  {}

  lemma ResolutionApplies(t: Tables, op: Op)
    requires op.DoResolveDispute?
    ensures Apply(t, op) == ResolveDispute(t, op.id, op.refund, op.gatewayID, op.refundID, op.now).After(t)
  {}

  lemma CompensationEffect(t: Tables, d: Id, gatewayID: string, refundID: Id, now: int)
    requires DisputesOk(t.orders, t.disputes) && MayCompensate(t, d, gatewayID, refundID)
    ensures var order := t.disputes[d].order;
      ResolveDispute(t, d, true, gatewayID, refundID, now).After(t) ==
        t.(orders := t.orders[order := Refunded(t.orders[order], now)], items := Retire(t.items, t.orders[order].item),
           disputes := t.disputes[d := t.disputes[d].(status := DisputeResolved)],
           refunds := if NoRefundOf(t, order) then t.refunds[refundID := DisputeRefund(d, t.disputes[d], t.orders[order], gatewayID)]
                      else t.refunds)
  {
    CompensationExact(t, d, gatewayID, refundID, now);
  }

  lemma ResolutionByReference(t: Tables, op: Op)
    requires op.DoResolveDispute? && DisputesOk(t.orders, t.disputes)
    ensures Apply(t, op) == Reference(t, op)
  {
    ResolutionApplies(t, op);
    if op.refund {
      CompensationWrites(t, op);
      CompensationExact(t, op.id, op.gatewayID, op.refundID, op.now);
      if MayCompensate(t, op.id, op.gatewayID, op.refundID) {
        CompensationEffect(t, op.id, op.gatewayID, op.refundID, op.now);
      }
    } else {
      ResumeWrites(t, op);
      ResumeExact(t, op.id, op.gatewayID, op.refundID, op.now);
      if Pending(t, op.id) {
        DisputeResumes(t, op.id, op.gatewayID, op.refundID, op.now);
      }
    }
  }

  lemma SettlementByReference(t: Tables, op: Op)
    requires op.DoUpdateSettlement? && Settled(t.orders, t.settlements)
    ensures Apply(t, op) == Reference(t, op)
  {
    assert RowSettled(t.orders, t.settlements, op.id);
    assert GatewaySettlementTaken(t, op.gatewayID, op.id) <==>
      !forall s :: s in t.settlements && s != op.id ==> t.settlements[s].gatewayID != Some(op.gatewayID);
  }

  lemma ShopByReference(t: Tables, op: Op)
    requires Inv(t) && ShopOp(op)
    ensures Apply(t, op) == Reference(t, op)
  {
    if op.DoSaveCategory? {
      CategoryByReference(t, op);
    } else if op.DoHideItem? {
      HideByReference(t, op);
    } else if op.DoCreateOrder? {
      OrderByReference(t, op);
    } else if op.DoCancelOrder? || op.DoExpireOrder? {
      ReleaseByReference(t, op);
    } else if op.DoMarkDelivered? {
      DeliveryByReference(t, op);
    } else {
      ItemByReference(t, op);
    }
  }

  lemma RecordByReference(t: Tables, op: Op)
    requires Inv(t) && !ShopOp(op)
    ensures Apply(t, op) == Reference(t, op)
  {
    if op.DoStartPayment? {
      RequestByReference(t, op);
    } else if op.DoAttachTransaction? {
      AttachByReference(t, op);
    } else if op.DoPaymentCallback? {
      CallbackByReference(t, op);
    } else if op.DoConfirmReceived? || op.DoAutoComplete? {
      CompletionByReference(t, op);
    } else if op.DoCreateRefund? {
      RefundRequestByReference(t, op);
    } else if op.DoDecideRefund? {
      DecisionByReference(t, op);
    } else if op.DoCreateDispute? {
      DisputeByReference(t, op);
    } else if op.DoResolveDispute? {
      ResolutionByReference(t, op);
    } else {
      SettlementByReference(t, op);
    }
  }

  /** Every transaction does to every table exactly what the reference says. */
  lemma ApplyByReference(t: Tables, op: Op)
    requires Inv(t)
    ensures Apply(t, op) == Reference(t, op)
  {
    if ShopOp(op) {
      ShopByReference(t, op);
    } else {
      RecordByReference(t, op);
    }
  }

  // ---------- answers ----------

  ghost predicate GoodPrice(price: int) {
    0 < price <= MAX_INT64
  }

  /** A listing is refused for its price first, then for its category. */
  lemma ItemAnswers(t: Tables, id: Id, seller: Id, category: Id, price: int, published: bool, status: ItemStatus)
    ensures CreateItem(t, id, seller, category, price, published) == Abort(BadRequest) <==> !GoodPrice(price)
    ensures CreateItem(t, id, seller, category, price, published) == Abort(NotFound) <==> GoodPrice(price) && category !in t.categories
    ensures UpdateItem(t, id, seller, category, price, status) == Abort(BadRequest) <==> !GoodPrice(price)
    ensures UpdateItem(t, id, seller, category, price, status) == Abort(NotFound) <==> GoodPrice(price) && category !in t.categories
    ensures UpdateItem(t, id, seller, category, price, status).Commit? ==>
      (UpdateItem(t, id, seller, category, price, status).value <==> ItemWrite(t, DoUpdateItem(id, seller, category, price, status)).Some?)
    ensures WithdrawItem(t, id, seller).Commit? && (WithdrawItem(t, id, seller).value <==> ItemWrite(t, DoWithdrawItem(id, seller)).Some?)
  {}

  /** Hiding answers with the order it cancelled, if it did. */
  lemma HideAnswers(t: Tables, id: Id, now: int)
    requires Custody(t.items, t.orders)
    ensures HideItem(t, id, now) == Abort(NotFound) <==> id !in t.items
    ensures id in t.items ==> HideItem(t, id, now).Commit? && forall o :: HideItem(t, id, now).value == Some(o) <==> CancelsBy(t, DoHideItem(id, now), o)
  {
    forall o
      ensures CancelsBy(t, DoHideItem(id, now), o) <==> Waiting(t, id) && t.items[id].reservedOrder == Some(o)
    {
      HidesOrder(t, DoHideItem(id, now), o);
    }
  }

  /** The jobs answer whether they changed the order. */
  lemma JobAnswers(t: Tables, id: Id, settlement: Id, cutoff: int, now: int)
    requires Settled(t.orders, t.settlements)
    ensures ExpireOrder(t, id, now).Commit? && (ExpireOrder(t, id, now).value <==> CancelsBy(t, DoExpireOrder(id, now), id))
    ensures var tx := AutoCompleteOrder(t, id, settlement, cutoff, now);
      tx.Commit? && tx.value <==> CompletesBy(t, DoAutoComplete(id, settlement, cutoff, now), id)
  {
    if id in t.orders {
      CompletionExact(t, id, settlement, now);
    }
  }

  /** A payment is refused to anybody but the buyer first, then for want of a request id. */
  lemma PaymentAnswers(t: Tables, caller: Id, id: Id, order: Id, requestID: string, now: int)
    ensures StartPayment(t, caller, id, order, requestID, now) == Abort(NotFound) <==>
      !(order in t.orders && t.orders[order].buyer == caller)
    ensures StartPayment(t, caller, id, order, requestID, now) == Abort(BadRequest) <==>
      order in t.orders && t.orders[order].buyer == caller && requestID == ""
  {}

  /** A dispute that only an earlier one stands in the way of is told so. */
  lemma DisputeAnswers(t: Tables, id: Id, order: Id, who: Id, now: int)
    ensures CreateDispute(t, id, order, who, now) == Abort(DisputeExists) <==>
      && order in t.orders && who in {t.orders[order].buyer, t.orders[order].seller} && t.orders[order].status in {OrderPaid, OrderDelivered}
      && (forall r :: RefundOf(t.refunds, r, order) ==> t.refunds[r].status != RecordPending)
      && (id in t.disputes || exists d :: d in t.disputes && t.disputes[d].order == order)
  {
    assert HasPendingRefund(t, order) <==> !forall r :: RefundOf(t.refunds, r, order) ==> t.refunds[r].status != RecordPending;
    if d :| d in t.disputes && t.disputes[d].order == order {
      assert DisputeOf(t.disputes, d, order);
    }
  }
}
