/** What every marketplace transaction keeps: the guards of different transactions interlock,
    and together they hold this invariant on every run.  Each part of the invariant speaks about
    the tables it names and no others. */
module MarketInvariant {
  import opened Support
  import opened Commission
  import opened Market

  /** The commercial terms of an order: fixed at creation, fee and net adding up to the price. */
  ghost predicate TermsOk(o: Order) {
    && ValidPrice(o.price) && ValidRate(o.rateBps)
    && o.fee == CommissionFee(o.price, o.rateBps)
    && o.fee + o.net == o.price
  }

  /** The time stamps tell the same story as the status; payment always beats expiry. */
  ghost predicate StampsOk(o: Order) {
    && (o.paidAt.Some? <==> PastPayment(o.status))
    && (o.paidAt.Some? ==> o.paidAt.value < o.expiresAt)
    && (o.status == OrderDelivered ==> o.deliveredAt.Some?)
    && (o.status in {OrderPendingPayment, OrderPaid} ==> o.deliveredAt.None?)
    && (o.status == OrderPendingPayment ==> o.disputedAt.None?)
    && (o.status == OrderDisputed ==> o.disputedAt.Some?)
  }

  ghost predicate RatesOk(categories: map<Id, Category>) {
    forall c :: c in categories ==> ValidRate(categories[c].rateBps)
  }

  ghost predicate PricesOk(items: map<Id, Item>) {
    forall i :: i in items ==> ValidPrice(items[i].price)
  }

  ghost predicate OrdersOk(orders: map<Id, Order>) {
    forall o :: o in orders ==> TermsOk(orders[o]) && StampsOk(orders[o])
  }

  /** Items and orders: a waiting order owns its item's pointer, an item that was ever paid for is
      off the shop, a pointer leads to a live order or to the completed sale, and all orders
      for an item but at most one are cancelled. */
  ghost predicate Custody(items: map<Id, Item>, orders: map<Id, Order>) {
    && (forall o :: o in orders ==> OrderCustody(items, o, orders[o]))
    && (forall i :: i in items && items[i].reservedOrder.Some? ==> PointerOk(items[i], i, items[i].reservedOrder.value, orders))
    && NoRivals(orders)
  }

  ghost predicate NoRivals(orders: map<Id, Order>) {
    forall o, u :: !Rivals(orders, o, u)
  }

  /** Two orders for one item, neither of them cancelled. */
  ghost predicate Rivals(orders: map<Id, Order>, o: Id, u: Id) {
    && o in orders && u in orders && o != u && orders[o].item == orders[u].item
    && orders[o].status != OrderCancelled && orders[u].status != OrderCancelled
  }

  ghost predicate OrderCustody(items: map<Id, Item>, id: Id, o: Order) {
    && o.item in items
    && (o.status == OrderPendingPayment ==> items[o.item].reservedOrder == Some(id))
    && (PastPayment(o.status) ==> items[o.item].status !in {ItemDraft, ItemPublished})
  }

  ghost predicate PointerOk(item: Item, i: Id, o: Id, orders: map<Id, Order>) {
    && o in orders && orders[o].item == i
    && (|| (item.status == ItemReserved && Live(orders[o].status))
        || (item.status == ItemSold && orders[o].status == OrderCompleted))
  }

  /** A succeeded payment of this order. */
  ghost predicate Pays(payments: map<Id, Payment>, p: Id, o: Id) {
    p in payments && payments[p].order == o && payments[p].status == RecordSucceeded
  }

  /** Payments: every payment asks for the order's price, an order past payment has exactly one
      succeeded payment, and an order that is not past payment has none. */
  ghost predicate Escrow(orders: map<Id, Order>, payments: map<Id, Payment>) {
    && (forall p :: p in payments ==>
          && payments[p].order in orders
          && payments[p].amount == orders[payments[p].order].price
          && payments[p].status in {RecordPending, RecordSucceeded}
          && (payments[p].status == RecordSucceeded ==> payments[p].gatewayTx.Some?))
    && (forall p, o :: Pays(payments, p, o) ==> o in orders && PastPayment(orders[o].status))
    && (forall p, q, o :: Pays(payments, p, o) && Pays(payments, q, o) ==> p == q)
    && (forall o :: o in orders && PastPayment(orders[o].status) ==> exists p :: Pays(payments, p, o))
    && UniqueRequests(payments)
  }

  /** The unique index on a payment's request id. */
  ghost predicate UniqueRequests(payments: map<Id, Payment>) {
    forall p, q :: p in payments && q in payments && payments[p].requestID == payments[q].requestID ==> p == q
  }

  /** Refunds follow the order status: a pending one belongs to a paid or delivered order, a
      succeeded one to a refunded order. */
  ghost predicate RefundsOk(orders: map<Id, Order>, refunds: map<Id, Refund>) {
    && (forall r :: r in refunds ==> refunds[r].order in orders && RefundOk(refunds[r], orders[refunds[r].order]))
    && (forall r, q, o :: RefundOf(refunds, r, o) && RefundOf(refunds, q, o) ==> r == q)
    && (forall o :: o in orders && orders[o].status == OrderRefunded ==>
          exists r :: RefundOf(refunds, r, o))
  }

  ghost predicate RefundOk(r: Refund, o: Order) {
    && r.amount == o.price
    && r.status != RecordFailed
    && (r.status == RecordPending ==> o.status in {OrderPaid, OrderDelivered})
    && (r.status == RecordSucceeded ==> o.status == OrderRefunded)
  }

  /** An order is disputed exactly while its dispute is pending. */
  ghost predicate DisputesOk(orders: map<Id, Order>, disputes: map<Id, Dispute>) {
    && (forall d :: d in disputes ==> disputes[d].order in orders && DisputeOk(disputes[d], orders[disputes[d].order]))
    && (forall d, e, o :: DisputeOf(disputes, d, o) && DisputeOf(disputes, e, o) ==> d == e)
    && (forall o :: o in orders && orders[o].disputedAt.Some? ==>
          exists d :: DisputeOf(disputes, d, o))
  }

  ghost predicate DisputeOk(d: Dispute, o: Order) {
    && d.previous in {OrderPaid, OrderDelivered}
    && (d.status == DisputePending <==> o.status == OrderDisputed)
    && (d.status == DisputePending ==> (d.previous == OrderDelivered <==> o.deliveredAt.Some?))
    && o.disputedAt.Some?
  }

  /** A settlement exists exactly for a completed order, once, for the seller's net amount. */
  ghost predicate Settled(orders: map<Id, Order>, settlements: map<Id, Settlement>) {
    && (forall s :: RowSettled(orders, settlements, s))
    && (forall s, q, o :: SettlementOf(settlements, s, o) && SettlementOf(settlements, q, o) ==> s == q)
    && (forall o :: o in orders && orders[o].status == OrderCompleted ==>
          exists s :: SettlementOf(settlements, s, o))
  }

  ghost predicate RowSettled(orders: map<Id, Order>, settlements: map<Id, Settlement>, s: Id) {
    s in settlements ==> settlements[s].order in orders && SettlementOk(settlements[s], orders[settlements[s].order])
  }

  ghost predicate SettlementOk(s: Settlement, o: Order) {
    && o.status == OrderCompleted && s.status != RecordRejected
    && s.amount == o.net
    && s.requestID == SettlementRequestID(s.order)
  }

  ghost predicate Inv(t: Tables) {
    && RatesOk(t.categories)
    && PricesOk(t.items)
    && OrdersOk(t.orders)
    && Custody(t.items, t.orders)
    && Escrow(t.orders, t.payments)
    && RefundsOk(t.orders, t.refunds)
    && DisputesOk(t.orders, t.disputes)
    && Settled(t.orders, t.settlements)
  }

  // ---------- one order row changes ----------

  lemma EscrowMove(orders: map<Id, Order>, payments: map<Id, Payment>, id: Id, o: Order)
    requires Escrow(orders, payments)
    requires id in orders ==> o.price == orders[id].price && (PastPayment(o.status) <==> PastPayment(orders[id].status))
    requires id !in orders ==> !PastPayment(o.status)
    ensures Escrow(orders[id := o], payments)
  {}

  lemma RefundsMove(orders: map<Id, Order>, refunds: map<Id, Refund>, id: Id, o: Order)
    requires RefundsOk(orders, refunds)
    requires id in orders ==> o.price == orders[id].price
    requires o.status == OrderRefunded ==> id in orders && orders[id].status == OrderRefunded
    requires id in orders && orders[id].status == OrderRefunded ==> o.status == OrderRefunded
    requires forall r :: RefundOf(refunds, r, id) && refunds[r].status == RecordPending ==>
      o.status in {OrderPaid, OrderDelivered}
    ensures RefundsOk(orders[id := o], refunds)
  {}

  lemma DisputesMove(orders: map<Id, Order>, disputes: map<Id, Dispute>, id: Id, o: Order)
    requires DisputesOk(orders, disputes)
    requires o.status != OrderDisputed && (id in orders ==> orders[id].status != OrderDisputed)
    requires if id in orders then o.disputedAt == orders[id].disputedAt else o.disputedAt.None?
    ensures DisputesOk(orders[id := o], disputes)
  {}

  lemma SettledMove(orders: map<Id, Order>, settlements: map<Id, Settlement>, id: Id, o: Order)
    requires Settled(orders, settlements)
    requires o.status != OrderCompleted && (id in orders ==> orders[id].status != OrderCompleted)
    ensures Settled(orders[id := o], settlements)
  {
    var after := orders[id := o];
    forall s
      ensures RowSettled(after, settlements, s)
    {
      assert RowSettled(orders, settlements, s);
    }
  }

  /** Every other order for the item of a live order is cancelled. */
  lemma OthersCancelled(orders: map<Id, Order>, id: Id)
    requires id in orders && orders[id].status != OrderCancelled && NoRivals(orders)
    ensures forall x :: x in orders && x != id && orders[x].item == orders[id].item ==> orders[x].status == OrderCancelled
  {
    forall x | x in orders && x != id && orders[x].item == orders[id].item
      ensures orders[x].status == OrderCancelled
    {
      assert !Rivals(orders, id, x);
    }
  }

  /** An order that is not cancelled moves: it meets no rival. */
  lemma NoNewRivals(orders: map<Id, Order>, id: Id, o: Order)
    requires id in orders && orders[id].status != OrderCancelled && orders[id].item == o.item && NoRivals(orders)
    ensures NoRivals(orders[id := o])
  {
    var after := orders[id := o];
    forall x, u
      ensures !Rivals(after, x, u)
    {
      assert Rivals(after, x, u) ==> Rivals(orders, x, u);
    }
  }

  /** An order leaves the waiting state unpaid and its item goes back to the shop. */
  lemma CustodyCancel(items: map<Id, Item>, orders: map<Id, Order>, id: Id, o: Order, status: ItemStatus)
    requires Custody(items, orders)
    requires id in orders && orders[id].status == OrderPendingPayment
    requires o.item == orders[id].item && o.status == OrderCancelled
    ensures Custody(items[o.item := items[o.item].(status := status, reservedOrder := None)], orders[id := o])
  {
    OthersCancelled(orders, id);
    NoNewRivals(orders, id, o);
  }

  /** An order moves between live statuses, its item untouched. */
  lemma CustodyMove(items: map<Id, Item>, orders: map<Id, Order>, id: Id, o: Order)
    requires Custody(items, orders)
    requires id in orders && Live(orders[id].status) && Held(o.status) && o.item == orders[id].item
    ensures Custody(items, orders[id := o])
  {
    OthersCancelled(orders, id);
    NoNewRivals(orders, id, o);
  }

  /** An order's money goes back and its item is retired. */
  lemma CustodyRetire(items: map<Id, Item>, orders: map<Id, Order>, id: Id, o: Order)
    requires Custody(items, orders)
    requires id in orders && Held(orders[id].status) && o.status == OrderRefunded && o.item == orders[id].item
    ensures Custody(Retire(items, o.item), orders[id := o])
  {
    OthersCancelled(orders, id);
    NoNewRivals(orders, id, o);
  }

  lemma CustodyComplete(items: map<Id, Item>, orders: map<Id, Order>, id: Id, o: Order)
    requires Custody(items, orders)
    requires id in orders && Held(orders[id].status) && o.status == OrderCompleted && o.item == orders[id].item
    ensures Custody(MarkSold(items, o.item, id), orders[id := o])
  {
    OthersCancelled(orders, id);
    NoNewRivals(orders, id, o);
  }

  lemma CustodyCreate(items: map<Id, Item>, orders: map<Id, Order>, id: Id, o: Order)
    requires Custody(items, orders)
    requires id !in orders && o.status == OrderPendingPayment
    requires o.item in items && items[o.item].status == ItemPublished && items[o.item].reservedOrder.None?
    ensures Custody(items[o.item := items[o.item].(status := ItemReserved, reservedOrder := Some(id))], orders[id := o])
  {
    var after := orders[id := o];
    forall x, u
      ensures !Rivals(after, x, u)
    {
      assert x in orders ==> OrderCustody(items, x, orders[x]);
      assert u in orders ==> OrderCustody(items, u, orders[u]);
      assert x in orders && u in orders ==> !Rivals(orders, x, u);
    }
  }

  /** An unreserved item changes, staying off the shop if it was. */
  lemma CustodyItem(items: map<Id, Item>, orders: map<Id, Order>, i: Id, item: Item)
    requires Custody(items, orders)
    requires item.reservedOrder.None?
    requires i in items && items[i].reservedOrder.Some? ==>
      items[i].status != ItemReserved || orders[items[i].reservedOrder.value].status != OrderPendingPayment
    requires i in items ==> (items[i].status in {ItemDraft, ItemPublished} || item.status !in {ItemDraft, ItemPublished})
    ensures Custody(items[i := item], orders)
  {}

  // ---------- one row of another table changes ----------

  /** The index survives a new request id, and changes that keep request ids. */
  lemma RequestsStay(payments: map<Id, Payment>, id: Id, p: Payment)
    requires UniqueRequests(payments)
    requires if id in payments then payments[id].requestID == p.requestID
             else forall q :: q in payments ==> payments[q].requestID != p.requestID
    ensures UniqueRequests(payments[id := p])
  {}

  lemma EscrowRequest(orders: map<Id, Order>, payments: map<Id, Payment>, id: Id, p: Payment)
    requires Escrow(orders, payments)
    requires id !in payments && p.status == RecordPending && p.order in orders && p.amount == orders[p.order].price
    requires forall q :: q in payments ==> payments[q].requestID != p.requestID
    ensures Escrow(orders, payments[id := p])
  {
    var after := payments[id := p];
    RequestsStay(payments, id, p);
    assert forall q, o :: Pays(after, q, o) <==> Pays(payments, q, o);
  }

  lemma EscrowAttach(orders: map<Id, Order>, payments: map<Id, Payment>, id: Id, p: Payment)
    requires Escrow(orders, payments)
    requires id in payments && p == payments[id].(gatewayTx := p.gatewayTx) && p.gatewayTx.Some?
    ensures Escrow(orders, payments[id := p])
  {
    var after := payments[id := p];
    RequestsStay(payments, id, p);
    assert forall q, o :: Pays(after, q, o) <==> Pays(payments, q, o);
  }

  /** The one place where money arrives: a pending payment succeeds and its waiting order is paid. */
  lemma EscrowPay(orders: map<Id, Order>, payments: map<Id, Payment>, id: Id, p: Payment, o: Order)
    requires Escrow(orders, payments)
    requires id in payments && payments[id].status == RecordPending
    requires p == payments[id].(gatewayTx := p.gatewayTx, status := RecordSucceeded) && p.gatewayTx.Some?
    requires p.order in orders && !PastPayment(orders[p.order].status)
    requires PastPayment(o.status) && o.price == orders[p.order].price
    ensures Escrow(orders[p.order := o], payments[id := p])
  {
    var after := payments[id := p];
    assert Pays(after, id, p.order);
    RequestsStay(payments, id, p);
    forall q, x | q != id
      ensures Pays(after, q, x) <==> Pays(payments, q, x)
    {}
  }

  lemma RefundsRequest(orders: map<Id, Order>, refunds: map<Id, Refund>, id: Id, r: Refund)
    requires RefundsOk(orders, refunds)
    requires id !in refunds && r.order in orders && RefundOk(r, orders[r.order])
    requires !exists q :: RefundOf(refunds, q, r.order)
    ensures RefundsOk(orders, refunds[id := r])
  {
    var after := refunds[id := r];
    forall q, x | q != id
      ensures RefundOf(after, q, x) <==> RefundOf(refunds, q, x)
    {}
    assert RefundOf(after, id, r.order);
  }

  lemma RefundsReject(orders: map<Id, Order>, refunds: map<Id, Refund>, id: Id)
    requires RefundsOk(orders, refunds) && id in refunds
    ensures refunds[id].status == RecordPending ==>
      RefundsOk(orders, refunds[id := refunds[id].(status := RecordRejected)])
  {
    var after := refunds[id := refunds[id].(status := RecordRejected)];
    forall q, x | q != id
      ensures RefundOf(after, q, x) <==> RefundOf(refunds, q, x)
    {}
    assert RefundOf(refunds, id, refunds[id].order) && RefundOf(after, id, refunds[id].order);
  }

  /** A refund is paid out: its order was held, so the guarded update always matches. */
  lemma RefundsPay(orders: map<Id, Order>, refunds: map<Id, Refund>, id: Id, r: Refund, o: Order)
    requires RefundsOk(orders, refunds)
    requires id in refunds && refunds[id].status == RecordPending
    requires r == refunds[id].(status := RecordSucceeded, gatewayID := r.gatewayID)
    requires o.status == OrderRefunded && o.price == orders[r.order].price
    ensures RefundsOk(orders[r.order := o], refunds[id := r])
  {
    var after := refunds[id := r];
    forall q, x | q != id
      ensures RefundOf(after, q, x) <==> RefundOf(refunds, q, x)
    {}
    assert RefundOf(refunds, id, r.order) && RefundOf(after, id, r.order);
    assert forall q :: q in refunds ==> RefundOf(refunds, q, refunds[q].order);
  }

  /** A dispute ends in a refund and the order has no refund row yet: one is written. */
  lemma RefundsByDispute(orders: map<Id, Order>, refunds: map<Id, Refund>, id: Id, r: Refund, o: Order)
    requires RefundsOk(orders, refunds)
    requires r.order in orders && o.price == orders[r.order].price && o.status == OrderRefunded
    requires id !in refunds && RefundOk(r, o) && !exists q :: RefundOf(refunds, q, r.order)
    ensures RefundsOk(orders[r.order := o], refunds[id := r])
  {
    var after := refunds[id := r];
    forall q, x | q != id
      ensures RefundOf(after, q, x) <==> RefundOf(refunds, q, x)
    {}
    assert RefundOf(after, id, r.order);
    assert forall q :: q in refunds ==> RefundOf(refunds, q, refunds[q].order);
  }

  /** The same when a (rejected) refund row exists: it stays as it is. */
  lemma RefundsByDisputeAgain(orders: map<Id, Order>, refunds: map<Id, Refund>, id: Id, o: Order)
    requires RefundsOk(orders, refunds)
    requires id in orders && orders[id].status == OrderDisputed
    requires o.status == OrderRefunded && o.price == orders[id].price
    requires exists q :: RefundOf(refunds, q, id)
    ensures RefundsOk(orders[id := o], refunds)
  {}

  lemma DisputesOpen(orders: map<Id, Order>, disputes: map<Id, Dispute>, id: Id, d: Dispute, o: Order)
    requires DisputesOk(orders, disputes)
    requires id !in disputes && d.order in orders && DisputeOk(d, o)
    requires !exists e :: DisputeOf(disputes, e, d.order)
    ensures DisputesOk(orders[d.order := o], disputes[id := d])
  {
    var after := disputes[id := d];
    forall q, x | q != id
      ensures DisputeOf(after, q, x) <==> DisputeOf(disputes, q, x)
    {}
    assert DisputeOf(after, id, d.order);
    assert forall e :: e in disputes ==> DisputeOf(disputes, e, disputes[e].order);
  }

  lemma DisputesClose(orders: map<Id, Order>, disputes: map<Id, Dispute>, id: Id, d: Dispute, o: Order)
    requires DisputesOk(orders, disputes)
    requires id in disputes && d == disputes[id].(status := d.status) && d.status != DisputePending
    requires o.status != OrderDisputed && o.disputedAt == orders[d.order].disputedAt
    ensures DisputesOk(orders[d.order := o], disputes[id := d])
  {
    var after := disputes[id := d];
    forall q, x | q != id
      ensures DisputeOf(after, q, x) <==> DisputeOf(disputes, q, x)
    {}
    assert DisputeOf(disputes, id, d.order) && DisputeOf(after, id, d.order);
    assert forall e :: e in disputes ==> DisputeOf(disputes, e, disputes[e].order);
  }

  lemma SettledComplete(orders: map<Id, Order>, settlements: map<Id, Settlement>, id: Id, s: Settlement, o: Order)
    requires Settled(orders, settlements)
    requires id !in settlements && s.order in orders && orders[s.order].status != OrderCompleted
    requires SettlementOk(s, o)
    ensures Settled(orders[s.order := o], settlements[id := s])
  {
    var after := settlements[id := s];
    forall q, x | q != id
      ensures SettlementOf(after, q, x) <==> SettlementOf(settlements, q, x)
    {}
    var orders' := orders[s.order := o];
    forall q
      ensures !SettlementOf(settlements, q, s.order)
    {
      assert RowSettled(orders, settlements, q);
    }
    forall q
      ensures RowSettled(orders', after, q)
    {
      assert RowSettled(orders, settlements, q);
    }
    assert SettlementOf(after, id, s.order);
    forall x | x in orders' && orders'[x].status == OrderCompleted
      ensures exists q :: SettlementOf(after, q, x)
    {
      if x != s.order {
        var q :| SettlementOf(settlements, q, x);
        assert SettlementOf(after, q, x);
      }
    }
  }

  lemma SettledUpdate(orders: map<Id, Order>, settlements: map<Id, Settlement>, id: Id, s: Settlement)
    requires Settled(orders, settlements)
    requires id in settlements && s == settlements[id].(status := s.status, gatewayID := s.gatewayID) && s.status != RecordRejected
    ensures Settled(orders, settlements[id := s])
  {
    var after := settlements[id := s];
    forall q, x | q != id
      ensures SettlementOf(after, q, x) <==> SettlementOf(settlements, q, x)
    {}
    assert SettlementOf(settlements, id, s.order) && SettlementOf(after, id, s.order);
    forall q
      ensures RowSettled(orders, after, q)
    {
      assert RowSettled(orders, settlements, q);
    }
  }

  lemma OrdersMove(orders: map<Id, Order>, id: Id, o: Order)
    requires OrdersOk(orders) && TermsOk(o) && StampsOk(o)
    ensures OrdersOk(orders[id := o])
  {}

  /** An order that is not disputed moves, neither paid nor refunded by the move: its terms, payments,
      refunds and disputes stay in order. */
  lemma RowMoves(t: Tables, id: Id, o: Order)
    requires OrdersOk(t.orders) && Escrow(t.orders, t.payments) && RefundsOk(t.orders, t.refunds) && DisputesOk(t.orders, t.disputes)
    requires TermsOk(o) && StampsOk(o) && o.status !in {OrderDisputed, OrderRefunded}
    requires if id !in t.orders then !PastPayment(o.status) && o.disputedAt.None?
             else && o.price == t.orders[id].price && o.disputedAt == t.orders[id].disputedAt
                  && (PastPayment(o.status) <==> PastPayment(t.orders[id].status))
                  && t.orders[id].status !in {OrderDisputed, OrderRefunded}
    requires o.status in {OrderPaid, OrderDelivered}
      || forall r :: RefundOf(t.refunds, r, id) ==> t.refunds[r].status != RecordPending
    ensures var orders := t.orders[id := o];
      OrdersOk(orders) && Escrow(orders, t.payments) && RefundsOk(orders, t.refunds) && DisputesOk(orders, t.disputes)
  {
    OrdersMove(t.orders, id, o);
    EscrowMove(t.orders, t.payments, id, o);
    RefundsMove(t.orders, t.refunds, id, o);
    DisputesMove(t.orders, t.disputes, id, o);
  }

  // ---------- every transaction keeps the invariant ----------
  //
  // For each transaction: what a change of that shape keeps, what the transaction does to the tables
  // (without the invariant in sight), and both together.

  lemma CategoriesKeep(t: Tables, categories: map<Id, Category>)
    requires Inv(t) && RatesOk(categories)
    ensures Inv(t.(categories := categories))
  {}

  lemma SaveCategoryEffect(t: Tables, op: Op)
    requires op.DoSaveCategory? && RatesOk(t.categories)
    ensures var t' := Apply(t, op); t' == t.(categories := t'.categories) && RatesOk(t'.categories)
  {}

  lemma SaveCategoryKeeps(t: Tables, op: Op)
    requires Inv(t) && op.DoSaveCategory?
    ensures Inv(Apply(t, op))
  {
    SaveCategoryEffect(t, op);
    CategoriesKeep(t, Apply(t, op).categories);
  }

  /** An item that no waiting order points at is changed, and does not come back to the shop. */
  ghost predicate ItemMayChange(items: map<Id, Item>, i: Id, item: Item) {
    && ValidPrice(item.price) && item.reservedOrder == (if i in items then items[i].reservedOrder else None)
    && (i in items ==> items[i].status in {ItemDraft, ItemPublished}
                       || (items[i].status == ItemHidden && item.status == ItemWithdrawn))
  }

  lemma ItemKeeps(t: Tables, i: Id, item: Item)
    requires Inv(t) && ItemMayChange(t.items, i, item)
    ensures Inv(t.(items := t.items[i := item]))
  {
    assert i in t.items && t.items[i].reservedOrder.Some? ==>
      PointerOk(t.items[i], i, t.items[i].reservedOrder.value, t.orders);
    CustodyItem(t.items, t.orders, i, item);
  }

  lemma ItemEffect(t: Tables, op: Op)
    requires op.DoCreateItem? || op.DoUpdateItem? || op.DoWithdrawItem?
    requires PricesOk(t.items)
    ensures var t' := Apply(t, op);
      t' == t || (op.id in t'.items && t' == t.(items := t.items[op.id := t'.items[op.id]]) && ItemMayChange(t.items, op.id, t'.items[op.id]))
  {}

  lemma CreateItemKeeps(t: Tables, op: Op)
    requires Inv(t) && op.DoCreateItem?
    ensures Inv(Apply(t, op))
  {
    ItemEffect(t, op);
    if Apply(t, op) != t {
      ItemKeeps(t, op.id, Apply(t, op).items[op.id]);
    }
  }

  lemma UpdateItemKeeps(t: Tables, op: Op)
    requires Inv(t) && op.DoUpdateItem?
    ensures Inv(Apply(t, op))
  {
    ItemEffect(t, op);
    if Apply(t, op) != t {
      ItemKeeps(t, op.id, Apply(t, op).items[op.id]);
    }
  }

  lemma WithdrawItemKeeps(t: Tables, op: Op)
    requires Inv(t) && op.DoWithdrawItem?
    ensures Inv(Apply(t, op))
  {
    ItemEffect(t, op);
    if Apply(t, op) != t {
      ItemKeeps(t, op.id, Apply(t, op).items[op.id]);
    }
  }

  /** A waiting order is cancelled; `items` is what the transaction does to its item. */
  lemma CancelKeeps(t: Tables, id: Id, o: Order, items: map<Id, Item>)
    requires Inv(t)
    requires id in t.orders && t.orders[id].status == OrderPendingPayment
    requires o == t.orders[id].(status := OrderCancelled, cancelledAt := o.cancelledAt)
    requires PricesOk(items) && Custody(items, t.orders[id := o])
    ensures Inv(t.(orders := t.orders[id := o], items := items))
  {
    RowMoves(t, id, o);
    SettledMove(t.orders, t.settlements, id, o);
  }

  function Hidden(item: Item): Item {
    item.(status := ItemHidden, reservedOrder := None)
  }

  function Cancelled(o: Order, now: int): Order {
    o.(status := OrderCancelled, cancelledAt := Some(now))
  }

  /** The item is reserved for an order that is still waiting. */
  ghost predicate Waiting(t: Tables, i: Id) {
    && i in t.items && t.items[i].status == ItemReserved && t.items[i].reservedOrder.Some?
    && t.items[i].reservedOrder.value in t.orders
    && t.orders[t.items[i].reservedOrder.value].status == OrderPendingPayment
  }

  /** Hiding an item whose order is still waiting cancels that order. */
  lemma HideWaiting(t: Tables, id: Id, now: int)
    requires Inv(t) && Waiting(t, id)
    ensures var oid := t.items[id].reservedOrder.value;
      Inv(t.(items := t.items[id := Hidden(t.items[id])], orders := t.orders[oid := Cancelled(t.orders[oid], now)]))
  {
    var oid := t.items[id].reservedOrder.value;
    CustodyCancel(t.items, t.orders, oid, Cancelled(t.orders[oid], now), ItemHidden);
    CancelKeeps(t, oid, Cancelled(t.orders[oid], now), t.items[id := Hidden(t.items[id])]);
  }

  /** Hiding any other item detaches it. */
  lemma HideDetached(t: Tables, id: Id)
    requires Inv(t) && id in t.items && !Waiting(t, id)
    ensures Inv(t.(items := t.items[id := Hidden(t.items[id])]))
  {
    CustodyItem(t.items, t.orders, id, Hidden(t.items[id]));
  }

  lemma HideItemEffect(t: Tables, op: Op)
    requires op.DoHideItem?
    ensures Apply(t, op) ==
      if op.id !in t.items then t
      else if Waiting(t, op.id) then
        var oid := t.items[op.id].reservedOrder.value;
        t.(items := t.items[op.id := Hidden(t.items[op.id])], orders := t.orders[oid := Cancelled(t.orders[oid], op.now)])
      else t.(items := t.items[op.id := Hidden(t.items[op.id])])
  {}

  lemma HideItemKeeps(t: Tables, op: Op)
    requires Inv(t) && op.DoHideItem?
    ensures Inv(Apply(t, op))
  {
    HideItemEffect(t, op);
    if Waiting(t, op.id) {
      HideWaiting(t, op.id, op.now);
    } else if op.id in t.items {
      HideDetached(t, op.id);
    }
  }

  /** A waiting order is cancelled and its item goes back to the shop. */
  lemma ReleaseKeeps(t: Tables, id: Id, now: int)
    requires Inv(t) && id in t.orders && t.orders[id].status == OrderPendingPayment
    ensures Inv(t.(orders := t.orders[id := Cancelled(t.orders[id], now)], items := Release(t.items, t.orders[id].item, id)))
  {
    assert OrderCustody(t.items, id, t.orders[id]);
    CustodyCancel(t.items, t.orders, id, Cancelled(t.orders[id], now), ItemPublished);
    CancelKeeps(t, id, Cancelled(t.orders[id], now), Release(t.items, t.orders[id].item, id));
  }

  lemma ReleaseEffect(t: Tables, op: Op)
    requires op.DoCancelOrder? || op.DoExpireOrder?
    ensures var t' := Apply(t, op);
      t' == t || (&& op.id in t.orders && t.orders[op.id].status == OrderPendingPayment
                  && t' == t.(orders := t.orders[op.id := Cancelled(t.orders[op.id], op.now)],
                              items := Release(t.items, t.orders[op.id].item, op.id)))
  {}

  lemma CancelOrderKeeps(t: Tables, op: Op)
    requires Inv(t) && op.DoCancelOrder?
    ensures Inv(Apply(t, op))
  {
    ReleaseEffect(t, op);
    if Apply(t, op) != t {
      ReleaseKeeps(t, op.id, op.now);
    }
  }

  lemma ExpireOrderKeeps(t: Tables, op: Op)
    requires Inv(t) && op.DoExpireOrder?
    ensures Inv(Apply(t, op))
  {
    ReleaseEffect(t, op);
    if Apply(t, op) != t {
      ReleaseKeeps(t, op.id, op.now);
    }
  }

  /** An order row a new order may have. */
  ghost predicate NewOrder(items: map<Id, Item>, o: Order) {
    && o.status == OrderPendingPayment && TermsOk(o) && StampsOk(o)
    && o.item in items && items[o.item].status == ItemPublished && items[o.item].reservedOrder.None?
  }

  /** A new order reserves its item. */
  lemma OrderedKeeps(t: Tables, id: Id, o: Order)
    requires Inv(t) && id !in t.orders && NewOrder(t.items, o)
    ensures Inv(t.(items := t.items[o.item := t.items[o.item].(status := ItemReserved, reservedOrder := Some(id))],
                   orders := t.orders[id := o]))
  {
    RowMoves(t, id, o);
    CustodyCreate(t.items, t.orders, id, o);
    SettledMove(t.orders, t.settlements, id, o);
  }

  lemma CreateOrderEffect(t: Tables, op: Op)
    requires op.DoCreateOrder? && RatesOk(t.categories) && PricesOk(t.items)
    ensures var t' := Apply(t, op);
      t' == t || (&& op.id !in t.orders && op.id in t'.orders && NewOrder(t.items, t'.orders[op.id])
                  && var o := t'.orders[op.id];
                     t' == t.(items := t.items[o.item := t.items[o.item].(status := ItemReserved, reservedOrder := Some(op.id))],
                              orders := t.orders[op.id := o]))
  {}

  lemma CreateOrderKeeps(t: Tables, op: Op)
    requires Inv(t) && op.DoCreateOrder?
    ensures Inv(Apply(t, op))
  {
    CreateOrderEffect(t, op);
    if Apply(t, op) != t {
      OrderedKeeps(t, op.id, Apply(t, op).orders[op.id]);
    }
  }

  /** Changes to the payments alone. */
  lemma PaymentsKeep(t: Tables, payments: map<Id, Payment>)
    requires Inv(t) && Escrow(t.orders, payments)
    ensures Inv(t.(payments := payments))
  {}

  lemma StartPaymentEffect(t: Tables, op: Op)
    requires op.DoStartPayment?
    ensures var t' := Apply(t, op);
      t' == t || (&& op.id !in t.payments && op.id in t'.payments && t' == t.(payments := t.payments[op.id := t'.payments[op.id]])
                  && t'.payments[op.id].status == RecordPending && t'.payments[op.id].order in t.orders
                  && t'.payments[op.id].amount == t.orders[t'.payments[op.id].order].price
                  && forall q :: q in t.payments ==> t.payments[q].requestID != t'.payments[op.id].requestID)
  {}

  lemma StartPaymentKeeps(t: Tables, op: Op)
    requires Inv(t) && op.DoStartPayment?
    ensures Inv(Apply(t, op))
  {
    StartPaymentEffect(t, op);
    if Apply(t, op) != t {
      EscrowRequest(t.orders, t.payments, op.id, Apply(t, op).payments[op.id]);
      PaymentsKeep(t, Apply(t, op).payments);
    }
  }

  lemma AttachEffect(t: Tables, op: Op)
    requires op.DoAttachTransaction?
    ensures var t' := Apply(t, op);
      t' == t || (op.id in t.payments && t' == t.(payments := t.payments[op.id := t.payments[op.id].(gatewayTx := Some(op.tx))]))
  {}

  lemma AttachTransactionKeeps(t: Tables, op: Op)
    requires Inv(t) && op.DoAttachTransaction?
    ensures Inv(Apply(t, op))
  {
    AttachEffect(t, op);
    if Apply(t, op) != t {
      EscrowAttach(t.orders, t.payments, op.id, t.payments[op.id].(gatewayTx := Some(op.tx)));
      PaymentsKeep(t, Apply(t, op).payments);
    }
  }

  function Charged(p: Payment, tx: string): Payment {
    p.(gatewayTx := Some(tx), status := RecordSucceeded)
  }

  /** A pending payment is charged and its waiting order paid, before the order expires. */
  lemma PaidKeeps(t: Tables, id: Id, tx: string, now: int)
    requires Inv(t)
    requires id in t.payments && t.payments[id].status == RecordPending && t.payments[id].order in t.orders
    requires var o := t.orders[t.payments[id].order]; o.status == OrderPendingPayment && now < o.expiresAt
    ensures var oid := t.payments[id].order;
      Inv(t.(payments := t.payments[id := Charged(t.payments[id], tx)],
             orders := t.orders[oid := t.orders[oid].(status := OrderPaid, paidAt := Some(now))]))
  {
    var p := Charged(t.payments[id], tx);
    var o := t.orders[p.order].(status := OrderPaid, paidAt := Some(now));
    OrdersMove(t.orders, p.order, o);
    CustodyMove(t.items, t.orders, p.order, o);
    EscrowPay(t.orders, t.payments, id, p, o);
    RefundsMove(t.orders, t.refunds, p.order, o);
    DisputesMove(t.orders, t.disputes, p.order, o);
    SettledMove(t.orders, t.settlements, p.order, o);
  }

  lemma CallbackEffect(t: Tables, op: Op) returns (id: Id)
    requires op.DoPaymentCallback? && Escrow(t.orders, t.payments)
    ensures var t' := Apply(t, op);
      t' == t || (&& id in t.payments && t.payments[id].status == RecordPending && t.payments[id].order in t.orders
                  && var oid := t.payments[id].order;
                     && t.orders[oid].status == OrderPendingPayment && op.now < t.orders[oid].expiresAt
                     && t' == t.(payments := t.payments[id := Charged(t.payments[id], op.tx)],
                                 orders := t.orders[oid := t.orders[oid].(status := OrderPaid, paidAt := Some(op.now))]))
  {
    id := if PaymentRequestTaken(t, op.requestID) then PaymentByRequest(t, op.requestID) else Id(0);
  }

  lemma PaymentCallbackKeeps(t: Tables, op: Op)
    requires Inv(t) && op.DoPaymentCallback?
    ensures Inv(Apply(t, op))
  {
    var id := CallbackEffect(t, op);
    if Apply(t, op) != t {
      PaidKeeps(t, id, op.tx, op.now);
    }
  }

  /** A paid order is delivered. */
  lemma DeliveredKeeps(t: Tables, id: Id, now: int)
    requires Inv(t) && id in t.orders && t.orders[id].status == OrderPaid
    ensures Inv(t.(orders := t.orders[id := t.orders[id].(status := OrderDelivered, deliveredAt := Some(now))]))
  {
    var o := t.orders[id].(status := OrderDelivered, deliveredAt := Some(now));
    RowMoves(t, id, o);
    CustodyMove(t.items, t.orders, id, o);
    SettledMove(t.orders, t.settlements, id, o);
  }

  lemma DeliveryEffect(t: Tables, op: Op)
    requires op.DoMarkDelivered?
    ensures var t' := Apply(t, op);
      t' == t || (&& op.id in t.orders && t.orders[op.id].status == OrderPaid
                  && t' == t.(orders := t.orders[op.id := t.orders[op.id].(status := OrderDelivered, deliveredAt := Some(op.now))]))
  {}

  lemma MarkDeliveredKeeps(t: Tables, op: Op)
    requires Inv(t) && op.DoMarkDelivered?
    ensures Inv(Apply(t, op))
  {
    DeliveryEffect(t, op);
    if Apply(t, op) != t {
      DeliveredKeeps(t, op.id, op.now);
    }
  }

  function SettlementFor(id: Id, o: Order): Settlement {
    Settlement(id, SettlementRequestID(id), None, o.net, RecordPending)
  }

  lemma NoPendingRefund(t: Tables, order: Id)
    requires !HasPendingRefund(t, order)
    ensures forall r :: RefundOf(t.refunds, r, order) ==> t.refunds[r].status != RecordPending
  {}

  function Completed(o: Order, now: int): Order {
    o.(status := OrderCompleted, completedAt := Some(now))
  }

  /** A delivered order without a pending refund is completed; `items` and `settlements` are what the
      transaction makes of them. */
  lemma CompletedKeeps(t: Tables, id: Id, o: Order, items: map<Id, Item>, settlements: map<Id, Settlement>)
    requires Inv(t) && id in t.orders && t.orders[id].status == OrderDelivered
    requires o == t.orders[id].(status := OrderCompleted, completedAt := o.completedAt)
    requires forall r :: RefundOf(t.refunds, r, id) ==> t.refunds[r].status != RecordPending
    requires PricesOk(items) && Custody(items, t.orders[id := o]) && Settled(t.orders[id := o], settlements)
    ensures Inv(t.(orders := t.orders[id := o], items := items, settlements := settlements))
  {
    RowMoves(t, id, o);
  }

  lemma SoldKeeps(t: Tables, id: Id, now: int, settlement: Id)
    requires Inv(t) && id in t.orders && t.orders[id].status == OrderDelivered && settlement !in t.settlements
    requires forall r :: RefundOf(t.refunds, r, id) ==> t.refunds[r].status != RecordPending
    ensures Inv(t.(orders := t.orders[id := Completed(t.orders[id], now)], items := MarkSold(t.items, t.orders[id].item, id),
                   settlements := t.settlements[settlement := SettlementFor(id, t.orders[id])]))
  {
    var o, s := Completed(t.orders[id], now), SettlementFor(id, t.orders[id]);
    CustodyComplete(t.items, t.orders, id, o);
    SettledComplete(t.orders, t.settlements, settlement, s, o);
    CompletedKeeps(t, id, o, MarkSold(t.items, o.item, id), t.settlements[settlement := s]);
  }

  /** Since no settlement exists before completion, the skipped insert never happens. */
  lemma CompletionEffect(t: Tables, id: Id, settlement: Id, now: int)
    requires id in t.orders && Settled(t.orders, t.settlements)
    ensures var t' := CompleteOrder(t, id, settlement, now).After(t);
      t' == t || (&& t.orders[id].status == OrderDelivered && !HasPendingRefund(t, id) && settlement !in t.settlements
                  && t' == t.(orders := t.orders[id := Completed(t.orders[id], now)],
                              items := MarkSold(t.items, t.orders[id].item, id),
                              settlements := t.settlements[settlement := SettlementFor(id, t.orders[id])]))
  {
    if t.orders[id].status == OrderDelivered {
      forall s
        ensures !SettlementOf(t.settlements, s, id)
      {
        assert RowSettled(t.orders, t.settlements, s);
      }
      assert !HasSettlement(t, id);
    }
  }

  lemma CompleteOrderKeeps(t: Tables, id: Id, settlement: Id, now: int)
    requires Inv(t) && id in t.orders
    ensures Inv(CompleteOrder(t, id, settlement, now).After(t))
  {
    CompletionEffect(t, id, settlement, now);
    if CompleteOrder(t, id, settlement, now).After(t) != t {
      NoPendingRefund(t, id);
      SoldKeeps(t, id, now, settlement);
    }
  }

  lemma CompletionCases(t: Tables, op: Op)
    requires op.DoConfirmReceived? || op.DoAutoComplete?
    ensures Apply(t, op) == t || (op.id in t.orders && Apply(t, op) == CompleteOrder(t, op.id, op.settlement, op.now).After(t))
  {}

  lemma ConfirmReceivedKeeps(t: Tables, op: Op)
    requires Inv(t) && op.DoConfirmReceived?
    ensures Inv(Apply(t, op))
  {
    CompletionCases(t, op);
    if Apply(t, op) != t {
      CompleteOrderKeeps(t, op.id, op.settlement, op.now);
    }
  }

  lemma AutoCompleteKeeps(t: Tables, op: Op)
    requires Inv(t) && op.DoAutoComplete?
    ensures Inv(Apply(t, op))
  {
    CompletionCases(t, op);
    if Apply(t, op) != t {
      CompleteOrderKeeps(t, op.id, op.settlement, op.now);
    }
  }

  /** Changes to the refunds alone. */
  lemma RefundRowsKeep(t: Tables, refunds: map<Id, Refund>)
    requires Inv(t) && RefundsOk(t.orders, refunds)
    ensures Inv(t.(refunds := refunds))
  {}

  lemma RefundRequestEffect(t: Tables, op: Op)
    requires op.DoCreateRefund?
    ensures var t' := Apply(t, op);
      t' == t || (&& op.id !in t.refunds && op.id in t'.refunds && t' == t.(refunds := t.refunds[op.id := t'.refunds[op.id]])
                  && t'.refunds[op.id].order in t.orders && RefundOk(t'.refunds[op.id], t.orders[t'.refunds[op.id].order])
                  && !HasRefund(t, t'.refunds[op.id].order))
  {}

  lemma CreateRefundKeeps(t: Tables, op: Op)
    requires Inv(t) && op.DoCreateRefund?
    ensures Inv(Apply(t, op))
  {
    RefundRequestEffect(t, op);
    if Apply(t, op) != t {
      RefundsRequest(t.orders, t.refunds, op.id, Apply(t, op).refunds[op.id]);
      RefundRowsKeep(t, Apply(t, op).refunds);
    }
  }

  function Refunded(o: Order, now: int): Order {
    o.(status := OrderRefunded, refundedAt := Some(now))
  }

  /** A held order is refunded; `refunds` and `disputes` are what the transaction makes of them. */
  lemma RefundedKeeps(t: Tables, id: Id, now: int, refunds: map<Id, Refund>, disputes: map<Id, Dispute>)
    requires Inv(t) && id in t.orders && Held(t.orders[id].status)
    requires var orders := t.orders[id := Refunded(t.orders[id], now)]; RefundsOk(orders, refunds) && DisputesOk(orders, disputes)
    ensures Inv(t.(orders := t.orders[id := Refunded(t.orders[id], now)], items := Retire(t.items, t.orders[id].item),
                   refunds := refunds, disputes := disputes))
  {
    var o := Refunded(t.orders[id], now);
    OrdersMove(t.orders, id, o);
    CustodyRetire(t.items, t.orders, id, o);
    EscrowMove(t.orders, t.payments, id, o);
    SettledMove(t.orders, t.settlements, id, o);
  }

  function PaidOut(r: Refund, gatewayID: string): Refund {
    r.(status := RecordSucceeded, gatewayID := Some(gatewayID))
  }

  /** A pending refund is paid out. */
  lemma PaidOutKeeps(t: Tables, id: Id, gatewayID: string, now: int)
    requires Inv(t) && id in t.refunds && t.refunds[id].status == RecordPending
    ensures var oid := t.refunds[id].order;
      && oid in t.orders
      && Inv(t.(orders := t.orders[oid := Refunded(t.orders[oid], now)], items := Retire(t.items, t.orders[oid].item),
                refunds := t.refunds[id := PaidOut(t.refunds[id], gatewayID)]))
  {
    var r := PaidOut(t.refunds[id], gatewayID);
    assert RefundOk(t.refunds[id], t.orders[r.order]);
    RefundsPay(t.orders, t.refunds, id, r, Refunded(t.orders[r.order], now));
    DisputesMove(t.orders, t.disputes, r.order, Refunded(t.orders[r.order], now));
    RefundedKeeps(t, r.order, now, t.refunds[id := r], t.disputes);
  }

  /** The unchecked order update always matches. */
  lemma DecisionEffect(t: Tables, op: Op)
    requires op.DoDecideRefund? && RefundsOk(t.orders, t.refunds)
    ensures var t' := Apply(t, op);
      t' == t || (&& op.id in t.refunds && t.refunds[op.id].status == RecordPending && t.refunds[op.id].order in t.orders
                  && var oid := t.refunds[op.id].order;
                     t' == if op.approved
                           then t.(orders := t.orders[oid := Refunded(t.orders[oid], op.now)], items := Retire(t.items, t.orders[oid].item),
                                   refunds := t.refunds[op.id := PaidOut(t.refunds[op.id], op.gatewayID)])
                           else t.(refunds := t.refunds[op.id := t.refunds[op.id].(status := RecordRejected)]))
  {
    if op.id in t.refunds && t.refunds[op.id].status == RecordPending {
      assert RefundOk(t.refunds[op.id], t.orders[t.refunds[op.id].order]);
    }
  }

  lemma DecideRefundKeeps(t: Tables, op: Op)
    requires Inv(t) && op.DoDecideRefund?
    ensures Inv(Apply(t, op))
  {
    DecisionEffect(t, op);
    if Apply(t, op) != t {
      if op.approved {
        PaidOutKeeps(t, op.id, op.gatewayID, op.now);
      } else {
        RefundsReject(t.orders, t.refunds, op.id);
        RefundRowsKeep(t, Apply(t, op).refunds);
      }
    }
  }

  /** A dispute is opened on a held order without a pending refund. */
  lemma DisputedKeeps(t: Tables, id: Id, order: Id, who: Id, now: int)
    requires Inv(t) && order in t.orders && t.orders[order].status in {OrderPaid, OrderDelivered}
    requires forall r :: RefundOf(t.refunds, r, order) ==> t.refunds[r].status != RecordPending
    requires id !in t.disputes && !HasDispute(t, order)
    ensures Inv(t.(disputes := t.disputes[id := Dispute(order, who, t.orders[order].status, DisputePending)],
                   orders := t.orders[order := t.orders[order].(status := OrderDisputed, disputedAt := Some(now))]))
  {
    var o := t.orders[order].(status := OrderDisputed, disputedAt := Some(now));
    OrdersMove(t.orders, order, o);
    CustodyMove(t.items, t.orders, order, o);
    EscrowMove(t.orders, t.payments, order, o);
    RefundsMove(t.orders, t.refunds, order, o);
    assert StampsOk(t.orders[order]);
    DisputesOpen(t.orders, t.disputes, id, Dispute(order, who, t.orders[order].status, DisputePending), o);
    SettledMove(t.orders, t.settlements, order, o);
  }

  lemma DisputeEffect(t: Tables, op: Op)
    requires op.DoCreateDispute?
    ensures var t' := Apply(t, op);
      t' == t || (&& op.order in t.orders && t.orders[op.order].status in {OrderPaid, OrderDelivered}
                  && !HasPendingRefund(t, op.order) && op.id !in t.disputes && !HasDispute(t, op.order)
                  && t' == t.(disputes := t.disputes[op.id := Dispute(op.order, op.who, t.orders[op.order].status, DisputePending)],
                              orders := t.orders[op.order := t.orders[op.order].(status := OrderDisputed, disputedAt := Some(op.now))]))
  {}

  lemma CreateDisputeKeeps(t: Tables, op: Op)
    requires Inv(t) && op.DoCreateDispute?
    ensures Inv(Apply(t, op))
  {
    DisputeEffect(t, op);
    if Apply(t, op) != t {
      NoPendingRefund(t, op.order);
      DisputedKeeps(t, op.id, op.order, op.who, op.now);
    }
  }

  lemma ResumeKeeps(t: Tables, id: Id)
    requires Inv(t) && id in t.disputes && t.disputes[id].status == DisputePending
    ensures var d := t.disputes[id];
      Inv(t.(orders := t.orders[d.order := t.orders[d.order].(status := d.previous)],
             disputes := t.disputes[id := d.(status := DisputeRejected)]))
  {
    var d := t.disputes[id];
    var o := t.orders[d.order].(status := d.previous);
    assert DisputeOk(d, t.orders[d.order]);
    OrdersMove(t.orders, d.order, o);
    CustodyMove(t.items, t.orders, d.order, o);
    EscrowMove(t.orders, t.payments, d.order, o);
    RefundsMove(t.orders, t.refunds, d.order, o);
    DisputesClose(t.orders, t.disputes, id, d.(status := DisputeRejected), o);
    SettledMove(t.orders, t.settlements, d.order, o);
  }

  function DisputeRefund(id: Id, d: Dispute, o: Order, gatewayID: string): Refund {
    Refund(d.order, d.raisedBy, DisputeRefundRequestID(id), Some(gatewayID), o.price, RecordSucceeded)
  }

  /** A pending dispute is resolved by a refund; the refund row is written if the order has none. */
  lemma DisputeRefundKeeps(t: Tables, id: Id, gatewayID: string, refundID: Id, now: int)
    requires Inv(t) && id in t.disputes && t.disputes[id].status == DisputePending && t.disputes[id].order in t.orders
    requires !HasRefund(t, t.disputes[id].order) ==> refundID !in t.refunds
    ensures var d := t.disputes[id];
      Inv(t.(orders := t.orders[d.order := Refunded(t.orders[d.order], now)], items := Retire(t.items, t.orders[d.order].item),
             disputes := t.disputes[id := d.(status := DisputeResolved)],
             refunds := if HasRefund(t, d.order) then t.refunds
                        else t.refunds[refundID := DisputeRefund(id, d, t.orders[d.order], gatewayID)]))
  {
    var d := t.disputes[id];
    var o := Refunded(t.orders[d.order], now);
    assert DisputeOk(d, t.orders[d.order]);
    DisputesClose(t.orders, t.disputes, id, d.(status := DisputeResolved), o);
    if HasRefund(t, d.order) {
      RefundsByDisputeAgain(t.orders, t.refunds, d.order, o);
      RefundedKeeps(t, d.order, now, t.refunds, t.disputes[id := d.(status := DisputeResolved)]);
    } else {
      var r := DisputeRefund(id, d, t.orders[d.order], gatewayID);
      RefundsByDispute(t.orders, t.refunds, refundID, r, o);
      RefundedKeeps(t, d.order, now, t.refunds[refundID := r], t.disputes[id := d.(status := DisputeResolved)]);
    }
  }

  lemma ResolutionEffect(t: Tables, op: Op)
    requires op.DoResolveDispute?
    ensures var t' := Apply(t, op);
      t' == t || (&& op.id in t.disputes && t.disputes[op.id].status == DisputePending && t.disputes[op.id].order in t.orders
                  && (op.refund && !HasRefund(t, t.disputes[op.id].order) ==> op.refundID !in t.refunds)
                  && var d := t.disputes[op.id]; var o := t.orders[d.order];
                     t' == if op.refund
                           then t.(orders := t.orders[d.order := Refunded(o, op.now)], items := Retire(t.items, o.item),
                                   disputes := t.disputes[op.id := d.(status := DisputeResolved)],
                                   refunds := if HasRefund(t, d.order) then t.refunds
                                              else t.refunds[op.refundID := DisputeRefund(op.id, d, o, op.gatewayID)])
                           else t.(orders := t.orders[d.order := o.(status := d.previous)],
                                   disputes := t.disputes[op.id := d.(status := DisputeRejected)]))
  {}

  lemma ResolveDisputeKeeps(t: Tables, op: Op)
    requires Inv(t) && op.DoResolveDispute?
    ensures Inv(Apply(t, op))
  {
    ResolutionEffect(t, op);
    if Apply(t, op) != t {
      if op.refund {
        DisputeRefundKeeps(t, op.id, op.gatewayID, op.refundID, op.now);
      } else {
        ResumeKeeps(t, op.id);
      }
    }
  }

  /** Changes to the settlements alone. */
  lemma SettlementRowsKeep(t: Tables, settlements: map<Id, Settlement>)
    requires Inv(t) && Settled(t.orders, settlements)
    ensures Inv(t.(settlements := settlements))
  {}

  lemma SettlementEffect(t: Tables, op: Op)
    requires op.DoUpdateSettlement?
    ensures var t' := Apply(t, op);
      t' == t || (&& op.id in t.settlements && op.id in t'.settlements
                  && t' == t.(settlements := t.settlements[op.id := t'.settlements[op.id]])
                  && t'.settlements[op.id] == t.settlements[op.id].(status := t'.settlements[op.id].status,
                                                                    gatewayID := t'.settlements[op.id].gatewayID)
                  && t'.settlements[op.id].status != RecordRejected)
  {}

  lemma UpdateSettlementKeeps(t: Tables, op: Op)
    requires Inv(t) && op.DoUpdateSettlement?
    ensures Inv(Apply(t, op))
  {
    SettlementEffect(t, op);
    if Apply(t, op) != t {
      SettledUpdate(t.orders, t.settlements, op.id, Apply(t, op).settlements[op.id]);
      SettlementRowsKeep(t, Apply(t, op).settlements);
    }
  }

  // ---------- dispatch ----------

  lemma ShopOpKeeps(t: Tables, op: Op)
    requires Inv(t) && (op.DoSaveCategory? || op.DoCreateItem? || op.DoUpdateItem? || op.DoWithdrawItem? || op.DoHideItem?)
    ensures Inv(Apply(t, op))
  {
    if op.DoSaveCategory? {
      SaveCategoryKeeps(t, op);
    } else if op.DoCreateItem? {
      CreateItemKeeps(t, op);
    } else if op.DoUpdateItem? {
      UpdateItemKeeps(t, op);
    } else if op.DoWithdrawItem? {
      WithdrawItemKeeps(t, op);
    } else {
      HideItemKeeps(t, op);
    }
  }

  lemma OrderOpKeeps(t: Tables, op: Op)
    requires Inv(t) && (op.DoCreateOrder? || op.DoCancelOrder? || op.DoExpireOrder? || op.DoMarkDelivered?
                        || op.DoConfirmReceived? || op.DoAutoComplete?)
    ensures Inv(Apply(t, op))
  {
    if op.DoCreateOrder? {
      CreateOrderKeeps(t, op);
    } else if op.DoCancelOrder? {
      CancelOrderKeeps(t, op);
    } else if op.DoExpireOrder? {
      ExpireOrderKeeps(t, op);
    } else if op.DoMarkDelivered? {
      MarkDeliveredKeeps(t, op);
    } else if op.DoConfirmReceived? {
      ConfirmReceivedKeeps(t, op);
    } else {
      AutoCompleteKeeps(t, op);
    }
  }

  lemma RecordOpKeeps(t: Tables, op: Op)
    requires Inv(t) && (op.DoStartPayment? || op.DoAttachTransaction? || op.DoPaymentCallback? || op.DoCreateRefund?
                        || op.DoDecideRefund? || op.DoCreateDispute? || op.DoResolveDispute? || op.DoUpdateSettlement?)
    ensures Inv(Apply(t, op))
  {
    if op.DoStartPayment? {
      StartPaymentKeeps(t, op);
    } else if op.DoAttachTransaction? {
      AttachTransactionKeeps(t, op);
    } else if op.DoPaymentCallback? {
      PaymentCallbackKeeps(t, op);
    } else if op.DoCreateRefund? {
      CreateRefundKeeps(t, op);
    } else if op.DoDecideRefund? {
      DecideRefundKeeps(t, op);
    } else if op.DoCreateDispute? {
      CreateDisputeKeeps(t, op);
    } else if op.DoResolveDispute? {
      ResolveDisputeKeeps(t, op);
    } else {
      UpdateSettlementKeeps(t, op);
    }
  }

  /** Every transaction, whatever its arguments, keeps the invariant. */
  lemma ApplyKeeps(t: Tables, op: Op)
    requires Inv(t)
    ensures Inv(Apply(t, op))
  {
    if op.DoSaveCategory? || op.DoCreateItem? || op.DoUpdateItem? || op.DoWithdrawItem? || op.DoHideItem? {
      ShopOpKeeps(t, op);
    } else if op.DoCreateOrder? || op.DoCancelOrder? || op.DoExpireOrder? || op.DoMarkDelivered?
              || op.DoConfirmReceived? || op.DoAutoComplete? {
      OrderOpKeeps(t, op);
    } else {
      RecordOpKeeps(t, op);
    }
  }

  /** Safety over whole runs: every state reached from a good one, in particular from the empty
      database, is good. */
  lemma {:induction false} RunKeeps(t: Tables, ops: seq<Op>)
    requires Inv(t)
    ensures Inv(Run(t, ops))
    decreases |ops|
  {
    if ops != [] {
      RunKeeps(t, ops[..|ops| - 1]);
      ApplyKeeps(Run(t, ops[..|ops| - 1]), ops[|ops| - 1]);
    }
  }

  lemma EveryRunIsSafe(ops: seq<Op>)
    ensures Inv(Run(EMPTY, ops))
  {
    RunKeeps(EMPTY, ops);
  }

  /** A state some run of transactions leads to. */
  ghost predicate Reachable(t: Tables) {
    exists ops :: Run(EMPTY, ops) == t
  }
}
