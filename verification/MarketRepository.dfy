/** The marketplace repository: the tables as fields, and each database transaction run statement by
    statement, with its guards, its unchecked updates and its rollbacks.  Every method is proved
    against the transaction function of the same name in `Market`. */
module MarketRepository {
  import opened Support
  import opened Commission
  import opened Market
  import opened MarketInvariant
  import opened MarketSweep

  /** The method did what the transaction function says: the same tables, the same answer. */
  ghost predicate Ran<R>(tx: Tx<R>, before: Tables, after: Tables, res: Result<R, MarketError>) {
    after == tx.After(before) && res == AnswerOf(tx)
  }

  ghost function AnswerOf<R>(tx: Tx<R>): Result<R, MarketError> {
    match tx
    case Commit(_, value) => Ok(value)
    case Abort(error) => Err(error)
  }

  class Repository {
    var categories: map<Id, Category>
    var items: map<Id, Item>
    var orders: map<Id, Order>
    var payments: map<Id, Payment>
    var refunds: map<Id, Refund>
    var disputes: map<Id, Dispute>
    var settlements: map<Id, Settlement>

    ghost function Db(): Tables
      reads this
    {
      Tables(categories, items, orders, payments, refunds, disputes, settlements)
    }

    /** The unique index on the payments' request ids: all a transaction relies on by itself.  The
        invariant that the transactions keep together is the service's. */
    ghost predicate Indexed()
      reads this
    {
      UniqueRequests(payments)
    }

    constructor ()
      ensures Indexed() && Db() == EMPTY
    {
      categories, items, orders, payments := map[], map[], map[], map[];
      refunds, disputes, settlements := map[], map[], map[];
    }

    // ---------- items ----------

    method SaveCategory(id: Id, category: Category) returns (res: Result<(), MarketError>)
      requires Indexed()
      modifies this
      ensures Indexed() && Ran(Market.SaveCategory(old(Db()), id, category), old(Db()), Db(), res)
    {
      if !ValidRate(category.rateBps) { return Err(BadRequest); }
      categories := categories[id := category];
      return Ok(());
    }

    method CreateItem(id: Id, seller: Id, category: Id, price: int, published: bool)
      returns (res: Result<(), MarketError>)
      requires Indexed()
      modifies this
      ensures Indexed() && Ran(Market.CreateItem(old(Db()), id, seller, category, price, published), old(Db()), Db(), res)
    {
      if !ValidPrice(price) { return Err(BadRequest); }
      if category !in categories { return Err(NotFound); }
      if id in items { return Err(ConstraintViolated); }
      items := items[id := Item(seller, category, price, if published then ItemPublished else ItemDraft, None)];
      return Ok(());
    }

    method UpdateItem(id: Id, owner: Id, category: Id, price: int, status: ItemStatus)
      returns (res: Result<bool, MarketError>)
      requires Indexed()
      modifies this
      ensures Indexed() && Ran(Market.UpdateItem(old(Db()), id, owner, category, price, status), old(Db()), Db(), res)
    {
      if !ValidPrice(price) { return Err(BadRequest); }
      if category !in categories { return Err(NotFound); }
      if id !in items || items[id].seller != owner || items[id].status !in {ItemDraft, ItemPublished} {
        return Ok(false);
      }
      items := items[id := items[id].(category := category, price := price, status := status)];
      return Ok(true);
    }

    method WithdrawItem(id: Id, owner: Id) returns (res: Result<bool, MarketError>)
      requires Indexed()
      modifies this
      ensures Indexed() && Ran(Market.WithdrawItem(old(Db()), id, owner), old(Db()), Db(), res)
    {
      if id !in items || items[id].seller != owner || items[id].status !in {ItemDraft, ItemPublished, ItemHidden} {
        return Ok(false);
      }
      items := items[id := items[id].(status := ItemWithdrawn)];
      return Ok(true);
    }

    method HideItem(id: Id, now: int) returns (res: Result<Option<Id>, MarketError>)
      requires Indexed()
      modifies this
      ensures Indexed() && Ran(Market.HideItem(old(Db()), id, now), old(Db()), Db(), res)
    {
      if id !in items { return Err(NotFound); }
      var item := items[id];
      var cancelled: Option<Id> := None;
      if item.status == ItemReserved && item.reservedOrder.Some? {
        var o := item.reservedOrder.value;
        if o in orders && orders[o].status == OrderPendingPayment {
          orders := orders[o := orders[o].(status := OrderCancelled, cancelledAt := Some(now))];
          cancelled := Some(o);
        }
      }
      items := items[id := item.(status := ItemHidden, reservedOrder := None)];
      return Ok(cancelled);
    }

    // ---------- orders and payments ----------

    method CreateOrder(id: Id, itemID: Id, buyer: Id, now: int) returns (res: Result<(), MarketError>)
      requires Indexed()
      modifies this
      ensures Indexed() && Ran(Market.CreateOrder(old(Db()), id, itemID, buyer, now), old(Db()), Db(), res)
    {
      if itemID !in items { return Err(ItemUnavailable); }
      var item := items[itemID];
      if item.status != ItemPublished || item.reservedOrder.Some? { return Err(ItemUnavailable); }
      if item.seller == buyer { return Err(OwnItem); }
      if item.category !in categories || !categories[item.category].active { return Err(ItemUnavailable); }
      var rate := categories[item.category].rateBps;
      var fee := CommissionFee(item.price, rate);
      var order := Order(itemID, buyer, item.seller, OrderPendingPayment, item.price, rate, fee, item.price - fee,
                         now + PAYMENT_WINDOW, None, None, None, None, None, None);
      var before := items;
      items := items[itemID := item.(status := ItemReserved, reservedOrder := Some(id))];
      if id in orders {
        items := before;
        return Err(ConstraintViolated);
      }
      orders := orders[id := order];
      return Ok(());
    }

    method CreateOrFindPayment(id: Id, order: Id, requestID: string, amount: int, now: int)
      returns (res: Result<bool, MarketError>)
      requires Indexed()
      modifies this
      ensures Indexed()
      ensures Ran(Market.CreateOrFindPayment(old(Db()), id, order, requestID, amount, now), old(Db()), Db(), res)
    {
      if order !in orders { return Err(OrderState); }
      if orders[order].status != OrderPendingPayment || now >= orders[order].expiresAt { return Err(OrderState); }
      if p :| p in payments && payments[p].requestID == requestID {
        assert PaymentByRequest(Db(), requestID) == p;
        if payments[p].order != order || payments[p].amount != amount { return Err(OrderState); }
        return Ok(false);
      }
      if id in payments { return Err(ConstraintViolated); }
      payments := payments[id := Payment(order, requestID, None, amount, RecordPending)];
      return Ok(true);
    }

    method FindPayment(requestID: string) returns (p: Option<Id>)
      ensures match p
              case Some(id) => id in payments && payments[id].requestID == requestID
              case None => forall q :: q in payments ==> payments[q].requestID != requestID
    {
      if id :| id in payments && payments[id].requestID == requestID { return Some(id); }
      return None;
    }

    method AttachPaymentTransaction(id: Id, tx: string) returns (res: Result<(), MarketError>)
      requires Indexed()
      modifies this
      ensures Indexed() && Ran(Market.AttachPaymentTransaction(old(Db()), id, tx), old(Db()), Db(), res)
    {
      if id !in payments || (payments[id].gatewayTx.Some? && payments[id].gatewayTx != Some(tx)) { return Err(OrderState); }
      if exists p :: p in payments && p != id && payments[p].gatewayTx == Some(tx) { return Err(ConstraintViolated); }
      payments := payments[id := payments[id].(gatewayTx := Some(tx))];
      return Ok(());
    }

    method ApplyPaymentCallback(requestID: string, tx: string, amount: int, now: int)
      returns (res: Result<bool, MarketError>)
      requires Indexed()
      modifies this
      ensures Indexed()
      ensures Ran(Market.ApplyPaymentCallback(old(Db()), requestID, tx, amount, now), old(Db()), Db(), res)
    {
      if id :| id in payments && payments[id].requestID == requestID {
        assert PaymentByRequest(Db(), requestID) == id;
        var p := payments[id];
        if p.amount != amount || (p.gatewayTx.Some? && p.gatewayTx != Some(tx)) { return Err(OrderState); }
        if p.order !in orders { return Err(OrderState); }
        if p.status == RecordSucceeded { return Ok(false); }
        var o := orders[p.order];
        if o.status != OrderPendingPayment || now >= o.expiresAt { return Err(OrderState); }
        if p.status == RecordPending {
          if exists q :: q in payments && q != id && payments[q].gatewayTx == Some(tx) { return Err(OrderState); }
          payments := payments[id := p.(gatewayTx := Some(tx), status := RecordSucceeded)];
        }
        orders := orders[p.order := o.(status := OrderPaid, paidAt := Some(now))];
        return Ok(true);
      }
      return Err(OrderState);
    }

    method CancelOrder(id: Id, buyer: Id, now: int) returns (res: Result<(), MarketError>)
      requires Indexed()
      modifies this
      ensures Indexed() && Ran(Market.CancelOrder(old(Db()), id, buyer, now), old(Db()), Db(), res)
    {
      if id !in orders { return Err(OrderState); }
      var order := orders[id];
      if order.buyer != buyer || order.status != OrderPendingPayment { return Err(OrderState); }
      orders := orders[id := order.(status := OrderCancelled, cancelledAt := Some(now))];
      if order.item in items && items[order.item].reservedOrder == Some(id) {
        items := items[order.item := items[order.item].(status := ItemPublished, reservedOrder := None)];
      }
      return Ok(());
    }

    method MarkDelivered(id: Id, seller: Id, now: int) returns (res: Result<(), MarketError>)
      requires Indexed()
      modifies this
      ensures Indexed() && Ran(Market.MarkDelivered(old(Db()), id, seller, now), old(Db()), Db(), res)
    {
      if id !in orders || orders[id].seller != seller || orders[id].status != OrderPaid { return Err(OrderState); }
      orders := orders[id := orders[id].(status := OrderDelivered, deliveredAt := Some(now))];
      return Ok(());
    }

    /** The tail shared by confirming and auto-completing: the settlement insert can still fail, and
        then the order and item updates are rolled back. */
    method CompleteOrder(id: Id, settlement: Id, now: int) returns (res: Result<bool, MarketError>)
      requires Indexed() && id in orders
      modifies this
      ensures Indexed() && Ran(Market.CompleteOrder(old(Db()), id, settlement, now), old(Db()), Db(), res)
    {
      var order := orders[id];
      var refunding := SomePendingRefund(id);
      if refunding { return Err(OrderState); }
      if order.status != OrderDelivered { return Err(OrderState); }
      var oldOrders, oldItems := orders, items;
      orders := orders[id := order.(status := OrderCompleted, completedAt := Some(now))];
      if order.item in items && items[order.item].reservedOrder == Some(id) {
        items := items[order.item := items[order.item].(status := ItemSold)];
      }
      var settled := ConflictsOnSettlement(id);
      if settled { return Ok(true); }
      var requestID := SettlementRequestID(id);
      if settlement in settlements || exists s :: s in settlements && settlements[s].requestID == requestID {
        orders, items := oldOrders, oldItems;
        return Err(ConstraintViolated);
      }
      settlements := settlements[settlement := Settlement(id, requestID, None, order.net, RecordPending)];
      return Ok(true);
    }

    method ConfirmReceived(id: Id, buyer: Id, settlement: Id, now: int) returns (res: Result<bool, MarketError>)
      requires Indexed()
      modifies this
      ensures Indexed() && Ran(Market.ConfirmReceived(old(Db()), id, buyer, settlement, now), old(Db()), Db(), res)
    {
      if id !in orders || orders[id].buyer != buyer || orders[id].status != OrderDelivered { return Err(OrderState); }
      res := CompleteOrder(id, settlement, now);
    }

    method AutoCompleteOrder(id: Id, settlement: Id, cutoff: int, now: int) returns (res: Result<bool, MarketError>)
      requires Indexed()
      modifies this
      ensures Indexed() && Ran(Market.AutoCompleteOrder(old(Db()), id, settlement, cutoff, now), old(Db()), Db(), res)
    {
      if id !in orders { return Ok(false); }
      var order := orders[id];
      if order.status != OrderDelivered || order.deliveredAt.None? || order.deliveredAt.value > cutoff { return Ok(false); }
      res := CompleteOrder(id, settlement, now);
    }

    // ---------- refunds, disputes, settlements ----------

    /** Whether the order has a pending refund. */
    method SomePendingRefund(order: Id) returns (some: bool)
      ensures some <==> HasPendingRefund(Db(), order)
    {
      if r :| r in refunds && refunds[r].order == order && refunds[r].status == RecordPending {
        assert RefundOf(refunds, r, order);
        return true;
      }
      forall r
        ensures !(RefundOf(refunds, r, order) && refunds[r].status == RecordPending)
      {}
      return false;
    }

    /** Whether an insert would conflict on the order id of an existing row. */
    method ConflictsOnRefund(order: Id) returns (taken: bool)
      ensures taken <==> HasRefund(Db(), order)
    {
      if r :| r in refunds && refunds[r].order == order {
        assert RefundOf(refunds, r, order);
        return true;
      }
      forall r
        ensures !RefundOf(refunds, r, order)
      {}
      return false;
    }

    method ConflictsOnDispute(order: Id) returns (taken: bool)
      ensures taken <==> HasDispute(Db(), order)
    {
      if d :| d in disputes && disputes[d].order == order {
        assert DisputeOf(disputes, d, order);
        return true;
      }
      forall d
        ensures !DisputeOf(disputes, d, order)
      {}
      return false;
    }

    method ConflictsOnSettlement(order: Id) returns (taken: bool)
      ensures taken <==> HasSettlement(Db(), order)
    {
      if s :| s in settlements && settlements[s].order == order {
        assert SettlementOf(settlements, s, order);
        return true;
      }
      forall s
        ensures !SettlementOf(settlements, s, order)
      {}
      return false;
    }

    method CreateRefund(id: Id, order: Id, who: Id, requestID: string) returns (res: Result<(), MarketError>)
      requires Indexed()
      modifies this
      ensures Indexed() && Ran(Market.CreateRefund(old(Db()), id, order, who, requestID), old(Db()), Db(), res)
    {
      if order !in orders || orders[order].buyer != who || orders[order].status !in {OrderPaid, OrderDelivered} {
        return Err(OrderState);
      }
      if id in refunds { return Err(RefundExists); }
      if r :| r in refunds && (refunds[r].order == order || refunds[r].requestID == requestID) {
        assert RefundOf(refunds, r, order) || RefundRequestTaken(Db(), requestID);
        return Err(RefundExists);
      }
      refunds := refunds[id := Refund(order, who, requestID, None, orders[order].price, RecordPending)];
      return Ok(());
    }

    method DecideRefund(id: Id, approved: bool, gatewayID: string, now: int) returns (res: Result<(), MarketError>)
      requires Indexed()
      modifies this
      ensures Indexed() && Ran(Market.DecideRefund(old(Db()), id, approved, gatewayID, now), old(Db()), Db(), res)
    {
      if id !in refunds || refunds[id].status != RecordPending { return Err(OrderState); }
      var refund := refunds[id];
      if refund.order !in orders { return Err(OrderState); }
      var order := orders[refund.order];
      if !approved {
        refunds := refunds[id := refund.(status := RecordRejected)];
        return Ok(());
      }
      var oldOrders, oldItems := orders, items;
      if order.status in {OrderPaid, OrderDelivered, OrderDisputed} {
        orders := orders[refund.order := order.(status := OrderRefunded, refundedAt := Some(now))];
      }
      if order.item in items {
        items := items[order.item := items[order.item].(status := ItemWithdrawn, reservedOrder := None)];
      }
      if exists r :: r in refunds && r != id && refunds[r].gatewayID == Some(gatewayID) {
        orders, items := oldOrders, oldItems;
        return Err(ConstraintViolated);
      }
      refunds := refunds[id := refund.(status := RecordSucceeded, gatewayID := Some(gatewayID))];
      return Ok(());
    }

    method CreateDispute(id: Id, order: Id, who: Id, now: int) returns (res: Result<(), MarketError>)
      requires Indexed()
      modifies this
      ensures Indexed() && Ran(Market.CreateDispute(old(Db()), id, order, who, now), old(Db()), Db(), res)
    {
      if order !in orders { return Err(OrderState); }
      var o := orders[order];
      if (o.buyer != who && o.seller != who) || o.status !in {OrderPaid, OrderDelivered} { return Err(OrderState); }
      var refunding := SomePendingRefund(order);
      if refunding { return Err(OrderState); }
      if id in disputes { return Err(DisputeExists); }
      var disputed := ConflictsOnDispute(order);
      if disputed { return Err(DisputeExists); }
      disputes := disputes[id := Dispute(order, who, o.status, DisputePending)];
      orders := orders[order := o.(status := OrderDisputed, disputedAt := Some(now))];
      return Ok(());
    }

    method ResolveDispute(id: Id, refund: bool, gatewayID: string, refundID: Id, now: int)
      returns (res: Result<(), MarketError>)
      requires Indexed()
      modifies this
      ensures Indexed()
      ensures Ran(Market.ResolveDispute(old(Db()), id, refund, gatewayID, refundID, now), old(Db()), Db(), res)
    {
      if id !in disputes || disputes[id].status != DisputePending { return Err(OrderState); }
      var d := disputes[id];
      if d.order !in orders || orders[d.order].status != OrderDisputed { return Err(OrderState); }
      var o := orders[d.order];
      var next := o.(status := d.previous);
      if refund {
        next := o.(status := OrderRefunded, refundedAt := Some(now));
        var requestID := DisputeRefundRequestID(id);
        var refunded := ConflictsOnRefund(d.order);
        if !refunded {
          if refundID in refunds || exists r :: r in refunds && refunds[r].requestID == requestID {
            return Err(ConstraintViolated);
          }
          if exists r :: r in refunds && r != refundID && refunds[r].gatewayID == Some(gatewayID) {
            return Err(ConstraintViolated);
          }
          refunds := refunds[refundID := Refund(d.order, d.raisedBy, requestID, Some(gatewayID), o.price, RecordSucceeded)];
        }
        if o.item in items {
          items := items[o.item := items[o.item].(status := ItemWithdrawn, reservedOrder := None)];
        }
      }
      orders := orders[d.order := next];
      disputes := disputes[id := d.(status := if refund then DisputeResolved else DisputeRejected)];
      return Ok(());
    }

    method UpdateSettlement(id: Id, succeeded: bool, gatewayID: string) returns (res: Result<bool, MarketError>)
      requires Indexed()
      modifies this
      ensures Indexed() && Ran(Market.UpdateSettlement(old(Db()), id, succeeded, gatewayID), old(Db()), Db(), res)
    {
      if id !in settlements || settlements[id].status !in {RecordPending, RecordFailed} { return Ok(false); }
      var row := settlements[id].(status := if succeeded then RecordSucceeded else RecordFailed);
      if gatewayID != "" {
        if exists s :: s in settlements && s != id && settlements[s].gatewayID == Some(gatewayID) {
          return Err(ConstraintViolated);
        }
        row := row.(gatewayID := Some(gatewayID));
      }
      settlements := settlements[id := row];
      return Ok(true);
    }

    // ---------- the expiry job ----------

    method ExpireOrder(id: Id, now: int) returns (res: Result<bool, MarketError>)
      requires Indexed()
      modifies this
      ensures Indexed() && Ran(Market.ExpireOrder(old(Db()), id, now), old(Db()), Db(), res)
      ensures res.Ok?
    {
      if id !in orders { return Ok(false); }
      var order := orders[id];
      if order.status != OrderPendingPayment || order.expiresAt > now { return Ok(false); }
      orders := orders[id := order.(status := OrderCancelled, cancelledAt := Some(now))];
      if order.item in items && items[order.item].reservedOrder == Some(id) {
        items := items[order.item := items[order.item].(status := ItemPublished, reservedOrder := None)];
      }
      return Ok(true);
    }

    /** The overdue orders with the smallest ids, in ascending order, at most `limit` of them. */
    method ListExpiredOrderIDs(now: int, limit: nat) returns (ids: seq<Id>)
      ensures forall k :: 0 <= k < |ids| ==> ids[k] in Overdue(Db(), now)
      ensures forall j, k :: 0 <= j < k < |ids| ==> ids[j].value < ids[k].value
      ensures |ids| == Min(limit, |Overdue(Db(), now)|)
      ensures forall k, o :: 0 <= k < |ids| && o in Overdue(Db(), now) && o !in ids ==> ids[k].value < o.value
    {
      var all := set o | o in orders && orders[o].status == OrderPendingPayment && orders[o].expiresAt <= now;
      assert all == Overdue(Db(), now);
      ids := SmallestFirst(all, limit);
    }

    /** Delivered orders past the cutoff without a pending refund, smallest ids first. */
    method ListAutoCompleteOrderIDs(cutoff: int, limit: nat) returns (ids: seq<Id>)
      ensures forall k :: 0 <= k < |ids| ==> Due(Db(), ids[k], cutoff)
      ensures forall j, k :: 0 <= j < k < |ids| ==> ids[j].value < ids[k].value
      ensures |ids| == Min(limit, |DueOrders(Db(), cutoff)|)
      ensures forall k, o :: 0 <= k < |ids| && o in DueOrders(Db(), cutoff) && o !in ids ==> ids[k].value < o.value
    {
      var held := set r | r in refunds && refunds[r].status == RecordPending :: refunds[r].order;
      var all := set o | o in orders && orders[o].status == OrderDelivered && orders[o].deliveredAt.Some?
                         && orders[o].deliveredAt.value <= cutoff && o !in held;
      DueAre(Db(), cutoff, held, all);
      ids := SmallestFirst(all, limit);
    }

    /** Settlements still to be made, in any order. */
    method ListRetrySettlementIDs(limit: nat) returns (ids: seq<Id>)
      ensures forall k :: 0 <= k < |ids| ==> ids[k] in settlements && settlements[ids[k]].status in {RecordPending, RecordFailed}
      ensures forall j, k :: 0 <= j < k < |ids| ==> ids[j] != ids[k]
      ensures |ids| == Min(limit, |set s | s in settlements && settlements[s].status in {RecordPending, RecordFailed}|)
    {
      ids := [];
      var all := set s | s in settlements && settlements[s].status in {RecordPending, RecordFailed};
      var rest := all;
      while |ids| < limit && rest != {}
        invariant rest <= all && |ids| <= limit && |ids| + |rest| == |all|
        invariant forall k :: 0 <= k < |ids| ==> ids[k] in all && ids[k] !in rest
        invariant forall j, k :: 0 <= j < k < |ids| ==> ids[j] != ids[k]
        decreases |rest|
      {
        var id :| id in rest;
        ids, rest := ids + [id], rest - {id};
      }
    }
  }

  /** An order that completes by itself. */
  ghost predicate Due(t: Tables, o: Id, cutoff: int) {
    && o in t.orders && t.orders[o].status == OrderDelivered && t.orders[o].deliveredAt.Some?
    && t.orders[o].deliveredAt.value <= cutoff && !HasPendingRefund(t, o)
  }

  ghost function DueOrders(t: Tables, cutoff: int): set<Id> {
    set o | o in t.orders && Due(t, o, cutoff)
  }

  lemma DueAre(t: Tables, cutoff: int, held: set<Id>, all: set<Id>)
    requires forall o :: o in held <==> exists r :: r in t.refunds && t.refunds[r].status == RecordPending && t.refunds[r].order == o
    requires forall o :: o in all <==> o in t.orders && t.orders[o].status == OrderDelivered && t.orders[o].deliveredAt.Some?
                                       && t.orders[o].deliveredAt.value <= cutoff && o !in held
    ensures all == DueOrders(t, cutoff)
  {
    forall o
      ensures o in held <==> HasPendingRefund(t, o)
    {
      if r :| r in t.refunds && t.refunds[r].status == RecordPending && t.refunds[r].order == o {
        assert RefundOf(t.refunds, r, o);
      }
    }
  }

  /** Order by id, up to a limit. */
  method SmallestFirst(all: set<Id>, limit: nat) returns (ids: seq<Id>)
    ensures forall k :: 0 <= k < |ids| ==> ids[k] in all
    ensures forall j, k :: 0 <= j < k < |ids| ==> ids[j].value < ids[k].value
    ensures |ids| == Min(limit, |all|)
    ensures forall k, o :: 0 <= k < |ids| && o in all && o !in ids ==> ids[k].value < o.value
  {
    ids := [];
    var rest := all;
    while |ids| < limit && rest != {}
      invariant rest <= all && |ids| <= limit
      invariant |ids| + |rest| == |all|
      invariant forall k :: 0 <= k < |ids| ==> ids[k] in all && ids[k] !in rest
      invariant forall o :: o in all && o !in rest ==> o in ids
      invariant forall j, k :: 0 <= j < k < |ids| ==> ids[j].value < ids[k].value
      invariant forall k, o :: 0 <= k < |ids| && o in rest ==> ids[k].value < o.value
      decreases rest
    {
      var id := Smallest(rest);
      ids := ids + [id];
      rest := rest - {id};
    }
  }

  method Smallest(ids: set<Id>) returns (m: Id)
    requires ids != {}
    ensures m in ids && forall o :: o in ids && o != m ==> m.value < o.value
  {
    m :| m in ids;
    var rest := ids - {m};
    while rest != {}
      invariant m in ids && rest <= ids && m !in rest
      invariant forall o :: o in ids && o !in rest && o != m ==> m.value < o.value
      decreases rest
    {
      var o :| o in rest;
      rest := rest - {o};
      if o.value < m.value { m := o; }
    }
  }
}
