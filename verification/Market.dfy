/** The marketplace tables and what each database transaction does to them, as functions
    from one state of the tables to the next.  `MarketRepository` runs the transactions
    statement by statement and is proved against these functions. */
module Market {
  import opened Support
  import opened Commission

  datatype ItemStatus = ItemDraft | ItemPublished | ItemReserved | ItemSold | ItemWithdrawn | ItemHidden

  datatype OrderStatus =
    | OrderPendingPayment | OrderPaid | OrderDelivered | OrderCompleted
    | OrderCancelled | OrderRefunded | OrderDisputed

  datatype RecordStatus = RecordPending | RecordSucceeded | RecordRejected | RecordFailed

  datatype DisputeStatus = DisputePending | DisputeResolved | DisputeRejected

  datatype Category = Category(rateBps: int, active: bool)

  datatype Item = Item(seller: Id, category: Id, price: int, status: ItemStatus, reservedOrder: Option<Id>)

  datatype Order = Order(
    item: Id, buyer: Id, seller: Id, status: OrderStatus,
    price: int, rateBps: int, fee: int, net: int,
    expiresAt: int, paidAt: Option<int>, deliveredAt: Option<int>, completedAt: Option<int>,
    cancelledAt: Option<int>, refundedAt: Option<int>, disputedAt: Option<int>)

  datatype Payment = Payment(
    order: Id, requestID: string, gatewayTx: Option<string>, amount: int, status: RecordStatus)

  datatype Refund = Refund(
    order: Id, requestedBy: Id, requestID: string, gatewayID: Option<string>, amount: int, status: RecordStatus)

  datatype Dispute = Dispute(order: Id, raisedBy: Id, previous: OrderStatus, status: DisputeStatus)

  datatype Settlement = Settlement(
    order: Id, requestID: string, gatewayID: Option<string>, amount: int, status: RecordStatus)

  datatype Tables = Tables(
    categories: map<Id, Category>,
    items: map<Id, Item>,
    orders: map<Id, Order>,
    payments: map<Id, Payment>,
    refunds: map<Id, Refund>,
    disputes: map<Id, Dispute>,
    settlements: map<Id, Settlement>)

  const EMPTY := Tables(map[], map[], map[], map[], map[], map[], map[])

  datatype MarketError =
    | ItemUnavailable | OwnItem | OrderState | RefundExists | DisputeExists
    | NotFound | BadRequest | ConstraintViolated | GatewayFailed

  /** The outcome of one transaction: the committed tables and a value for the caller, or a
      rollback with an error. */
  datatype Tx<+R> = Commit(db: Tables, value: R) | Abort(error: MarketError)
  {
    function After(before: Tables): Tables {
      if Commit? then db else before
    }
  }

  /** Milliseconds: an unpaid order holds its item for fifteen minutes, a delivered one
      completes by itself after forty-eight hours. */
  const PAYMENT_WINDOW: int := 15 * 60 * 1000
  const AUTO_COMPLETE_DELAY: int := 48 * 60 * 60 * 1000

  const SWEEP_LIMIT: nat := 100

  predicate Live(s: OrderStatus) {
    s in {OrderPendingPayment, OrderPaid, OrderDelivered, OrderDisputed}
  }

  predicate Held(s: OrderStatus) {
    s in {OrderPaid, OrderDelivered, OrderDisputed}
  }

  /** Statuses only reachable through a successful payment. */
  predicate PastPayment(s: OrderStatus) {
    Held(s) || s == OrderCompleted || s == OrderRefunded
  }

  function SettlementRequestID(order: Id): string {
    "settlement:" + Decimal(order)
  }

  function DisputeRefundRequestID(dispute: Id): string {
    "dispute-refund:" + Decimal(dispute)
  }

  // ---------- which transactions write which tables ----------

  ghost predicate LeavesRecords(t: Tables, t': Tables) {
    t'.payments == t.payments && t'.refunds == t.refunds && t'.disputes == t.disputes && t'.settlements == t.settlements
  }

  ghost predicate WritesPaymentsOnly(t: Tables, t': Tables) {
    t'.items == t.items && t'.refunds == t.refunds && t'.disputes == t.disputes && t'.settlements == t.settlements
  }

  ghost predicate WritesSettlementsOnly(t: Tables, t': Tables) {
    t'.payments == t.payments && t'.refunds == t.refunds && t'.disputes == t.disputes
  }

  ghost predicate WritesResolutionsOnly(t: Tables, t': Tables) {
    t'.payments == t.payments && t'.settlements == t.settlements
  }

  // ---------- row lookups ----------

  ghost predicate RefundOf(refunds: map<Id, Refund>, r: Id, order: Id) {
    r in refunds && refunds[r].order == order
  }

  ghost predicate DisputeOf(disputes: map<Id, Dispute>, d: Id, order: Id) {
    d in disputes && disputes[d].order == order
  }

  ghost predicate SettlementOf(settlements: map<Id, Settlement>, s: Id, order: Id) {
    s in settlements && settlements[s].order == order
  }

  ghost predicate HasRefund(t: Tables, order: Id) {
    exists r :: RefundOf(t.refunds, r, order)
  }

  ghost predicate HasPendingRefund(t: Tables, order: Id) {
    exists r :: RefundOf(t.refunds, r, order) && t.refunds[r].status == RecordPending
  }

  ghost predicate HasDispute(t: Tables, order: Id) {
    exists d :: DisputeOf(t.disputes, d, order)
  }

  ghost predicate HasSettlement(t: Tables, order: Id) {
    exists s :: SettlementOf(t.settlements, s, order)
  }

  ghost predicate PaymentRequestTaken(t: Tables, requestID: string) {
    exists p :: p in t.payments && t.payments[p].requestID == requestID
  }

  ghost predicate RefundRequestTaken(t: Tables, requestID: string) {
    exists r :: r in t.refunds && t.refunds[r].requestID == requestID
  }

  ghost predicate SettlementRequestTaken(t: Tables, requestID: string) {
    exists s :: s in t.settlements && t.settlements[s].requestID == requestID
  }

  /** Another payment already carries this gateway transaction id. */
  ghost predicate TransactionTaken(t: Tables, tx: string, who: Id) {
    exists p :: p in t.payments && p != who && t.payments[p].gatewayTx == Some(tx)
  }

  ghost predicate GatewayRefundTaken(t: Tables, gatewayID: string, who: Id) {
    exists r :: r in t.refunds && r != who && t.refunds[r].gatewayID == Some(gatewayID)
  }

  ghost predicate GatewaySettlementTaken(t: Tables, gatewayID: string, who: Id) {
    exists s :: s in t.settlements && s != who && t.settlements[s].gatewayID == Some(gatewayID)
  }

  /** The payment with a request id; the column is unique. */
  ghost function PaymentByRequest(t: Tables, requestID: string): (p: Id)
    requires PaymentRequestTaken(t, requestID)
    ensures p in t.payments && t.payments[p].requestID == requestID
  {
    var p :| p in t.payments && t.payments[p].requestID == requestID;
    p
  }

  // ---------- row updates shared by several transactions ----------

  /** Give a reserved item back to the shop, if it still points at this order. */
  function Release(items: map<Id, Item>, item: Id, order: Id): map<Id, Item> {
    if item in items && items[item].reservedOrder == Some(order)
    then items[item := items[item].(status := ItemPublished, reservedOrder := None)]
    else items
  }

  /** Take an item off the shop after its money went back. */
  function Retire(items: map<Id, Item>, item: Id): map<Id, Item> {
    if item in items
    then items[item := items[item].(status := ItemWithdrawn, reservedOrder := None)]
    else items
  }

  function MarkSold(items: map<Id, Item>, item: Id, order: Id): map<Id, Item> {
    if item in items && items[item].reservedOrder == Some(order)
    then items[item := items[item].(status := ItemSold)]
    else items
  }

  // ---------- categories and items ----------

  ghost function SaveCategory(t: Tables, id: Id, c: Category): (r: Tx<()>)
    ensures LeavesRecords(t, r.After(t))
  {
    if !ValidRate(c.rateBps) then Abort(BadRequest)
    else Commit(t.(categories := t.categories[id := c]), ())
  }

  ghost function CreateItem(t: Tables, id: Id, seller: Id, category: Id, price: int, published: bool): (r: Tx<()>)
    ensures LeavesRecords(t, r.After(t))
  {
    if !ValidPrice(price) then Abort(BadRequest)
    else if category !in t.categories then Abort(NotFound)
    else if id in t.items then Abort(ConstraintViolated)
    else
      var status := if published then ItemPublished else ItemDraft;
      Commit(t.(items := t.items[id := Item(seller, category, price, status, None)]), ())
  }

  /** `status` is whatever the service writes: the requested one, or the one it read some time
      before, which may be stale. */
  ghost function UpdateItem(t: Tables, id: Id, owner: Id, category: Id, price: int, status: ItemStatus): (r: Tx<bool>)
    ensures LeavesRecords(t, r.After(t))
  {
    if !ValidPrice(price) then Abort(BadRequest)
    else if category !in t.categories then Abort(NotFound)
    else if id in t.items && t.items[id].seller == owner && t.items[id].status in {ItemDraft, ItemPublished}
    then Commit(t.(items := t.items[id := t.items[id].(category := category, price := price, status := status)]), true)
    else Commit(t, false)
  }

  ghost function WithdrawItem(t: Tables, id: Id, owner: Id): (r: Tx<bool>)
    ensures LeavesRecords(t, r.After(t))
  {
    if id in t.items && t.items[id].seller == owner && t.items[id].status in {ItemDraft, ItemPublished, ItemHidden}
    then Commit(t.(items := t.items[id := t.items[id].(status := ItemWithdrawn)]), true)
    else Commit(t, false)
  }

  ghost function HideItem(t: Tables, id: Id, now: int): (r: Tx<Option<Id>>)
    ensures LeavesRecords(t, r.After(t))
  {
    if id !in t.items then Abort(NotFound) else
      var hidden := t.items[id := t.items[id].(status := ItemHidden, reservedOrder := None)];
      match t.items[id].reservedOrder
      case Some(o) =>
        if t.items[id].status == ItemReserved && o in t.orders && t.orders[o].status == OrderPendingPayment then
          Commit(t.(items := hidden,
                    orders := t.orders[o := t.orders[o].(status := OrderCancelled, cancelledAt := Some(now))]), Some(o))
        else Commit(t.(items := hidden), None)
      case None => Commit(t.(items := hidden), None)
  }

  // ---------- orders and payments ----------

  ghost function CreateOrder(t: Tables, id: Id, itemID: Id, buyer: Id, now: int): (r: Tx<()>)
    ensures LeavesRecords(t, r.After(t))
  {
    if itemID !in t.items then Abort(ItemUnavailable) else
      var item := t.items[itemID];
      if item.status != ItemPublished || item.reservedOrder.Some? then Abort(ItemUnavailable)
      else if item.seller == buyer then Abort(OwnItem)
      else if item.category !in t.categories || !t.categories[item.category].active then Abort(ItemUnavailable)
      else if id in t.orders then Abort(ConstraintViolated)
      else
        var rate := t.categories[item.category].rateBps;
        var fee := CommissionFee(item.price, rate);
        var order := Order(itemID, buyer, item.seller, OrderPendingPayment, item.price, rate, fee, item.price - fee,
                           now + PAYMENT_WINDOW, None, None, None, None, None, None);
        Commit(t.(items := t.items[itemID := item.(status := ItemReserved, reservedOrder := Some(id))],
                  orders := t.orders[id := order]), ())
  }

  /** `true` when a new payment row was written, `false` when the request was seen before. */
  ghost function CreateOrFindPayment(t: Tables, id: Id, order: Id, requestID: string, amount: int, now: int): (r: Tx<bool>)
    ensures WritesPaymentsOnly(t, r.After(t))
  {
    if order !in t.orders then Abort(OrderState)
    else if t.orders[order].status != OrderPendingPayment || now >= t.orders[order].expiresAt then Abort(OrderState)
    else if PaymentRequestTaken(t, requestID) then
      var p := t.payments[PaymentByRequest(t, requestID)];
      if p.order != order || p.amount != amount then Abort(OrderState) else Commit(t, false)
    else if id in t.payments then Abort(ConstraintViolated)
    else Commit(t.(payments := t.payments[id := Payment(order, requestID, None, amount, RecordPending)]), true)
  }

  /** The service reads the order, and asks for exactly its price. */
  ghost function StartPayment(t: Tables, caller: Id, id: Id, order: Id, requestID: string, now: int): (r: Tx<bool>)
    ensures WritesPaymentsOnly(t, r.After(t))
  {
    if order !in t.orders || t.orders[order].buyer != caller then Abort(NotFound)
    else if requestID == "" then Abort(BadRequest)
    else CreateOrFindPayment(t, id, order, requestID, t.orders[order].price, now)
  }

  ghost function AttachPaymentTransaction(t: Tables, id: Id, tx: string): (r: Tx<()>)
    ensures WritesPaymentsOnly(t, r.After(t))
  {
    if id !in t.payments || (t.payments[id].gatewayTx.Some? && t.payments[id].gatewayTx != Some(tx)) then Abort(OrderState)
    else if TransactionTaken(t, tx, id) then Abort(ConstraintViolated)
    else Commit(t.(payments := t.payments[id := t.payments[id].(gatewayTx := Some(tx))]), ())
  }

  ghost function ApplyPaymentCallback(t: Tables, requestID: string, tx: string, amount: int, now: int): (r: Tx<bool>)
    ensures WritesPaymentsOnly(t, r.After(t))
  {
    if !PaymentRequestTaken(t, requestID) then Abort(OrderState) else
      var id := PaymentByRequest(t, requestID);
      var p := t.payments[id];
      if p.amount != amount || (p.gatewayTx.Some? && p.gatewayTx != Some(tx)) then Abort(OrderState)
      else if p.order !in t.orders then Abort(OrderState)
      else if p.status == RecordSucceeded then Commit(t, false)
      else
        var o := t.orders[p.order];
        if o.status != OrderPendingPayment || now >= o.expiresAt then Abort(OrderState)
        else if p.status == RecordPending && TransactionTaken(t, tx, id) then Abort(OrderState)
        else
          var payments := if p.status == RecordPending
            then t.payments[id := p.(gatewayTx := Some(tx), status := RecordSucceeded)] else t.payments;
          Commit(t.(payments := payments,
                    orders := t.orders[p.order := o.(status := OrderPaid, paidAt := Some(now))]), true)
  }

  ghost function CancelOrder(t: Tables, id: Id, buyer: Id, now: int): (r: Tx<()>)
    ensures LeavesRecords(t, r.After(t))
  {
    if id !in t.orders || t.orders[id].buyer != buyer || t.orders[id].status != OrderPendingPayment then Abort(OrderState)
    else Commit(t.(orders := t.orders[id := t.orders[id].(status := OrderCancelled, cancelledAt := Some(now))],
                   items := Release(t.items, t.orders[id].item, id)), ())
  }

  /** `false` when there was nothing to expire. */
  ghost function ExpireOrder(t: Tables, id: Id, now: int): (r: Tx<bool>)
    ensures LeavesRecords(t, r.After(t))
  {
    if id !in t.orders || t.orders[id].status != OrderPendingPayment || t.orders[id].expiresAt > now then Commit(t, false)
    else Commit(t.(orders := t.orders[id := t.orders[id].(status := OrderCancelled, cancelledAt := Some(now))],
                   items := Release(t.items, t.orders[id].item, id)), true)
  }

  ghost function MarkDelivered(t: Tables, id: Id, seller: Id, now: int): (r: Tx<()>)
    ensures LeavesRecords(t, r.After(t))
  {
    if id !in t.orders || t.orders[id].seller != seller || t.orders[id].status != OrderPaid then Abort(OrderState)
    else Commit(t.(orders := t.orders[id := t.orders[id].(status := OrderDelivered, deliveredAt := Some(now))]), ())
  }

  /** The common end of ConfirmReceived and AutoCompleteOrder: the settlement row is inserted
      unless its order already has one. */
  ghost function CompleteOrder(t: Tables, id: Id, settlement: Id, now: int): (r: Tx<bool>)
    requires id in t.orders
    ensures WritesSettlementsOnly(t, r.After(t))
  {
    var o := t.orders[id];
    if HasPendingRefund(t, id) || o.status != OrderDelivered then Abort(OrderState) else
      var completed := t.(orders := t.orders[id := o.(status := OrderCompleted, completedAt := Some(now))],
                          items := MarkSold(t.items, o.item, id));
      if HasSettlement(t, id) then Commit(completed, true)
      else if settlement in t.settlements || SettlementRequestTaken(t, SettlementRequestID(id)) then Abort(ConstraintViolated)
      else
        var row := Settlement(id, SettlementRequestID(id), None, o.net, RecordPending);
        Commit(completed.(settlements := t.settlements[settlement := row]), true)
  }

  ghost function ConfirmReceived(t: Tables, id: Id, buyer: Id, settlement: Id, now: int): (r: Tx<bool>)
    ensures WritesSettlementsOnly(t, r.After(t))
  {
    if id !in t.orders || t.orders[id].buyer != buyer || t.orders[id].status != OrderDelivered then Abort(OrderState)
    else CompleteOrder(t, id, settlement, now)
  }

  ghost function AutoCompleteOrder(t: Tables, id: Id, settlement: Id, cutoff: int, now: int): (r: Tx<bool>)
    ensures WritesSettlementsOnly(t, r.After(t))
  {
    if id !in t.orders || t.orders[id].status != OrderDelivered || t.orders[id].deliveredAt.None?
       || t.orders[id].deliveredAt.value > cutoff then Commit(t, false)
    else CompleteOrder(t, id, settlement, now)
  }

  // ---------- refunds, disputes, settlements ----------

  ghost function CreateRefund(t: Tables, id: Id, order: Id, who: Id, requestID: string): (r: Tx<()>)
    ensures WritesResolutionsOnly(t, r.After(t))
  {
    if order !in t.orders || t.orders[order].buyer != who || t.orders[order].status !in {OrderPaid, OrderDelivered}
    then Abort(OrderState)
    else if id in t.refunds || HasRefund(t, order) || RefundRequestTaken(t, requestID) then Abort(RefundExists)
    else
      var row := Refund(order, who, requestID, None, t.orders[order].price, RecordPending);
      Commit(t.(refunds := t.refunds[id := row]), ())
  }

  /** The order update is guarded by a status list but its row count is not checked. */
  ghost function DecideRefund(t: Tables, id: Id, approved: bool, gatewayID: string, now: int): (r: Tx<()>)
    ensures WritesResolutionsOnly(t, r.After(t))
  {
    if id !in t.refunds || t.refunds[id].status != RecordPending || t.refunds[id].order !in t.orders then Abort(OrderState)
    else if !approved then
      Commit(t.(refunds := t.refunds[id := t.refunds[id].(status := RecordRejected)]), ())
    else if GatewayRefundTaken(t, gatewayID, id) then Abort(ConstraintViolated)
    else
      var oid := t.refunds[id].order;
      var o := t.orders[oid];
      var orders := if Held(o.status)
        then t.orders[oid := o.(status := OrderRefunded, refundedAt := Some(now))] else t.orders;
      Commit(t.(orders := orders, items := Retire(t.items, o.item),
                refunds := t.refunds[id := t.refunds[id].(status := RecordSucceeded, gatewayID := Some(gatewayID))]), ())
  }

  ghost function CreateDispute(t: Tables, id: Id, order: Id, who: Id, now: int): (r: Tx<()>)
    ensures WritesResolutionsOnly(t, r.After(t))
  {
    if order !in t.orders then Abort(OrderState) else
      var o := t.orders[order];
      if (o.buyer != who && o.seller != who) || o.status !in {OrderPaid, OrderDelivered} then Abort(OrderState)
      else if HasPendingRefund(t, order) then Abort(OrderState)
      else if id in t.disputes || HasDispute(t, order) then Abort(DisputeExists)
      else Commit(t.(disputes := t.disputes[id := Dispute(order, who, o.status, DisputePending)],
                     orders := t.orders[order := o.(status := OrderDisputed, disputedAt := Some(now))]), ())
  }

  /** `refund` says whether the action is "refund" (otherwise the order resumes).  The refund row
      is skipped when the order already has one. */
  ghost function ResolveDispute(t: Tables, id: Id, refund: bool, gatewayID: string, refundID: Id, now: int): (r: Tx<()>)
    ensures WritesResolutionsOnly(t, r.After(t))
  {
    if id !in t.disputes || t.disputes[id].status != DisputePending then Abort(OrderState) else
      var d := t.disputes[id];
      if d.order !in t.orders || t.orders[d.order].status != OrderDisputed then Abort(OrderState) else
        var o := t.orders[d.order];
        if !refund then
          Commit(t.(orders := t.orders[d.order := o.(status := d.previous)],
                    disputes := t.disputes[id := d.(status := DisputeRejected)]), ())
        else
          var refunded := t.(orders := t.orders[d.order := o.(status := OrderRefunded, refundedAt := Some(now))],
                             items := Retire(t.items, o.item),
                             disputes := t.disputes[id := d.(status := DisputeResolved)]);
          if HasRefund(t, d.order) then Commit(refunded, ())
          else if refundID in t.refunds || RefundRequestTaken(t, DisputeRefundRequestID(id))
               || GatewayRefundTaken(t, gatewayID, refundID) then Abort(ConstraintViolated)
          else
            var row := Refund(d.order, d.raisedBy, DisputeRefundRequestID(id), Some(gatewayID), o.price, RecordSucceeded);
            Commit(refunded.(refunds := t.refunds[refundID := row]), ())
  }

  ghost function UpdateSettlement(t: Tables, id: Id, succeeded: bool, gatewayID: string): (r: Tx<bool>)
    ensures WritesSettlementsOnly(t, r.After(t))
  {
    if id !in t.settlements || t.settlements[id].status !in {RecordPending, RecordFailed} then Commit(t, false)
    else if gatewayID != "" && GatewaySettlementTaken(t, gatewayID, id) then Abort(ConstraintViolated)
    else
      var s := t.settlements[id];
      var row := s.(status := if succeeded then RecordSucceeded else RecordFailed,
                    gatewayID := if gatewayID != "" then Some(gatewayID) else s.gatewayID);
      Commit(t.(settlements := t.settlements[id := row]), true)
  }

  // ---------- runs ----------

  /** One committed or rolled back transaction, with everything the caller supplies. */
  datatype Op =
    | DoSaveCategory(id: Id, category: Category)
    | DoCreateItem(id: Id, seller: Id, inCategory: Id, price: int, published: bool)
    | DoUpdateItem(id: Id, owner: Id, inCategory: Id, price: int, status: ItemStatus)
    | DoWithdrawItem(id: Id, owner: Id)
    | DoHideItem(id: Id, now: int)
    | DoCreateOrder(id: Id, item: Id, buyer: Id, now: int)
    | DoStartPayment(caller: Id, id: Id, order: Id, requestID: string, now: int)
    | DoAttachTransaction(id: Id, tx: string)
    | DoPaymentCallback(requestID: string, tx: string, amount: int, now: int)
    | DoCancelOrder(id: Id, buyer: Id, now: int)
    | DoExpireOrder(id: Id, now: int)
    | DoMarkDelivered(id: Id, seller: Id, now: int)
    | DoConfirmReceived(id: Id, buyer: Id, settlement: Id, now: int)
    | DoAutoComplete(id: Id, settlement: Id, cutoff: int, now: int)
    | DoCreateRefund(id: Id, order: Id, who: Id, requestID: string)
    | DoDecideRefund(id: Id, approved: bool, gatewayID: string, now: int)
    | DoCreateDispute(id: Id, order: Id, who: Id, now: int)
    | DoResolveDispute(id: Id, refund: bool, gatewayID: string, refundID: Id, now: int)
    | DoUpdateSettlement(id: Id, succeeded: bool, gatewayID: string)

  ghost function Apply(t: Tables, op: Op): Tables {
    match op
    case DoSaveCategory(id, c) => SaveCategory(t, id, c).After(t)
    case DoCreateItem(id, seller, c, price, published) => CreateItem(t, id, seller, c, price, published).After(t)
    case DoUpdateItem(id, owner, c, price, status) => UpdateItem(t, id, owner, c, price, status).After(t)
    case DoWithdrawItem(id, owner) => WithdrawItem(t, id, owner).After(t)
    case DoHideItem(id, now) => HideItem(t, id, now).After(t)
    case DoCreateOrder(id, item, buyer, now) => CreateOrder(t, id, item, buyer, now).After(t)
    case DoStartPayment(caller, id, order, requestID, now) => StartPayment(t, caller, id, order, requestID, now).After(t)
    case DoAttachTransaction(id, tx) => AttachPaymentTransaction(t, id, tx).After(t)
    case DoPaymentCallback(requestID, tx, amount, now) => ApplyPaymentCallback(t, requestID, tx, amount, now).After(t)
    case DoCancelOrder(id, buyer, now) => CancelOrder(t, id, buyer, now).After(t)
    case DoExpireOrder(id, now) => ExpireOrder(t, id, now).After(t)
    case DoMarkDelivered(id, seller, now) => MarkDelivered(t, id, seller, now).After(t)
    case DoConfirmReceived(id, buyer, settlement, now) => ConfirmReceived(t, id, buyer, settlement, now).After(t)
    case DoAutoComplete(id, settlement, cutoff, now) => AutoCompleteOrder(t, id, settlement, cutoff, now).After(t)
    case DoCreateRefund(id, order, who, requestID) => CreateRefund(t, id, order, who, requestID).After(t)
    case DoDecideRefund(id, approved, gatewayID, now) => DecideRefund(t, id, approved, gatewayID, now).After(t)
    case DoCreateDispute(id, order, who, now) => CreateDispute(t, id, order, who, now).After(t)
    case DoResolveDispute(id, refund, gatewayID, refundID, now) =>
      ResolveDispute(t, id, refund, gatewayID, refundID, now).After(t)
    case DoUpdateSettlement(id, succeeded, gatewayID) => UpdateSettlement(t, id, succeeded, gatewayID).After(t)
  }

  /** The state after a run of transactions, in commit order. */
  ghost function Run(t: Tables, ops: seq<Op>): Tables
    decreases |ops|
  {
    if ops == [] then t else Apply(Run(t, ops[..|ops| - 1]), ops[|ops| - 1])
  }
}
