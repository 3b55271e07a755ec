/** The marketplace service: what users, moderators and the scheduler call.  Each call runs repository
    transactions and gateway calls; the invariant holds before and after every one of them, and each
    contract says what the caller may rely on because of it. */
module MarketService {
  import opened Support
  import opened Market
  import opened MarketInvariant
  import opened MarketSweep
  import opened MarketResolution
  import opened MarketRepository
  import opened MarketReference

  class Service {
    const repo: Repository

    ghost function Db(): Tables
      reads repo
    {
      repo.Db()
    }

    /** The invariant that every run of transactions keeps. */
    ghost predicate Valid()
      reads repo
    {
      Inv(repo.Db())
    }

    constructor ()
      ensures Valid() && fresh(repo) && Db() == EMPTY
    {
      repo := new Repository();
      new;
      EveryRunIsSafe([]);
    }

    // ---------- the shop ----------

    method SaveCategory(id: Id, category: Category) returns (res: Result<(), MarketError>)
      requires Valid()
      modifies repo
      ensures Valid() && Ran(Market.SaveCategory(old(Db()), id, category), old(Db()), Db(), res)
    {
      ghost var next := Apply(Db(), DoSaveCategory(id, category));
      SaveCategoryKeeps(Db(), DoSaveCategory(id, category));
      res := repo.SaveCategory(id, category);
      assert Db() == next;
    }

    method CreateItem(id: Id, seller: Id, category: Id, price: int, published: bool) returns (res: Result<(), MarketError>)
      requires Valid()
      modifies repo
      ensures Valid() && Ran(Market.CreateItem(old(Db()), id, seller, category, price, published), old(Db()), Db(), res)
    {
      ghost var next := Apply(Db(), DoCreateItem(id, seller, category, price, published));
      CreateItemKeeps(Db(), DoCreateItem(id, seller, category, price, published));
      res := repo.CreateItem(id, seller, category, price, published);
      assert Db() == next;
    }

    /** The status written back is the requested one, or the one read first if none is requested. */
    method UpdateItem(id: Id, owner: Id, category: Id, price: int, requested: Option<ItemStatus>)
      returns (res: Result<bool, MarketError>)
      requires Valid()
      modifies repo
      ensures Valid()
      ensures if id !in old(repo.items) || old(repo.items)[id].seller != owner then res == Err(NotFound) && Db() == old(Db())
              else Ran(Market.UpdateItem(old(Db()), id, owner, category, price,
                                         if requested.Some? then requested.value else old(repo.items)[id].status),
                       old(Db()), Db(), res)
    {
      if id !in repo.items || repo.items[id].seller != owner { return Err(NotFound); }
      var status := if requested.Some? then requested.value else repo.items[id].status;
      ghost var next := Apply(Db(), DoUpdateItem(id, owner, category, price, status));
      UpdateItemKeeps(Db(), DoUpdateItem(id, owner, category, price, status));
      res := repo.UpdateItem(id, owner, category, price, status);
      assert Db() == next;
    }

    method WithdrawItem(id: Id, owner: Id) returns (res: Result<bool, MarketError>)
      requires Valid()
      modifies repo
      ensures Valid() && Ran(Market.WithdrawItem(old(Db()), id, owner), old(Db()), Db(), res)
    {
      ghost var next := Apply(Db(), DoWithdrawItem(id, owner));
      WithdrawItemKeeps(Db(), DoWithdrawItem(id, owner));
      res := repo.WithdrawItem(id, owner);
      assert Db() == next;
    }

    /** Whatever order the item had, it is off the shop and points at none; a paid order goes on. */
    method HideItem(id: Id, now: int) returns (res: Result<Option<Id>, MarketError>)
      requires Valid()
      modifies repo
      ensures Valid() && Ran(Market.HideItem(old(Db()), id, now), old(Db()), Db(), res)
      ensures res.Ok? ==> OffShop(old(Db()), Db(), id)
    {
      ghost var next := Apply(Db(), DoHideItem(id, now));
      HideItemKeeps(Db(), DoHideItem(id, now));
      HideDetaches(Db(), id, now);
      res := repo.HideItem(id, now);
      assert Db() == next;
    }

    // ---------- orders ----------

    /** The item is reserved for the new order, which awaits payment on the terms of the moment: the item's
        price and seller, the category's rate.  The answer tells an unavailable item from one's own. */
    method CreateOrder(id: Id, item: Id, buyer: Id, now: int) returns (res: Result<(), MarketError>)
      requires Valid()
      modifies repo
      ensures Valid() && Ran(Market.CreateOrder(old(Db()), id, item, buyer, now), old(Db()), Db(), res)
      ensures OrderAnswer(old(Db()), id, item, buyer, res)
      ensures res.Ok? ==> Placed(old(Db()), Db(), id, item, buyer, now)
    {
      ghost var next := Apply(Db(), DoCreateOrder(id, item, buyer, now));
      CreateOrderKeeps(Db(), DoCreateOrder(id, item, buyer, now));
      OrderIsPlaced(Db(), id, item, buyer, now);
      res := repo.CreateOrder(id, item, buyer, now);
      assert Db() == next;
    }

    /** Read the order, and ask for its price. */
    method RequestPayment(caller: Id, id: Id, order: Id, requestID: string, now: int) returns (res: Result<bool, MarketError>)
      requires Valid()
      modifies repo
      ensures Valid() && Db() == Apply(old(Db()), DoStartPayment(caller, id, order, requestID, now))
      ensures res.Ok? ==> Asked(Db(), order, requestID)
      ensures res.Ok? <==> MayAsk(old(Db()), caller, id, order, requestID, now)
      ensures Db() == old(Db()).(payments := repo.payments)
    {
      if order !in repo.orders || repo.orders[order].buyer != caller { return Err(NotFound); }
      if requestID == "" { return Err(BadRequest); }
      ghost var next := Apply(Db(), DoStartPayment(caller, id, order, requestID, now));
      StartPaymentKeeps(Db(), DoStartPayment(caller, id, order, requestID, now));
      PaymentIsAsked(Db(), caller, id, order, requestID, now);
      AskingIff(Db(), caller, id, order, requestID, now);
      StartPaymentEffect(Db(), DoStartPayment(caller, id, order, requestID, now));
      res := repo.CreateOrFindPayment(id, order, requestID, repo.orders[order].price, now);
      assert Db() == next;
    }

    method AttachTransaction(p: Id, tx: string) returns (res: Result<(), MarketError>)
      requires Valid()
      modifies repo
      ensures Valid() && (if res.Ok? then Attached(old(Db()), Db(), p, tx) else Db() == old(Db()))
      ensures res.Ok? <==> FitsTransaction(old(Db()), p, tx)
    {
      ghost var next := Apply(Db(), DoAttachTransaction(p, tx));
      AttachTransactionKeeps(Db(), DoAttachTransaction(p, tx));
      AttachmentAttaches(Db(), p, tx);
      res := repo.AttachPaymentTransaction(p, tx);
      assert Db() == next;
    }

    /** A payment without a gateway transaction gets the one the gateway created, if it did. */
    method AttachMissing(p: Id, gateway: Option<string>) returns (res: Result<Id, MarketError>)
      requires Valid() && p in repo.payments
      modifies repo
      ensures Valid() && (Db() == old(Db()) || (gateway.Some? && Attached(old(Db()), Db(), p, gateway.value)))
      ensures res.Ok? ==> res.value == p && p in repo.payments && repo.payments[p].gatewayTx.Some?
      ensures res.Ok? <==> Attachable(old(Db()), p, gateway)
    {
      if repo.payments[p].gatewayTx.Some? { return Ok(p); }
      if gateway.None? { return Err(GatewayFailed); }
      var attached := AttachTransaction(p, gateway.value);
      if attached.Err? { return Err(attached.error); }
      return Ok(p);
    }

    /** The whole call: request a payment; if it has no gateway transaction yet, create one at the
        gateway (`gateway` is its answer) and attach it.  Success means that the one payment with this
        request id is for this order and its price and carries a transaction. */
    method StartPayment(caller: Id, id: Id, order: Id, requestID: string, gateway: Option<string>, now: int)
      returns (res: Result<Id, MarketError>)
      requires Valid()
      modifies repo
      ensures Valid()
      ensures res.Ok? ==> Requested(Db(), res.value, order, requestID)
      ensures res.Ok? <==>
        && MayAsk(old(Db()), caller, id, order, requestID, now)
        && ReadyToPay(Apply(old(Db()), DoStartPayment(caller, id, order, requestID, now)), requestID, gateway)
      ensures Db() == old(Db()).(payments := repo.payments)
    {
      var asked := RequestPayment(caller, id, order, requestID, now);
      if asked.Err? { return Err(asked.error); }
      var p := repo.FindPayment(requestID);
      if p.None? { return Err(NotFound); }
      assert AskedBy(Db(), p.value, order);
      ReadyIff(Db(), p.value, requestID, gateway);
      res := AttachMissing(p.value, gateway);
    }

    /** Once the callback succeeded, its payment has succeeded and its order is past payment, at the
        order's price; a repeated callback changes nothing. */
    method PaymentCallback(requestID: string, tx: string, amount: int, now: int) returns (res: Result<bool, MarketError>)
      requires Valid()
      modifies repo
      ensures Valid() && Ran(Market.ApplyPaymentCallback(old(Db()), requestID, tx, amount, now), old(Db()), Db(), res)
      ensures res.Ok? ==> Paid(Db(), requestID, amount)
      ensures res == Ok(false) ==> Db() == old(Db())
      ensures res == Ok(true) <==> Chargeable(old(Db()), requestID, tx, amount, now)
    {
      ghost var next := Apply(Db(), DoPaymentCallback(requestID, tx, amount, now));
      PaymentCallbackKeeps(Db(), DoPaymentCallback(requestID, tx, amount, now));
      CallbackPays(Db(), requestID, tx, amount, now);
      CallbackIff(Db(), requestID, tx, amount, now);
      res := repo.ApplyPaymentCallback(requestID, tx, amount, now);
      assert Db() == next;
    }

    /** A cancelled order gives its item back to the shop. */
    method CancelOrder(id: Id, buyer: Id, now: int) returns (res: Result<(), MarketError>)
      requires Valid()
      modifies repo
      ensures Valid() && Ran(Market.CancelOrder(old(Db()), id, buyer, now), old(Db()), Db(), res)
      ensures res.Ok? ==> BackInShop(old(Db()), Db(), id)
      ensures res.Ok? <==> CancelsBy(old(Db()), DoCancelOrder(id, buyer, now), id)
    {
      ghost var next := Apply(Db(), DoCancelOrder(id, buyer, now));
      CancelOrderKeeps(Db(), DoCancelOrder(id, buyer, now));
      CancelFrees(Db(), id, buyer, now);
      res := repo.CancelOrder(id, buyer, now);
      assert Db() == next;
    }

    /** The seller of a paid order delivers it; nobody else does, and no other order. */
    method MarkDelivered(id: Id, seller: Id, now: int) returns (res: Result<(), MarketError>)
      requires Valid()
      modifies repo
      ensures Valid() && Ran(Market.MarkDelivered(old(Db()), id, seller, now), old(Db()), Db(), res)
      ensures res.Ok? <==> old(id in repo.orders && repo.orders[id].seller == seller && repo.orders[id].status == OrderPaid)
    {
      ghost var next := Apply(Db(), DoMarkDelivered(id, seller, now));
      MarkDeliveredKeeps(Db(), DoMarkDelivered(id, seller, now));
      res := repo.MarkDelivered(id, seller, now);
      assert Db() == next;
    }

    // ---------- completion and settlement ----------

    method UpdateSettlement(id: Id, succeeded: bool, gatewayID: string) returns (res: Result<bool, MarketError>)
      requires Valid()
      modifies repo
      ensures Valid() && Ran(Market.UpdateSettlement(old(Db()), id, succeeded, gatewayID), old(Db()), Db(), res)
    {
      ghost var next := Apply(Db(), DoUpdateSettlement(id, succeeded, gatewayID));
      UpdateSettlementKeeps(Db(), DoUpdateSettlement(id, succeeded, gatewayID));
      res := repo.UpdateSettlement(id, succeeded, gatewayID);
      assert Db() == next;
    }

    /** The update after the gateway's answer: an id, or an error. */
    method RecordOutcome(id: Id, outcome: Option<string>) returns (res: Result<bool, MarketError>)
      requires Valid() && id in repo.settlements && repo.settlements[id].status != RecordSucceeded
      modifies repo
      ensures Valid() && Recorded(old(Db()), Db(), id, outcome, res.Ok?)
    {
      OutcomeIsRecorded(Db(), id, outcome);
      res := UpdateSettlement(id, outcome.Some?, Answer(outcome));
    }

    /** One settlement attempt run alone: read the row, take the gateway's answer, update.  It reports
        success exactly if the record ends up succeeded; it writes nothing but that record, and not
        even that once it has succeeded; and if the gateway accepted and no other record carries the
        gateway's id, the record does succeed. */
    method ProcessSettlement(id: Id, outcome: Option<string>) returns (ok: bool)
      requires Valid()
      modifies repo
      ensures Valid() && SettlementOnly(old(Db()), Db(), id)
      ensures ok <==> id in repo.settlements && repo.settlements[id].status == RecordSucceeded
      ensures id in old(repo.settlements) && outcome.Some? && !GatewaySettlementTaken(old(Db()), outcome.value, id) ==> ok
      ensures id in old(repo.settlements) && old(repo.settlements)[id].status != RecordSucceeded ==>
        Recorded(old(Db()), Db(), id, outcome, ok || outcome.None?)
    {
      if id !in repo.settlements { return false; }
      if repo.settlements[id].status == RecordSucceeded { return true; }
      var res := RecordOutcome(id, outcome);
      if outcome.None? || res.Err? { return false; }
      if !res.value {
        return id in repo.settlements && repo.settlements[id].status == RecordSucceeded;
      }
      return true;
    }

    method CompleteByBuyer(id: Id, buyer: Id, settlement: Id, now: int) returns (res: Result<bool, MarketError>)
      requires Valid()
      modifies repo
      ensures Valid() && Ran(Market.ConfirmReceived(old(Db()), id, buyer, settlement, now), old(Db()), Db(), res)
      ensures res.Ok? ==> Sale(old(Db()), Db(), id, settlement, now) && Unpaid(Db(), settlement)
      ensures res.Ok? <==> CompletesBy(old(Db()), DoConfirmReceived(id, buyer, settlement, now), id)
    {
      ghost var next := Apply(Db(), DoConfirmReceived(id, buyer, settlement, now));
      ConfirmReceivedKeeps(Db(), DoConfirmReceived(id, buyer, settlement, now));
      ConfirmationCompletes(Db(), id, buyer, settlement, now);
      res := repo.ConfirmReceived(id, buyer, settlement, now);
      assert Db() == next;
    }

    /** Only the buyer confirms, and only a delivered order without a pending refund.  A confirmed order is
        completed and its settlement written, for the seller's net, and tried once: it succeeds or fails
        with the gateway's answer. */
    method ConfirmReceived(id: Id, buyer: Id, settlement: Id, outcome: Option<string>, now: int)
      returns (res: Result<(), MarketError>)
      requires Valid()
      modifies repo
      ensures Valid()
      ensures res.Ok? ==> Sale(old(Db()), Db(), id, settlement, now) && FirstTry(old(Db()), Db(), settlement, outcome)
      ensures res.Err? ==> Db() == old(Db())
      ensures res.Ok? <==> CompletesBy(old(Db()), DoConfirmReceived(id, buyer, settlement, now), id)
    {
      var done := CompleteByBuyer(id, buyer, settlement, now);
      if done.Err? { return Err(done.error); }
      ghost var mid := Db();
      var paid := ProcessSettlement(settlement, outcome);
      FirstTryRecorded(old(Db()), mid, Db(), id, settlement, now, outcome, paid);
      return Ok(());
    }

    // ---------- refunds and disputes ----------

    method RequestRefund(id: Id, order: Id, who: Id, requestID: string) returns (res: Result<(), MarketError>)
      requires Valid()
      modifies repo
      ensures Valid()
      ensures requestID != "" ==> RefundAnswer(old(Db()), id, order, who, requestID, res)
      ensures if requestID == "" then res == Err(BadRequest) && Db() == old(Db())
              else Ran(Market.CreateRefund(old(Db()), id, order, who, requestID), old(Db()), Db(), res)
    {
      if requestID == "" { return Err(BadRequest); }
      res := CreateRefund(id, order, who, requestID);
    }

    method CreateRefund(id: Id, order: Id, who: Id, requestID: string) returns (res: Result<(), MarketError>)
      requires Valid()
      modifies repo
      ensures Valid() && Ran(Market.CreateRefund(old(Db()), id, order, who, requestID), old(Db()), Db(), res)
      ensures RefundAnswer(old(Db()), id, order, who, requestID, res)
    {
      RefundAnswers(Db(), id, order, who, requestID);
      res := InsertRefund(id, order, who, requestID);
    }

    method InsertRefund(id: Id, order: Id, who: Id, requestID: string) returns (res: Result<(), MarketError>)
      requires Valid()
      modifies repo
      ensures Valid() && Ran(Market.CreateRefund(old(Db()), id, order, who, requestID), old(Db()), Db(), res)
    {
      ghost var next := Apply(Db(), DoCreateRefund(id, order, who, requestID));
      CreateRefundKeeps(Db(), DoCreateRefund(id, order, who, requestID));
      res := repo.CreateRefund(id, order, who, requestID);
      assert Db() == next;
    }

    method DecideRecord(id: Id, approved: bool, gatewayID: string, now: int) returns (res: Result<(), MarketError>)
      requires Valid()
      modifies repo
      ensures Valid() && Ran(Market.DecideRefund(old(Db()), id, approved, gatewayID, now), old(Db()), Db(), res)
      ensures approved && res.Ok? ==> PaidBack(Db(), id)
      ensures DecisionAnswer(old(Db()), Db(), id, approved, gatewayID, res.Ok?)
    {
      DecisionAnswers(Db(), id, approved, gatewayID, now);
      ghost var next := Apply(Db(), DoDecideRefund(id, approved, gatewayID, now));
      DecideRefundKeeps(Db(), DoDecideRefund(id, approved, gatewayID, now));
      RefundPaysBack(Db(), id, approved, gatewayID, now);
      res := repo.DecideRefund(id, approved, gatewayID, now);
      assert Db() == next;
    }

    /** A pending refund that is not approved is rejected, which touches nothing but the record.  An
        approved one is final: success means that the record has succeeded and the order is
        refunded; approving again is accepted and changes nothing. */
    method DecideRefund(id: Id, approved: bool, gateway: Option<string>, now: int) returns (res: Result<(), MarketError>)
      requires Valid()
      modifies repo
      ensures Valid()
      ensures approved && res.Ok? ==> PaidBack(Db(), id)
      ensures approved && id in old(repo.refunds) && old(repo.refunds)[id].status == RecordSucceeded ==> res.Ok? && Db() == old(Db())
      ensures approved ==> (res.Ok? <==> Payable(old(Db()), id, gateway))
      ensures !approved ==> (res.Ok? <==> id in old(repo.refunds) && old(repo.refunds)[id].status == RecordPending)
      ensures !approved && res.Ok? ==> Db() == Rejected(old(Db()), id)
      ensures res.Err? ==> Db() == old(Db())
    {
      if id !in repo.refunds { return Err(OrderState); }
      if repo.refunds[id].status == RecordSucceeded && approved {
        assert RefundOk(repo.refunds[id], repo.orders[repo.refunds[id].order]);
        return Ok(());
      }
      if approved && gateway.None? { return Err(GatewayFailed); }
      res := DecideRecord(id, approved, if approved then gateway.value else "", now);
    }

    /** A party to a paid or delivered order without a pending refund disputes it, once. */
    method CreateDispute(id: Id, order: Id, who: Id, now: int) returns (res: Result<(), MarketError>)
      requires Valid()
      modifies repo
      ensures Valid() && Ran(Market.CreateDispute(old(Db()), id, order, who, now), old(Db()), Db(), res)
      ensures res.Ok? <==> MayDispute(old(Db()), id, order, who)
    {
      DisputeExact(Db(), id, order, who, now);
      ghost var next := Apply(Db(), DoCreateDispute(id, order, who, now));
      CreateDisputeKeeps(Db(), DoCreateDispute(id, order, who, now));
      res := repo.CreateDispute(id, order, who, now);
      assert Db() == next;
    }

    method ResolveRecord(id: Id, refund: bool, gatewayID: string, refundID: Id, now: int)
      returns (res: Result<(), MarketError>)
      requires Valid()
      modifies repo
      ensures Valid()
      ensures Ran(Market.ResolveDispute(old(Db()), id, refund, gatewayID, refundID, now), old(Db()), Db(), res)
    {
      ghost var next := Apply(Db(), DoResolveDispute(id, refund, gatewayID, refundID, now));
      ResolveDisputeKeeps(Db(), DoResolveDispute(id, refund, gatewayID, refundID, now));
      res := repo.ResolveDispute(id, refund, gatewayID, refundID, now);
      assert Db() == next;
    }

    /** A dispute ends with the order refunded or back in the status it had; a failed gateway refund
        changes nothing. */
    method ResolveDispute(id: Id, refund: bool, gateway: Option<string>, refundID: Id, now: int)
      returns (res: Result<(), MarketError>)
      requires Valid()
      modifies repo
      ensures Valid()
      ensures res.Ok? ==> Concluded(old(Db()), Db(), id, refund)
      ensures res.Ok? <==>
        if refund then gateway.Some? && MayCompensate(old(Db()), id, gateway.value, refundID) else Pending(old(Db()), id)
      ensures res.Err? ==> Db() == old(Db())
    {
      if id !in repo.disputes || repo.disputes[id].status != DisputePending { return Err(OrderState); }
      if repo.disputes[id].order !in repo.orders { return Err(NotFound); }
      if refund && gateway.None? { return Err(GatewayFailed); }
      DisputeConcludes(Db(), id, refund, if refund then gateway.value else "", refundID, now);
      DisputeEndsIff(Db(), id, refund, if refund then gateway.value else "", refundID, now);
      res := ResolveRecord(id, refund, if refund then gateway.value else "", refundID, now);
    }

    // ---------- due jobs ----------

    /** The expiry loop, over ids listed in ascending order. */
    method ExpireEach(ids: seq<Id>, now: int)
      requires repo.Indexed()
      requires forall k :: 0 <= k < |ids| ==> ids[k] in Overdue(Db(), now)
      requires forall j, k :: 0 <= j < k < |ids| ==> ids[j].value < ids[k].value
      modifies repo
      ensures |Elems(ids)| == |ids| && Db() == Swept(old(Db()), Elems(ids), now)
    {
      ghost var before := Db();
      SweptNone(before, now);
      assert Elems(ids[..0]) == {};
      for i := 0 to |ids|
        invariant repo.Indexed() && |Elems(ids[..i])| == i
        invariant Db() == Swept(before, Elems(ids[..i]), now)
      {
        ghost var done := Elems(ids[..i]);
        assert ids[i] !in done;
        assert Elems(ids[..i + 1]) == done + {ids[i]};
        SweptMore(before, done, ids[i], now);
        var _ := repo.ExpireOrder(ids[i], now);
      }
      assert ids[..|ids|] == ids;
    }

    /** The expiry half of the due-jobs run: exactly one sweep. */
    method ExpireDueOrders(now: int) returns (ids: seq<Id>)
      requires Valid()
      modifies repo
      ensures Valid() && Db() == Swept(old(Db()), Elems(ids), now)
      ensures Elems(ids) <= Overdue(old(Db()), now) && |Elems(ids)| == Min(SWEEP_LIMIT, |Overdue(old(Db()), now)|)
      ensures SweepStep(old(Db()), Db(), now)
    {
      ids := repo.ListExpiredOrderIDs(now, SWEEP_LIMIT);
      assert Elems(ids) <= Overdue(Db(), now);
      SweptKeeps(Db(), Elems(ids), now);
      ExpireEach(ids, now);
    }

    method CompleteByTimeout(id: Id, settlement: Id, cutoff: int, now: int) returns (res: Result<bool, MarketError>)
      requires Valid()
      modifies repo
      ensures Valid() && Ran(Market.AutoCompleteOrder(old(Db()), id, settlement, cutoff, now), old(Db()), Db(), res)
    {
      ghost var next := Apply(Db(), DoAutoComplete(id, settlement, cutoff, now));
      AutoCompleteKeeps(Db(), DoAutoComplete(id, settlement, cutoff, now));
      res := repo.AutoCompleteOrder(id, settlement, cutoff, now);
      assert Db() == next;
    }

    /** One turn of the completion loop: complete the order, then try to settle it. */
    method CompleteOne(id: Id, settlement: Id, outcome: Option<string>, cutoff: int, now: int)
      returns (res: Result<(), MarketError>)
      requires Valid() && Due(Db(), id, cutoff)
      modifies repo
      ensures Valid()
      ensures if res.Ok? then Sale(old(Db()), Db(), id, settlement, now) && FirstTry(old(Db()), Db(), settlement, outcome)
              else Db() == old(Db()) && settlement in repo.settlements
    {
      TimeoutCompletes(Db(), id, settlement, cutoff, now);
      var done := CompleteByTimeout(id, settlement, cutoff, now);
      if done.Err? { return Err(done.error); }
      if done.value {
        ghost var mid := Db();
        var paid := ProcessSettlement(settlement, outcome);
        FirstTryRecorded(old(Db()), mid, Db(), id, settlement, now, outcome, paid);
      }
      return Ok(());
    }

    /** The completion loop: every listed order is completed and no other order changes, unless a
        generated settlement id is already taken. */
    method CompleteEach(list: seq<Id>, ids: nat -> Id, outcomes: nat -> Option<string>, cutoff: int, now: int)
      returns (res: Result<(), MarketError>)
      requires Valid()
      requires forall k :: 0 <= k < |list| ==> Due(Db(), list[k], cutoff)
      requires forall j, k :: 0 <= j < k < |list| ==> list[j].value < list[k].value
      modifies repo
      ensures Valid()
      ensures res.Ok? ==> CompletedSoFar(old(Db()), Db(), list, now)
      ensures res.Err? ==> CompletedPart(old(Db()), Db(), list, now)
      ensures res.Ok? ==> FirstTries(old(Db()), Db(), ids, outcomes, |list|)
      ensures FreshIds(old(Db()), ids, |list|) ==> res.Ok?
    {
      ghost var before := Db();
      for i := 0 to |list|
        invariant Valid() && CompletedSoFar(before, Db(), list[..i], now) && SettledSoFar(before, Db(), ids, i)
        invariant FirstTries(before, Db(), ids, outcomes, i)
      {
        StillDue(before, Db(), list, i, cutoff, now);
        ghost var mid := Db();
        var one := CompleteOne(list[i], ids(i), outcomes(i), cutoff, now);
        if one.Err? { return Err(one.error); }
        OneMoreCompleted(before, mid, Db(), list, ids, i, now);
        OneMoreFirstTry(before, mid, Db(), ids, outcomes, i);
      }
      assert list[..|list|] == list;
      return Ok(());
    }

    method CompleteDueOrders(ids: nat -> Id, outcomes: nat -> Option<string>, cutoff: int, now: int)
      returns (completed: seq<Id>, res: Result<(), MarketError>)
      requires Valid()
      modifies repo
      ensures Valid() && |completed| == Min(SWEEP_LIMIT, |DueOrders(old(Db()), cutoff)|)
      ensures FirstDue(old(Db()), completed, cutoff)
      ensures res.Ok? ==> CompletedSoFar(old(Db()), Db(), completed, now)
      ensures res.Err? ==> CompletedPart(old(Db()), Db(), completed, now)
      ensures res.Ok? ==> FirstTries(old(Db()), Db(), ids, outcomes, |completed|)
      ensures FreshIds(old(Db()), ids, |completed|) ==> res.Ok?
    {
      completed := repo.ListAutoCompleteOrderIDs(cutoff, SWEEP_LIMIT);
      res := CompleteEach(completed, ids, outcomes, cutoff, now);
    }

    /** One run of the due jobs.  It cancels one sweep of the overdue orders, then completes, of the n
        orders delivered at least forty-eight hours ago without a pending refund, the min(100, n) with
        the smallest ids, each with its settlement, marks the items reserved for them as sold, and
        changes nothing else.  It fails only if a generated settlement id is taken, and then part of
        the list is done. */
    method RunDueJobs(ids: nat -> Id, outcomes: nat -> Option<string>, now: int)
      returns (expired: seq<Id>, completed: seq<Id>, res: Result<(), MarketError>)
      requires Valid()
      modifies repo
      ensures Valid() && Elems(expired) <= Overdue(old(Db()), now)
      ensures |Elems(expired)| == Min(SWEEP_LIMIT, |Overdue(old(Db()), now)|)
      ensures var swept := Swept(old(Db()), Elems(expired), now);
        && |completed| == Min(SWEEP_LIMIT, |DueOrders(swept, now - AUTO_COMPLETE_DELAY)|)
        && FirstDue(swept, completed, now - AUTO_COMPLETE_DELAY)
        && (if res.Ok? then CompletedSoFar(swept, Db(), completed, now) else CompletedPart(swept, Db(), completed, now))
        && (res.Ok? ==> FirstTries(swept, Db(), ids, outcomes, |completed|))
        && (FreshIds(swept, ids, |completed|) ==> res.Ok?)
    {
      expired := ExpireDueOrders(now);
      completed, res := CompleteDueOrders(ids, outcomes, now - AUTO_COMPLETE_DELAY, now);
    }

    /** Up to a hundred open settlements are tried again: those the gateway refuses are marked as failed,
        those it accepts under new ids succeed, and nothing else changes. */
    method RetryPendingSettlements(outcomes: nat -> Option<string>) returns (list: seq<Id>)
      requires Valid()
      modifies repo
      ensures Valid() && SettlementsOnly(old(Db()), Db())
      ensures Open(old(Db()), list) && |list| == Min(100, |set s | s in old(repo.settlements) && old(repo.settlements)[s].status in {RecordPending, RecordFailed}|)
      ensures Tried(old(Db()), Db(), list, outcomes)
    {
      list := repo.ListRetrySettlementIDs(100);
      ghost var before := Db();
      for i := 0 to |list|
        invariant Valid() && SettlementsOnly(before, Db()) && Tried(before, Db(), list[..i], outcomes)
      {
        ghost var mid := Db();
        OpenStill(before, mid, list, i, outcomes);
        var ok := ProcessSettlement(list[i], outcomes(i));
        OneMoreSettlement(before, mid, Db(), list[i]);
        OneMoreTried(before, mid, Db(), list, i, outcomes, ok);
      }
      assert list[..|list|] == list;
    }
  }

  // ---------- what the invariant adds to a transaction ----------

  ghost predicate OffShop(t: Tables, t': Tables, id: Id) {
    && id in t'.items && t'.items[id].status == ItemHidden && t'.items[id].reservedOrder.None?
    && forall o :: o in t.orders && Held(t.orders[o].status) ==> o in t'.orders && t'.orders[o] == t.orders[o]
  }

  lemma HideDetaches(t: Tables, id: Id, now: int)
    ensures HideItem(t, id, now).Commit? ==> OffShop(t, HideItem(t, id, now).db, id)
  {}

  ghost predicate Placed(t: Tables, t': Tables, id: Id, item: Id, buyer: Id, now: int) {
    && OnSale(t, item) && id in t'.orders && t'.orders[id] == NewRow(t, item, buyer, now)
    && item in t'.items && t'.items[item] == t.items[item].(status := ItemReserved, reservedOrder := Some(id))
  }

  ghost predicate Listed(t: Tables, item: Id) {
    item in t.items && t.items[item].status == ItemPublished && t.items[item].reservedOrder.None?
  }

  ghost predicate OrderAnswer(t: Tables, id: Id, item: Id, buyer: Id, res: Result<(), MarketError>) {
    && (res.Ok? <==> MayOrder(t, id, item, buyer))
    && (res == Err(OwnItem) <==> Listed(t, item) && t.items[item].seller == buyer)
    && (res == Err(ItemUnavailable) <==> !Listed(t, item) || (t.items[item].seller != buyer && !OnSale(t, item)))
  }

  lemma OrderIsPlaced(t: Tables, id: Id, item: Id, buyer: Id, now: int)
    requires RatesOk(t.categories) && PricesOk(t.items)
    ensures OrderAnswer(t, id, item, buyer, AnswerOf(CreateOrder(t, id, item, buyer, now)))
    ensures CreateOrder(t, id, item, buyer, now).Commit? ==> Placed(t, CreateOrder(t, id, item, buyer, now).db, id, item, buyer, now)
  {
    OrderExact(t, id, item, buyer, now);
  }

  ghost predicate Requested(t: Tables, p: Id, order: Id, requestID: string) {
    && p in t.payments && t.payments[p].order == order && t.payments[p].requestID == requestID
    && order in t.orders && t.payments[p].amount == t.orders[order].price && t.payments[p].gatewayTx.Some?
  }

  /** The payment got a gateway transaction; nothing else changed. */
  ghost predicate Attached(t: Tables, t': Tables, p: Id, tx: string) {
    p in t.payments && t' == t.(payments := t.payments[p := t.payments[p].(gatewayTx := Some(tx))])
  }

  lemma AttachmentAttaches(t: Tables, p: Id, tx: string)
    ensures AttachPaymentTransaction(t, p, tx).Commit? ==> Attached(t, AttachPaymentTransaction(t, p, tx).db, p, tx)
    ensures AttachPaymentTransaction(t, p, tx).Commit? <==> FitsTransaction(t, p, tx)
  {}

  /** The payment has a gateway transaction, or the gateway made one that fits. */
  ghost predicate Attachable(t: Tables, p: Id, gateway: Option<string>) {
    p in t.payments && (t.payments[p].gatewayTx.Some? || (gateway.Some? && FitsTransaction(t, p, gateway.value)))
  }

  ghost predicate ReadyToPay(t: Tables, requestID: string, gateway: Option<string>) {
    exists p :: p in t.payments && t.payments[p].requestID == requestID && Attachable(t, p, gateway)
  }

  lemma ReadyIff(t: Tables, p: Id, requestID: string, gateway: Option<string>)
    requires UniqueRequests(t.payments) && p in t.payments && t.payments[p].requestID == requestID
    ensures ReadyToPay(t, requestID, gateway) <==> Attachable(t, p, gateway)
  {}

  /** Whatever payment carries the request id is for the order and its price. */
  ghost predicate Asked(t: Tables, order: Id, requestID: string) {
    PaymentRequestTaken(t, requestID) && forall p :: p in t.payments && t.payments[p].requestID == requestID ==> AskedBy(t, p, order)
  }

  ghost predicate AskedBy(t: Tables, p: Id, order: Id) {
    p in t.payments && t.payments[p].order == order && order in t.orders && t.payments[p].amount == t.orders[order].price
  }

  /** The buyer of an order that awaits payment asks for the first time, or again with the same request. */
  ghost predicate MayAsk(t: Tables, caller: Id, id: Id, order: Id, requestID: string, now: int) {
    && Awaits(t, order, now) && t.orders[order].buyer == caller && requestID != ""
    && if PaymentRequestTaken(t, requestID) then t.payments[PaymentByRequest(t, requestID)].order == order else id !in t.payments
  }

  lemma AskingIff(t: Tables, caller: Id, id: Id, order: Id, requestID: string, now: int)
    requires Escrow(t.orders, t.payments)
    ensures StartPayment(t, caller, id, order, requestID, now).Commit? <==> MayAsk(t, caller, id, order, requestID, now)
  {}

  lemma PaymentIsAsked(t: Tables, caller: Id, id: Id, order: Id, requestID: string, now: int)
    requires UniqueRequests(t.payments)
    ensures StartPayment(t, caller, id, order, requestID, now).Commit? ==>
      Asked(StartPayment(t, caller, id, order, requestID, now).db, order, requestID)
  {
    if StartPayment(t, caller, id, order, requestID, now).Commit? && !PaymentRequestTaken(t, requestID) {
      assert StartPayment(t, caller, id, order, requestID, now).db.payments[id].requestID == requestID;
    }
    if StartPayment(t, caller, id, order, requestID, now).Commit? && PaymentRequestTaken(t, requestID) {
      forall p | p in t.payments && t.payments[p].requestID == requestID
        ensures AskedBy(t, p, order)
      {
        assert PaymentByRequest(t, requestID) == p;
      }
    }
  }

  ghost predicate Paid(t: Tables, requestID: string, amount: int) {
    exists p :: p in t.payments && PaidBy(t, p, requestID, amount)
  }

  ghost predicate PaidBy(t: Tables, p: Id, requestID: string, amount: int)
    requires p in t.payments
  {
    && t.payments[p].requestID == requestID && t.payments[p].status == RecordSucceeded && t.payments[p].amount == amount
    && t.payments[p].order in t.orders && PastPayment(t.orders[t.payments[p].order].status)
    && t.orders[t.payments[p].order].price == amount
  }

  ghost predicate Chargeable(t: Tables, requestID: string, tx: string, amount: int, now: int) {
    exists p :: MayCharge(t, p, requestID, tx, amount, now)
  }

  lemma CallbackIff(t: Tables, requestID: string, tx: string, amount: int, now: int)
    requires Escrow(t.orders, t.payments)
    ensures AnswerOf(ApplyPaymentCallback(t, requestID, tx, amount, now)) == Ok(true) <==> Chargeable(t, requestID, tx, amount, now)
  {
    if p :| MayCharge(t, p, requestID, tx, amount, now) {
      ChargesOne(t, p, requestID, tx, amount, now);
    } else {
      ChargesNone(t, requestID, tx, amount, now);
    }
  }

  lemma CallbackPays(t: Tables, requestID: string, tx: string, amount: int, now: int)
    requires Escrow(t.orders, t.payments)
    ensures ApplyPaymentCallback(t, requestID, tx, amount, now).Commit? ==>
      Paid(ApplyPaymentCallback(t, requestID, tx, amount, now).db, requestID, amount)
  {
    var r := ApplyPaymentCallback(t, requestID, tx, amount, now);
    if r.Commit? {
      var p := PaymentByRequest(t, requestID);
      assert t.payments[p].status == RecordSucceeded ==> Pays(t.payments, p, t.payments[p].order);
      assert p in r.db.payments && PaidBy(r.db, p, requestID, amount);
    }
  }

  ghost predicate BackInShop(t: Tables, t': Tables, id: Id) {
    && id in t.orders && id in t'.orders && t'.orders[id].status == OrderCancelled
    && t.orders[id].item in t'.items && t'.items[t.orders[id].item].status == ItemPublished
    && t'.items[t.orders[id].item].reservedOrder.None?
  }

  lemma CancelFrees(t: Tables, id: Id, buyer: Id, now: int)
    requires Custody(t.items, t.orders)
    ensures CancelOrder(t, id, buyer, now).Commit? ==> BackInShop(t, CancelOrder(t, id, buyer, now).db, id)
    ensures CancelOrder(t, id, buyer, now).Commit? <==> CancelsBy(t, DoCancelOrder(id, buyer, now), id)
  {
    if CancelOrder(t, id, buyer, now).Commit? {
      assert OrderCustody(t.items, id, t.orders[id]);
    }
  }

  /** Nothing but this settlement record was written, and not even that one if it had succeeded. */
  ghost predicate SettlementOnly(t: Tables, t': Tables, id: Id) {
    && t' == t.(settlements := t'.settlements) && t'.settlements.Keys == t.settlements.Keys
    && (forall s :: s in t.settlements && (s != id || t.settlements[s].status == RecordSucceeded) ==> t'.settlements[s] == t.settlements[s])
    && (id in t.settlements ==> t'.settlements[id].order == t.settlements[id].order && t'.settlements[id].amount == t.settlements[id].amount)
  }

  function Answer(outcome: Option<string>): string {
    if outcome.Some? then outcome.value else ""
  }

  /** The record succeeded if the gateway accepted; the update can only fail on a gateway id that
      another record carries. */
  ghost predicate Recorded(t: Tables, t': Tables, id: Id, outcome: Option<string>, written: bool) {
    && SettlementOnly(t, t', id) && id in t.settlements && id in t'.settlements
    && (written ==> t'.settlements[id].status == if outcome.Some? then RecordSucceeded else RecordFailed)
    && (written ==> t'.settlements[id].gatewayID == if Answer(outcome) == "" then t.settlements[id].gatewayID else Some(outcome.value))
    && (!written ==> t' == t)
    && (!written ==> outcome.Some? && GatewaySettlementTaken(t, outcome.value, id))
  }

  lemma OutcomeIsRecorded(t: Tables, id: Id, outcome: Option<string>)
    requires Settled(t.orders, t.settlements) && id in t.settlements && t.settlements[id].status != RecordSucceeded
    ensures var r := UpdateSettlement(t, id, outcome.Some?, Answer(outcome)); Recorded(t, r.After(t), id, outcome, r.Commit?)
  {
    assert RowSettled(t.orders, t.settlements, id);
  }

  /** The order is completed and settled under this id, for the seller's net. */
  ghost predicate Completes(t: Tables, t': Tables, id: Id, settlement: Id, now: int) {
    && id in t.orders && t.orders[id].status == OrderDelivered
    && id in t'.orders && t'.orders[id] == t.orders[id].(status := OrderCompleted, completedAt := Some(now))
    && settlement !in t.settlements && settlement in t'.settlements
    && t'.settlements[settlement].order == id && t'.settlements[settlement].amount == t.orders[id].net
  }

  lemma ConfirmationCompletes(t: Tables, id: Id, buyer: Id, settlement: Id, now: int)
    requires Settled(t.orders, t.settlements)
    ensures ConfirmReceived(t, id, buyer, settlement, now).Commit? ==>
      Unpaid(ConfirmReceived(t, id, buyer, settlement, now).db, settlement)
    ensures ConfirmReceived(t, id, buyer, settlement, now).Commit? ==>
      Sale(t, ConfirmReceived(t, id, buyer, settlement, now).db, id, settlement, now)
    ensures ConfirmReceived(t, id, buyer, settlement, now).Commit? <==>
      CompletesBy(t, DoConfirmReceived(id, buyer, settlement, now), id)
  {
    if id in t.orders {
      CompletionExact(t, id, settlement, now);
    }
  }

  /** The refund was paid out already, or the gateway paid it out and it can be recorded. */
  ghost predicate Payable(t: Tables, id: Id, gateway: Option<string>) {
    id in t.refunds && (t.refunds[id].status == RecordSucceeded || (gateway.Some? && MayPayOut(t, id, gateway.value)))
  }

  ghost function Rejected(t: Tables, id: Id): Tables
    requires id in t.refunds
  {
    t.(refunds := t.refunds[id := t.refunds[id].(status := RecordRejected)])
  }

  ghost predicate DecisionAnswer(t: Tables, t': Tables, id: Id, approved: bool, gatewayID: string, ok: bool) {
    && (approved ==> (ok <==> MayPayOut(t, id, gatewayID)))
    && (!approved ==> (ok <==> id in t.refunds && t.refunds[id].status == RecordPending) && (ok ==> t' == Rejected(t, id)))
  }

  lemma DecisionAnswers(t: Tables, id: Id, approved: bool, gatewayID: string, now: int)
    requires RefundsOk(t.orders, t.refunds)
    ensures var r := DecideRefund(t, id, approved, gatewayID, now); DecisionAnswer(t, r.After(t), id, approved, gatewayID, r.Commit?)
  {
    if approved {
      PayOutExact(t, id, gatewayID, now);
    } else {
      RejectExact(t, id, gatewayID, now);
    }
  }

  /** A refused request is told apart: an order that cannot be refunded, or one that has a refund. */
  ghost predicate RefundAnswer(t: Tables, id: Id, order: Id, who: Id, requestID: string, res: Result<(), MarketError>) {
    && (res.Ok? <==> MayAskRefund(t, id, order, who, requestID))
    && (res == Err(OrderState) <==>
          !(order in t.orders && t.orders[order].buyer == who && t.orders[order].status in {OrderPaid, OrderDelivered}))
  }

  lemma RefundAnswers(t: Tables, id: Id, order: Id, who: Id, requestID: string)
    ensures RefundAnswer(t, id, order, who, requestID, AnswerOf(CreateRefund(t, id, order, who, requestID)))
  {
    RefundRequestExact(t, id, order, who, requestID);
  }

  lemma DisputeEndsIff(t: Tables, id: Id, refund: bool, gatewayID: string, refundID: Id, now: int)
    requires DisputesOk(t.orders, t.disputes)
    ensures ResolveDispute(t, id, refund, gatewayID, refundID, now).Commit? <==>
      if refund then MayCompensate(t, id, gatewayID, refundID) else Pending(t, id)
  {
    if refund {
      CompensationExact(t, id, gatewayID, refundID, now);
    } else {
      ResumeExact(t, id, gatewayID, refundID, now);
    }
  }

  ghost predicate PaidBack(t: Tables, id: Id) {
    && id in t.refunds && t.refunds[id].status == RecordSucceeded && t.refunds[id].order in t.orders
    && t.orders[t.refunds[id].order].status == OrderRefunded && t.refunds[id].amount == t.orders[t.refunds[id].order].price
  }

  lemma RefundPaysBack(t: Tables, id: Id, approved: bool, gatewayID: string, now: int)
    requires RefundsOk(t.orders, t.refunds)
    ensures approved && DecideRefund(t, id, approved, gatewayID, now).Commit? ==>
      PaidBack(DecideRefund(t, id, approved, gatewayID, now).db, id)
  {
    if id in t.refunds {
      assert RefundOk(t.refunds[id], t.orders[t.refunds[id].order]);
    }
  }

  ghost predicate Concluded(t: Tables, t': Tables, id: Id, refund: bool) {
    && id in t.disputes && id in t'.disputes && t'.disputes[id].status != DisputePending
    && t.disputes[id].order in t'.orders
    && t'.orders[t.disputes[id].order].status == (if refund then OrderRefunded else t.disputes[id].previous)
  }

  lemma DisputeConcludes(t: Tables, id: Id, refund: bool, gatewayID: string, refundID: Id, now: int)
    ensures ResolveDispute(t, id, refund, gatewayID, refundID, now).Commit? ==>
      Concluded(t, ResolveDispute(t, id, refund, gatewayID, refundID, now).db, id, refund)
  {}

  // ---------- the completion loop ----------

  /** The order was completed and settled under this id, its item marked as sold if reserved for it;
      everything else is as before. */
  ghost predicate Sale(t: Tables, t': Tables, id: Id, settlement: Id, now: int) {
    && Completes(t, t', id, settlement, now)
    && t' == t.(orders := t.orders[id := t'.orders[id]], items := MarkSold(t.items, t.orders[id].item, id), settlements := t'.settlements)
    && t'.settlements.Keys == t.settlements.Keys + {settlement}
    && (forall s :: s in t.settlements ==> t'.settlements[s] == t.settlements[s])
  }

  /** Distinct due orders in ascending order of ids, none with a smaller id left out. */
  ghost predicate FirstDue(t: Tables, list: seq<Id>, cutoff: int) {
    && (forall k :: 0 <= k < |list| ==> Due(t, list[k], cutoff))
    && (forall j, k :: 0 <= j < k < |list| ==> list[j].value < list[k].value)
    && (forall k, o :: 0 <= k < |list| && o in DueOrders(t, cutoff) && o !in list ==> list[k].value < o.value)
  }

  /** A due order completes unless the generated settlement id is taken: no settlement of another order
      can carry its request id. */
  lemma TimeoutCompletes(t: Tables, id: Id, settlement: Id, cutoff: int, now: int)
    requires Settled(t.orders, t.settlements) && Due(t, id, cutoff)
    ensures var r := AutoCompleteOrder(t, id, settlement, cutoff, now);
      if r.Abort? then settlement in t.settlements else r.value && Sale(t, r.db, id, settlement, now) && Unpaid(r.db, settlement)
  {
    CompletionEffect(t, id, settlement, now);
    assert !HasSettlement(t, id);
    forall s | s in t.settlements
      ensures t.settlements[s].requestID != SettlementRequestID(id)
    {
      assert RowSettled(t.orders, t.settlements, s) && !SettlementOf(t.settlements, s, id);
      if t.settlements[s].requestID == SettlementRequestID(id) {
        SettlementRequestsDiffer(t.settlements[s].order, id);
      }
    }
  }

  /** The item is reserved for one of these orders, which is for it. */
  ghost predicate SoldIn(t: Tables, done: seq<Id>, i: Id)
    requires i in t.items
  {
    match t.items[i].reservedOrder
    case Some(o) => o in done && o in t.orders && t.orders[o].item == i
    case None => false
  }

  /** Exactly these orders are completed, exactly the items reserved for them sold; settlements were
      added; nothing else changed. */
  ghost predicate CompletedSoFar(t: Tables, t': Tables, done: seq<Id>, now: int) {
    && t' == t.(orders := t'.orders, items := t'.items, settlements := t'.settlements)
    && t'.orders.Keys == t.orders.Keys && t'.items.Keys == t.items.Keys
    && (forall o :: o in t.orders && o !in done ==> t'.orders[o] == t.orders[o])
    && (forall o :: o in t.orders && o in done ==>
          t'.orders[o] == t.orders[o].(status := OrderCompleted, completedAt := Some(now)))
    && (forall i :: i in t.items ==> t'.items[i] == if SoldIn(t, done, i) then t.items[i].(status := ItemSold) else t.items[i])
    && (forall s :: s in t.settlements ==> s in t'.settlements && t'.settlements[s] == t.settlements[s])
  }

  /** The same for the first orders of a list. */
  ghost predicate CompletedPart(t: Tables, t': Tables, list: seq<Id>, now: int) {
    exists n :: 0 <= n <= |list| && CompletedSoFar(t, t', list[..n], now)
  }

  ghost predicate SettledSoFar(t: Tables, t': Tables, ids: nat -> Id, n: nat) {
    forall s :: s in t'.settlements ==> s in t.settlements || exists k :: 0 <= k < n && ids(k) == s
  }

  ghost predicate FreshIds(t: Tables, ids: nat -> Id, n: nat) {
    && (forall k :: 0 <= k < n ==> ids(k) !in t.settlements)
    && (forall j, k :: 0 <= j < k < n ==> ids(j) != ids(k))
  }

  lemma StillDue(t: Tables, t': Tables, list: seq<Id>, i: nat, cutoff: int, now: int)
    requires i < |list| && CompletedSoFar(t, t', list[..i], now) && Due(t, list[i], cutoff)
    requires forall j, k :: 0 <= j < k < |list| ==> list[j].value < list[k].value
    ensures Due(t', list[i], cutoff) && list[i] !in list[..i]
  {
    assert list[i] !in list[..i];
    assert HasPendingRefund(t', list[i]) ==> HasPendingRefund(t, list[i]);
  }

  /** Selling the item of one more order. */
  lemma OneMoreSold(t: Tables, items: map<Id, Item>, done: seq<Id>, id: Id)
    requires id in t.orders && id !in done && items.Keys == t.items.Keys
    requires forall i :: i in t.items ==> items[i] == if SoldIn(t, done, i) then t.items[i].(status := ItemSold) else t.items[i]
    ensures var after := MarkSold(items, t.orders[id].item, id);
      && after.Keys == t.items.Keys
      && forall i :: i in t.items ==> after[i] == if SoldIn(t, done + [id], i) then t.items[i].(status := ItemSold) else t.items[i]
  {}

  lemma OneMoreCompleted(t: Tables, mid: Tables, t': Tables, list: seq<Id>, ids: nat -> Id, i: nat, now: int)
    requires i < |list| && CompletedSoFar(t, mid, list[..i], now) && SettledSoFar(t, mid, ids, i)
    requires Sale(mid, t', list[i], ids(i), now) && list[i] in t.orders && list[i] !in list[..i]
    ensures CompletedSoFar(t, t', list[..i + 1], now) && SettledSoFar(t, t', ids, i + 1)
  {
    assert list[..i + 1] == list[..i] + [list[i]];
    assert mid.orders[list[i]] == t.orders[list[i]];
    OneMoreSold(t, mid.items, list[..i], list[i]);
  }

  /** A settlement just written. */
  ghost predicate Unpaid(t: Tables, settlement: Id) {
    settlement in t.settlements && t.settlements[settlement].status == RecordPending && t.settlements[settlement].gatewayID.None?
  }

  /** The new settlement was tried once: failed if the gateway refused, succeeded if it accepted under an id
      that no record carried. */
  ghost predicate FirstTry(t: Tables, t': Tables, settlement: Id, outcome: Option<string>) {
    && settlement in t'.settlements
    && (outcome.None? ==> t'.settlements[settlement].status == RecordFailed)
    && (outcome.Some? && NotCarried(t, outcome.value) ==> t'.settlements[settlement].status == RecordSucceeded)
    && (t'.settlements[settlement].gatewayID.Some? ==> t'.settlements[settlement].gatewayID == outcome)
  }

  ghost predicate NotCarried(t: Tables, gatewayID: string) {
    forall s :: s in t.settlements ==> t.settlements[s].gatewayID != Some(gatewayID)
  }

  lemma FirstTryRecorded(t: Tables, mid: Tables, t': Tables, id: Id, settlement: Id, now: int, outcome: Option<string>, paid: bool)
    requires Sale(t, mid, id, settlement, now) && Unpaid(mid, settlement)
    requires Recorded(mid, t', settlement, outcome, paid || outcome.None?)
    requires outcome.Some? && !GatewaySettlementTaken(mid, outcome.value, settlement) ==> paid
    ensures Sale(t, t', id, settlement, now) && FirstTry(t, t', settlement, outcome)
  {
    if outcome.Some? && NotCarried(t, outcome.value) {
      assert !GatewaySettlementTaken(mid, outcome.value, settlement);
    }
  }

  /** Every settlement the loop wrote was tried with its own answer. */
  ghost predicate FirstTries(t: Tables, t': Tables, ids: nat -> Id, outcomes: nat -> Option<string>, n: nat) {
    && (forall k :: 0 <= k < n ==> TriedAt(t', ids(k), outcomes(k), NewAnswers(t, n, outcomes)) && ids(k) in t'.settlements)
    && (forall s :: s in t'.settlements && t'.settlements[s].gatewayID.Some? ==> KnownAnswer(t, t'.settlements[s].gatewayID, outcomes, n))
  }

  /** The gateway id was there before, or is one of the answers. */
  ghost predicate KnownAnswer(t: Tables, gatewayID: Option<string>, outcomes: nat -> Option<string>, n: nat) {
    (exists s :: s in t.settlements && t.settlements[s].gatewayID == gatewayID) || exists k :: 0 <= k < n && outcomes(k) == gatewayID
  }

  lemma OneMoreFirstTry(t: Tables, mid: Tables, t': Tables, ids: nat -> Id, outcomes: nat -> Option<string>, i: nat)
    requires FirstTries(t, mid, ids, outcomes, i) && FirstTry(mid, t', ids(i), outcomes(i)) && ids(i) !in mid.settlements
    requires t'.settlements.Keys == mid.settlements.Keys + {ids(i)}
    requires forall s :: s in mid.settlements ==> t'.settlements[s] == mid.settlements[s]
    ensures FirstTries(t, t', ids, outcomes, i + 1)
  {
    if NewAnswers(t, i + 1, outcomes) {
      FewerAnswers(t, i, outcomes);
      if outcomes(i).Some? {
        forall s | s in mid.settlements
          ensures mid.settlements[s].gatewayID != Some(outcomes(i).value)
        {
          if mid.settlements[s].gatewayID.Some? {
            assert KnownAnswer(t, mid.settlements[s].gatewayID, outcomes, i);
          }
        }
      }
    }
    forall k | 0 <= k < i + 1
      ensures TriedAt(t', ids(k), outcomes(k), NewAnswers(t, i + 1, outcomes)) && ids(k) in t'.settlements
    {
      if k < i {
        assert TriedAt(mid, ids(k), outcomes(k), NewAnswers(t, i, outcomes)) && ids(k) in mid.settlements;
      }
    }
    forall s | s in t'.settlements && t'.settlements[s].gatewayID.Some?
      ensures KnownAnswer(t, t'.settlements[s].gatewayID, outcomes, i + 1)
    {
      if s in mid.settlements {
        assert KnownAnswer(t, mid.settlements[s].gatewayID, outcomes, i);
      }
    }
  }

  ghost predicate SettlementsOnly(t: Tables, t': Tables) {
    && t' == t.(settlements := t'.settlements) && t'.settlements.Keys == t.settlements.Keys
    && forall s :: s in t.settlements ==>
         && t'.settlements[s].order == t.settlements[s].order && t'.settlements[s].amount == t.settlements[s].amount
         && (t.settlements[s].status == RecordSucceeded ==> t'.settlements[s] == t.settlements[s])
  }

  lemma OneMoreSettlement(t: Tables, mid: Tables, t': Tables, id: Id)
    requires SettlementsOnly(t, mid) && SettlementOnly(mid, t', id)
    ensures SettlementsOnly(t, t')
  {}

  // ---------- the retry loop ----------

  /** Distinct settlements that are not yet made. */
  ghost predicate Open(t: Tables, list: seq<Id>) {
    && (forall k :: 0 <= k < |list| ==> list[k] in t.settlements && t.settlements[list[k]].status in {RecordPending, RecordFailed})
    && (forall j, k :: 0 <= j < k < |list| ==> list[j] != list[k])
  }

  /** The gateway's ids are carried by no record yet and differ from each other. */
  ghost predicate NewAnswers(t: Tables, n: nat, outcomes: nat -> Option<string>) {
    && (forall k, s :: 0 <= k < n && s in t.settlements && outcomes(k).Some? ==> t.settlements[s].gatewayID != outcomes(k))
    && (forall j, k :: 0 <= j < k < n && outcomes(j).Some? ==> outcomes(j) != outcomes(k))
  }

  ghost predicate Tried(t: Tables, t': Tables, list: seq<Id>, outcomes: nat -> Option<string>) {
    && t'.settlements.Keys == t.settlements.Keys
    && (forall k :: 0 <= k < |list| ==> TriedAt(t', list[k], outcomes(k), NewAnswers(t, |list|, outcomes)))
    && (forall s :: s in t.settlements && s !in list ==> t'.settlements[s] == t.settlements[s])
    && (forall s :: s in t.settlements ==> Answered(t, t', |list|, outcomes, s))
  }

  /** Failed if refused; succeeded if accepted under a new id. */
  ghost predicate TriedAt(t: Tables, s: Id, outcome: Option<string>, isNew: bool) {
    s in t.settlements ==>
      && (outcome.None? ==> t.settlements[s].status == RecordFailed)
      && (outcome.Some? && isNew ==> t.settlements[s].status == RecordSucceeded)
  }

  /** A record carries the gateway id it had, or one of the answers. */
  ghost predicate Answered(t: Tables, t': Tables, n: nat, outcomes: nat -> Option<string>, s: Id)
    requires s in t.settlements && t'.settlements.Keys == t.settlements.Keys
  {
    t'.settlements[s].gatewayID == t.settlements[s].gatewayID
    || exists k :: 0 <= k < n && outcomes(k).Some? && t'.settlements[s].gatewayID == outcomes(k)
  }

  lemma OpenStill(t: Tables, mid: Tables, list: seq<Id>, i: nat, outcomes: nat -> Option<string>)
    requires Open(t, list) && i < |list| && Tried(t, mid, list[..i], outcomes)
    ensures list[i] !in list[..i] && list[i] in mid.settlements && mid.settlements[list[i]] == t.settlements[list[i]]
    ensures mid.settlements[list[i]].status != RecordSucceeded
    ensures NewAnswers(t, i + 1, outcomes) && outcomes(i).Some? ==> !GatewaySettlementTaken(mid, outcomes(i).value, list[i])
  {
    assert list[i] !in list[..i];
    if NewAnswers(t, i + 1, outcomes) && outcomes(i).Some? {
      forall s | s in mid.settlements
        ensures mid.settlements[s].gatewayID != Some(outcomes(i).value)
      {
        assert Answered(t, mid, i, outcomes, s);
      }
    }
  }

  lemma FewerAnswers(t: Tables, i: nat, outcomes: nat -> Option<string>)
    requires NewAnswers(t, i + 1, outcomes)
    ensures NewAnswers(t, i, outcomes)
  {}

  lemma OneMoreTried(t: Tables, mid: Tables, t': Tables, list: seq<Id>, i: nat, outcomes: nat -> Option<string>, ok: bool)
    requires i < |list| && Tried(t, mid, list[..i], outcomes) && list[i] in t.settlements && list[i] !in list[..i]
    requires Recorded(mid, t', list[i], outcomes(i), ok || outcomes(i).None?)
    requires NewAnswers(t, i + 1, outcomes) && outcomes(i).Some? ==> ok
    requires mid.settlements[list[i]].gatewayID == t.settlements[list[i]].gatewayID
    ensures Tried(t, t', list[..i + 1], outcomes)
  {
    var more := list[..i + 1];
    assert more == list[..i] + [list[i]];
    if NewAnswers(t, i + 1, outcomes) {
      FewerAnswers(t, i, outcomes);
    }
    forall k | 0 <= k < |more|
      ensures TriedAt(t', more[k], outcomes(k), NewAnswers(t, i + 1, outcomes))
    {
      if k < i {
        assert TriedAt(mid, list[..i][k], outcomes(k), NewAnswers(t, i, outcomes));
        assert more[k] == list[..i][k] && more[k] != list[i];
      }
    }
    forall s | s in t.settlements
      ensures Answered(t, t', i + 1, outcomes, s)
    {
      AnsweredStill(t, mid, t', list[i], i, outcomes, ok || outcomes(i).None?, s);
    }
  }

  lemma AnsweredStill(t: Tables, mid: Tables, t': Tables, id: Id, i: nat, outcomes: nat -> Option<string>, ok: bool, s: Id)
    requires s in t.settlements && mid.settlements.Keys == t.settlements.Keys && t'.settlements.Keys == t.settlements.Keys
    requires Answered(t, mid, i, outcomes, s) && Recorded(mid, t', id, outcomes(i), ok)
    ensures Answered(t, t', i + 1, outcomes, s)
  {
    if s == id && ok && Answer(outcomes(i)) != "" {
      assert t'.settlements[s].gatewayID == outcomes(i);
    } else {
      assert t'.settlements[s].gatewayID == mid.settlements[s].gatewayID;
    }
  }
}
