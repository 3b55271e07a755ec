/** Conservation of money: what buyers paid in is, at every moment, what is still held plus what went
    back plus what was earned. */
module MarketLedger {
  import opened Support
  import opened Market
  import opened MarketInvariant

  // ---------- rows ----------

  ghost function PaymentsMade(t: Tables): set<Id> {
    set p | p in t.payments && t.payments[p].status == RecordSucceeded
  }

  ghost function OrdersIn(t: Tables, s: OrderStatus): set<Id> {
    set o | o in t.orders && t.orders[o].status == s
  }

  ghost function OrdersHeld(t: Tables): set<Id> {
    set o | o in t.orders && Held(t.orders[o].status)
  }

  ghost function OrdersPastPayment(t: Tables): set<Id> {
    set o | o in t.orders && PastPayment(t.orders[o].status)
  }

  // ---------- money columns ----------

  ghost function PaymentAmount(t: Tables): Id -> int {
    p => if p in t.payments then t.payments[p].amount else 0
  }

  ghost function Price(t: Tables): Id -> int {
    o => if o in t.orders then t.orders[o].price else 0
  }

  ghost function Fee(t: Tables): Id -> int {
    o => if o in t.orders then t.orders[o].fee else 0
  }

  ghost function Net(t: Tables): Id -> int {
    o => if o in t.orders then t.orders[o].net else 0
  }

  ghost function SettlementAmount(t: Tables): Id -> int {
    s => if s in t.settlements then t.settlements[s].amount else 0
  }

  // ---------- the accounts ----------

  /** Money that arrived: all succeeded payments. */
  ghost function PaidIn(t: Tables): int { Sum(PaymentsMade(t), PaymentAmount(t)) }

  /** Money held for orders that are paid, delivered or disputed. */
  ghost function HeldFunds(t: Tables): int { Sum(OrdersHeld(t), Price(t)) }

  ghost function RefundedFunds(t: Tables): int { Sum(OrdersIn(t, OrderRefunded), Price(t)) }

  /** Money owed or paid to sellers: all settlements. */
  ghost function SettledFunds(t: Tables): int { Sum(t.settlements.Keys, SettlementAmount(t)) }

  ghost function PlatformFees(t: Tables): int { Sum(OrdersIn(t, OrderCompleted), Fee(t)) }

  /** Payments match orders past payment one to one, at the order's price. */
  lemma PaidInByOrder(t: Tables)
    requires Escrow(t.orders, t.payments)
    ensures PaidIn(t) == Sum(OrdersPastPayment(t), Price(t))
  {
    var paid, past := PaymentsMade(t), OrdersPastPayment(t);
    var payer := (p: Id) => if p in t.payments then t.payments[p].order else p;
    forall p | p in paid
      ensures Pays(t.payments, p, payer(p)) && payer(p) in past && PaymentAmount(t)(p) == Price(t)(payer(p))
    {
      assert Pays(t.payments, p, t.payments[p].order);
    }
    forall o | o in past
      ensures exists p :: p in paid && payer(p) == o
    {
      var p :| Pays(t.payments, p, o);
      assert p in paid && payer(p) == o;
    }
    SumReindex(paid, past, payer, PaymentAmount(t), Price(t));
  }

  /** Settlements match completed orders one to one, at the seller's net. */
  lemma SettledByOrder(t: Tables)
    requires Settled(t.orders, t.settlements)
    ensures SettledFunds(t) == Sum(OrdersIn(t, OrderCompleted), Net(t))
  {
    var rows, done := t.settlements.Keys, OrdersIn(t, OrderCompleted);
    var seller := (s: Id) => if s in t.settlements then t.settlements[s].order else s;
    forall s | s in rows
      ensures SettlementOf(t.settlements, s, seller(s)) && seller(s) in done
      ensures SettlementAmount(t)(s) == Net(t)(seller(s))
    {
      assert RowSettled(t.orders, t.settlements, s);
    }
    forall o | o in done
      ensures exists s :: s in rows && seller(s) == o
    {
      var s :| SettlementOf(t.settlements, s, o);
      assert s in rows && seller(s) == o;
    }
    SumReindex(rows, done, seller, SettlementAmount(t), Net(t));
  }

  /** Orders past payment are held, refunded or completed. */
  lemma PastPaymentSplits(t: Tables)
    ensures Sum(OrdersPastPayment(t), Price(t)) ==
      HeldFunds(t) + RefundedFunds(t) + Sum(OrdersIn(t, OrderCompleted), Price(t))
  {
    var held, refunded, done := OrdersHeld(t), OrdersIn(t, OrderRefunded), OrdersIn(t, OrderCompleted);
    assert OrdersPastPayment(t) == held + refunded + done;
    SumUnion(held, refunded, Price(t));
    SumUnion(held + refunded, done, Price(t));
  }

  /** A completed order's price is the seller's net plus the fee. */
  lemma CompletedSplits(t: Tables)
    requires OrdersOk(t.orders)
    ensures Sum(OrdersIn(t, OrderCompleted), Price(t)) == Sum(OrdersIn(t, OrderCompleted), Net(t)) + PlatformFees(t)
  {
    forall o | o in OrdersIn(t, OrderCompleted)
      ensures Price(t)(o) == Net(t)(o) + Fee(t)(o)
    {
      assert TermsOk(t.orders[o]);
    }
    SumSplit(OrdersIn(t, OrderCompleted), Price(t), Net(t), Fee(t));
  }

  /** What buyers paid in equals what is held, plus what was refunded, plus what sellers were settled,
      plus the platform's fees. */
  lemma MoneyConserved(t: Tables)
    requires Inv(t)
    ensures PaidIn(t) == HeldFunds(t) + RefundedFunds(t) + SettledFunds(t) + PlatformFees(t)
  {
    PaidInByOrder(t);
    PastPaymentSplits(t);
    CompletedSplits(t);
    SettledByOrder(t);
  }

  /** The books balance in every state of every run. */
  lemma BooksAlwaysBalance(ops: seq<Op>)
    ensures var t := Run(EMPTY, ops);
      PaidIn(t) == HeldFunds(t) + RefundedFunds(t) + SettledFunds(t) + PlatformFees(t)
  {
    EveryRunIsSafe(ops);
    MoneyConserved(Run(EMPTY, ops));
  }
}
