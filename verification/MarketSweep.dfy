/** The expiry job: what one sweep over the overdue orders does, and how many sweeps clear them. */
module MarketSweep {
  import opened Support
  import opened Market
  import opened MarketInvariant

  /** The orders the job has to cancel at a given time. */
  ghost function Overdue(t: Tables, now: int): set<Id> {
    set o | o in t.orders && t.orders[o].status == OrderPendingPayment && t.orders[o].expiresAt <= now
  }

  /** The item still points at one of these orders, its own. */
  ghost predicate Freed(t: Tables, ids: set<Id>, i: Id)
    requires i in t.items
  {
    match t.items[i].reservedOrder
    case Some(o) => o in ids && o in t.orders && t.orders[o].item == i
    case None => false
  }

  /** Exactly these orders cancelled, exactly the items pointing at them freed, all else as it was. */
  ghost function Swept(t: Tables, ids: set<Id>, now: int): Tables {
    t.(orders := map o | o in t.orders ::
         if o in ids then t.orders[o].(status := OrderCancelled, cancelledAt := Some(now)) else t.orders[o],
       items := map i | i in t.items ::
         if Freed(t, ids, i) then t.items[i].(status := ItemPublished, reservedOrder := None) else t.items[i])
  }

  /** Expiring one more overdue order extends the sweep by it. */
  lemma SweptMore(t: Tables, ids: set<Id>, id: Id, now: int)
    requires id !in ids && id in Overdue(t, now)
    ensures ExpireOrder(Swept(t, ids, now), id, now) == Commit(Swept(t, ids + {id}, now), true)
  {
    var mid, end := Swept(t, ids, now), Swept(t, ids + {id}, now);
    assert mid.orders[id] == t.orders[id];
    assert mid.orders[id := mid.orders[id].(status := OrderCancelled, cancelledAt := Some(now))] == end.orders;
    assert Release(mid.items, t.orders[id].item, id) == end.items;
  }

  lemma SweptNone(t: Tables, now: int)
    ensures Swept(t, {}, now) == t
  {
    assert Swept(t, {}, now).orders == t.orders;
    assert Swept(t, {}, now).items == t.items;
  }

  lemma SweptOverdue(t: Tables, ids: set<Id>, now: int)
    requires ids <= Overdue(t, now)
    ensures Overdue(Swept(t, ids, now), now) == Overdue(t, now) - ids
  {}

  lemma SweptByExpiry(t: Tables, ids: set<Id>, id: Id, now: int)
    requires id in ids && ids <= Overdue(t, now)
    ensures Apply(Swept(t, ids - {id}, now), DoExpireOrder(id, now)) == Swept(t, ids, now)
  {
    SweptMore(t, ids - {id}, id, now);
    assert ids - {id} + {id} == ids;
  }

  /** A sweep keeps the invariant: it is a run of expiries. */
  lemma {:induction false} SweptKeeps(t: Tables, ids: set<Id>, now: int)
    requires Inv(t) && ids <= Overdue(t, now)
    ensures Inv(Swept(t, ids, now))
    decreases |ids|
  {
    if id :| id in ids {
      var mid := Swept(t, ids - {id}, now);
      SweptKeeps(t, ids - {id}, now);
      SweptByExpiry(t, ids, id, now);
      ExpireOrderKeeps(mid, DoExpireOrder(id, now));
    } else {
      SweptNone(t, now);
      assert ids == {};
    }
  }

  ghost function Min(a: nat, b: nat): nat { if a < b then a else b }

  /** One run of the job: it takes up to a hundred overdue orders. */
  ghost predicate SweepStep(t: Tables, t': Tables, now: int) {
    exists ids :: ids <= Overdue(t, now) && |ids| == Min(SWEEP_LIMIT, |Overdue(t, now)|) && t' == Swept(t, ids, now)
  }

  lemma OneSweep(t: Tables, t': Tables, now: int)
    requires SweepStep(t, t', now)
    ensures |Overdue(t', now)| == |Overdue(t, now)| - Min(SWEEP_LIMIT, |Overdue(t, now)|)
  {
    var ids :| ids <= Overdue(t, now) && |ids| == Min(SWEEP_LIMIT, |Overdue(t, now)|) && t' == Swept(t, ids, now);
    SweptOverdue(t, ids, now);
    assert Overdue(t, now) - ids + ids == Overdue(t, now);
  }

  /** After k sweeps at a fixed time, the n overdue orders are down by a hundred each, to none. */
  lemma {:induction false} SweepsDrain(states: seq<Tables>, now: int, k: nat)
    requires k < |states|
    requires forall i :: 0 <= i < |states| - 1 ==> SweepStep(states[i], states[i + 1], now)
    ensures |Overdue(states[k], now)| ==
      var n := |Overdue(states[0], now)|; if n <= SWEEP_LIMIT * k then 0 else n - SWEEP_LIMIT * k
  {
    if k > 0 {
      SweepsDrain(states, now, k - 1);
      assert SweepStep(states[k - 1], states[k - 1 + 1], now);
      OneSweep(states[k - 1], states[k], now);
    }
  }

  /** So ceil(n / 100) sweeps leave no overdue order. */
  lemma EnoughSweeps(states: seq<Tables>, now: int)
    requires |states| > 0
    requires forall i :: 0 <= i < |states| - 1 ==> SweepStep(states[i], states[i + 1], now)
    requires |states| - 1 == (|Overdue(states[0], now)| + SWEEP_LIMIT - 1) / SWEEP_LIMIT
    ensures Overdue(states[|states| - 1], now) == {}
  {
    SweepsDrain(states, now, |states| - 1);
  }
}
