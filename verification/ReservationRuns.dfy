/** What the reservation invariant means over whole runs. */
module ReservationRuns {
  import opened Support
  import opened Reservation
  import opened ReservationInvariant
  import opened SlotGeneration

  // ---------- what never goes away ----------

  /** Catalogue rows and closures are never changed, slots never removed or moved. */
  ghost predicate Extends(t: Tables, t': Tables) {
    && (forall v :: v in t.venues ==> v in t'.venues && t'.venues[v] == t.venues[v])
    && (forall r :: r in t.resources ==> r in t'.resources && t'.resources[r] == t.resources[r])
    && (forall c :: c in t.closures ==> c in t'.closures && t'.closures[c] == t.closures[c])
    && SlotsStay(t.slots, t'.slots)
  }

  lemma GenerationExtends(t: Tables, op: Op)
    requires op.DoGenerateDay?
    ensures Extends(t, Apply(t, op))
  {
    var t' := Apply(t, op);
    if t' != t {
      var venue := t.resources[op.resource].venue;
      EnsureGrows(t.slots, DaySlots(t, op.resource, venue, op.list, op.day), op.ids);
    }
  }

  lemma VenueExtends(t: Tables, op: Op)
    requires op.DoCreateVenue?
    ensures Extends(t, Apply(t, op))
  {}

  lemma CatalogExtends(t: Tables, op: Op)
    requires op.DoCreateResource? || op.DoCreateRule?
    ensures Extends(t, Apply(t, op))
  {}

  lemma BookingExtends(t: Tables, op: Op)
    requires op.DoCreateBooking?
    ensures Extends(t, Apply(t, op))
  {}

  lemma UseExtends(t: Tables, op: Op)
    requires op.DoCancelBooking? || op.DoCheckin? || op.DoMarkNoShows?
    ensures Extends(t, Apply(t, op))
  {}

  lemma ClosureExtends(t: Tables, op: Op)
    requires op.DoCreateClosure?
    ensures Extends(t, Apply(t, op))
  {}

  lemma ApplyExtends(t: Tables, op: Op)
    ensures Extends(t, Apply(t, op))
  {
    if op.DoGenerateDay? {
      GenerationExtends(t, op);
    } else if op.DoCreateClosure? {
      ClosureExtends(t, op);
    } else if op.DoCreateVenue? {
      VenueExtends(t, op);
    } else if op.DoCreateResource? || op.DoCreateRule? {
      CatalogExtends(t, op);
    } else if op.DoCreateBooking? {
      BookingExtends(t, op);
    } else {
      UseExtends(t, op);
    }
  }

  lemma {:induction false} RunExtends(t: Tables, ops: seq<Op>)
    ensures Extends(t, Run(t, ops))
    decreases |ops|
  {
    if ops != [] {
      var mid := Run(t, ops[..|ops| - 1]);
      RunExtends(t, ops[..|ops| - 1]);
      ApplyExtends(mid, ops[|ops| - 1]);
    }
  }

  // ---------- every reachable state ----------

  /** The cached seat counter of an open slot is exact and within capacity; a closed slot has none, and
      nobody waiting. */
  lemma CounterIsExact(ops: seq<Op>, s: Id)
    requires s in Run(EMPTY, ops).slots
    ensures var t := Run(EMPTY, ops); var slot := t.slots[s];
      && (slot.open ==> slot.reservedCount == |Occupants(t.bookings, s)| <= slot.capacity)
      && (!slot.open ==> slot.reservedCount == 0)
      && (!slot.open ==> forall b :: b in t.bookings && t.bookings[b].slot == s ==> t.bookings[b].status != BookingReserved)
  {
    RunKeeps(EMPTY, ops);
    assert CounterOk(s, Run(EMPTY, ops).slots[s], Run(EMPTY, ops).bookings);
  }

  /** No user ever holds two overlapping active bookings. */
  lemma NoDoubleBooking(ops: seq<Op>, b: Id, c: Id)
    ensures var t := Run(EMPTY, ops);
      b in t.bookings && c in t.bookings && b != c && t.bookings[b].user == t.bookings[c].user
      && Active(t.bookings[b].status) && Active(t.bookings[c].status) ==>
        && t.bookings[b].slot in t.slots && t.bookings[c].slot in t.slots
        && !Overlap(t.slots[t.bookings[b].slot], t.slots[t.bookings[c].slot])
  {
    RunKeeps(EMPTY, ops);
    var t := Run(EMPTY, ops);
    assert !Clash(t.slots, t.bookings, b, c);
  }

  /** For every active booking, the user's active bookings of that day committed no later than it
      number at most its own venue's daily limit, whatever venues they are at and whatever was
      cancelled in between. */
  lemma DailyLimitHolds(ops: seq<Op>, b: Id)
    requires b in Run(EMPTY, ops).bookings && Active(Run(EMPTY, ops).bookings[b].status)
    ensures var t := Run(EMPTY, ops);
      && t.bookings[b].slot in t.slots
      && |DailyUpTo(t.slots, t.bookings, b)| <= LimitOf(t.venues, t.resources, t.slots[t.bookings[b].slot].resource)
  {
    RunKeeps(EMPTY, ops);
    var t := Run(EMPTY, ops);
    assert WithinLimit(t.venues, t.resources, t.slots, t.bookings, b);
  }

  /** The same count by creation time. */
  ghost function DailyByTime(slots: map<Id, Slot>, bookings: map<Id, Booking>, b: Id): set<Id>
    requires b in bookings && bookings[b].slot in slots
  {
    set c | c in Daily(slots, bookings, bookings[b].user, DayOf(slots[bookings[b].slot].startAt))
            && bookings[c].createdAt <= bookings[b].createdAt
  }

  lemma {:induction false} LastCommitted(bookings: map<Id, Booking>, some: set<Id>, b: Id) returns (last: Id)
    requires b in some && forall x :: x in some ==> x in bookings
    ensures last in some && forall x :: x in some ==> bookings[x].serial <= bookings[last].serial
    decreases |some|
  {
    last := b;
    if x :| x in some && bookings[x].serial > bookings[b].serial {
      var rest := set y | y in some && bookings[y].serial >= bookings[x].serial;
      assert b in some - rest && rest <= some - {b};
      SubsetSize(rest, some - {b});
      last := LastCommitted(bookings, rest, x);
    }
  }

  /** The limit of the venue a booking is at. */
  ghost function OwnLimit(t: Tables, b: Id): int
    requires b in t.bookings && t.bookings[b].slot in t.slots
  {
    LimitOf(t.venues, t.resources, t.slots[t.bookings[b].slot].resource)
  }

  /** None of the day's bookings of the user that carry the same or an earlier time, but were committed
      later, is at a venue that allows more. */
  ghost predicate NoLaxerTie(t: Tables, b: Id)
    requires b in t.bookings && t.bookings[b].slot in t.slots
  {
    forall c :: c in DailyByTime(t.slots, t.bookings, b) && t.bookings[c].serial > t.bookings[b].serial ==> OwnLimit(t, c) <= OwnLimit(t, b)
  }

  /** Ordered by creation time, the bookings number at most the limit of the venue of the last one
      committed; so the limit of a booking's own venue holds unless a laxer venue's booking, committed
      later, carries no later time. */
  lemma DailyLimitByTime(ops: seq<Op>, b: Id) returns (last: Id)
    requires b in Run(EMPTY, ops).bookings && Active(Run(EMPTY, ops).bookings[b].status)
    ensures var t := Run(EMPTY, ops);
      && t.bookings[b].slot in t.slots && last in DailyByTime(t.slots, t.bookings, b)
      && |DailyByTime(t.slots, t.bookings, b)| <= OwnLimit(t, last)
      && (NoLaxerTie(t, b) ==> |DailyByTime(t.slots, t.bookings, b)| <= OwnLimit(t, b))
  {
    DailyLimitHolds(ops, b);
    var t := Run(EMPTY, ops);
    var some := DailyByTime(t.slots, t.bookings, b);
    last := LastCommitted(t.bookings, some, b);
    DailyLimitHolds(ops, last);
    SubsetSize(some, DailyUpTo(t.slots, t.bookings, last));
    RunKeeps(EMPTY, ops);
    if t.bookings[last].serial == t.bookings[b].serial {
      assert SameSerial(t.bookings, last, b);
    }
  }

  /** Cancelling never fails for want of a count to decrement: in a good state the only refusal is the
      deadline. */
  lemma CancelNeverUnderflows(t: Tables, id: Id, user: Id, now: int)
    requires Inv(t)
    ensures CancelBooking(t, id, user, now).Abort? ==> CancelBooking(t, id, user, now).error == CancelDeadline
  {
    if id in t.bookings && t.bookings[id].status == BookingReserved {
      CounterFalls(t.slots, t.bookings, id);
      assert SlotOk(t.resources, t.slots[t.bookings[id].slot]);
    }
  }

  /** Once a closure is committed, in every later state every slot it covers is closed, whether the
      slot was there before or is generated afterwards. */
  lemma ClosedForGood(t: Tables, ops: seq<Op>, c: Id, s: Id)
    requires Inv(t) && c in t.closures
    ensures var t' := Run(t, ops);
      s in t'.slots && Closes(t'.resources, t.closures[c], t'.slots[s]) ==> !t'.slots[s].open && t'.slots[s].reservedCount == 0
  {
    RunKeeps(t, ops);
    RunExtends(t, ops);
    var t' := Run(t, ops);
    if s in t'.slots {
      assert CounterOk(s, t'.slots[s], t'.bookings);
    }
  }

  // ---------- regenerating a day ----------

  /** A day's slots are the slots of its rules, and nothing else. */
  lemma {:induction false} DaySlotsMember(t: Tables, resource: Id, venue: Id, rules: seq<Rule>, day: int, s: Slot)
    requires resource in t.resources && venue in t.venues && t.venues[venue].slotMinutes > 0
    ensures s in DaySlots(t, resource, venue, rules, day) <==>
      exists r, k: nat :: r in rules && k < SlotCount(r, t.venues[venue].slotMinutes) && s == RuleSlot(t, resource, venue, r, day, k)
  {
    if rules != [] {
      var init, last := rules[..|rules| - 1], rules[|rules| - 1];
      DaySlotsMember(t, resource, venue, init, day, s);
      var slots := RuleSlots(t, resource, venue, last, day);
      if s in slots {
        var k :| 0 <= k < |slots| && slots[k] == s;
        assert last in rules && s == RuleSlot(t, resource, venue, last, day, k);
      }
      if r, k: nat :| r in rules && k < SlotCount(r, t.venues[venue].slotMinutes) && s == RuleSlot(t, resource, venue, r, day, k) {
        if r == last {
          assert slots[k] == s;
        } else {
          assert r in init;
        }
      }
    }
  }

  /** A slot of the day, present once the day was generated, is still there after a run. */
  lemma StillThere(t: Tables, slots: map<Id, Slot>, mid: Tables, resource: Id, venue: Id, day: int,
                   list: seq<Rule>, ids: nat -> Id, list': seq<Rule>, s: Slot)
    requires resource in t.resources && venue in t.venues && t.venues[venue].slotMinutes > 0
    requires resource in mid.resources && venue in mid.venues && mid.venues[venue] == t.venues[venue]
    requires EnsureSlots(t.slots, DaySlots(t, resource, venue, list, day), ids) == Some(slots)
    requires SlotsStay(slots, mid.slots) && Elems(list) == Elems(list')
    requires s in DaySlots(mid, resource, venue, list', day)
    ensures HasKey(mid.slots, s)
  {
    var batch := DaySlots(t, resource, venue, list, day);
    DaySlotsMember(mid, resource, venue, list', day, s);
    var r, k: nat :| r in list' && k < SlotCount(r, t.venues[venue].slotMinutes) && s == RuleSlot(mid, resource, venue, r, day, k);
    assert r in Elems(list);
    var first := RuleSlot(t, resource, venue, r, day, k);
    DaySlotsMember(t, resource, venue, list, day, first);
    var j :| 0 <= j < |batch| && batch[j] == first;
    EnsurePresent(t.slots, batch, ids, j);
    var q :| q in slots && SameKey(slots[q], first);
    assert q in mid.slots && SameKey(mid.slots[q], s);
  }

  /** Generate a day, let anything happen, generate it again from the same rules: no slot is changed
      and none is added. */
  lemma RegenerationIsIdle(t: Tables, resource: Id, day: int, list: seq<Rule>, ids: nat -> Id, now: int,
                           ops: seq<Op>, list': seq<Rule>, ids': nat -> Id, later: int)
    requires Inv(t) && RulesFor(t.rules, resource, day, list)
    requires GenerateDay(t, resource, day, list, ids, now).Commit?
    requires day >= DayOf(now) && day <= DayOf(now) + t.venues[t.resources[resource].venue].advanceDays
    requires var mid := Run(GenerateDay(t, resource, day, list, ids, now).db, ops);
      StoredRules(mid.rules, resource, day) == StoredRules(t.rules, resource, day) && RulesFor(mid.rules, resource, day, list')
    ensures var mid := Run(GenerateDay(t, resource, day, list, ids, now).db, ops);
      GenerateDay(mid, resource, day, list', ids', later).After(mid) == mid
  {
    var done := GenerateDay(t, resource, day, list, ids, now).db;
    var mid := Run(done, ops);
    var venue := t.resources[resource].venue;
    RunExtends(done, ops);
    var again := DaySlots(mid, resource, venue, list', day);
    assert Elems(list) == Elems(list');
    forall i | 0 <= i < |again|
      ensures HasKey(mid.slots, again[i])
    {
      StillThere(t, done.slots, mid, resource, venue, day, list, ids, list', again[i]);
    }
    EnsureIdle(mid.slots, again, ids');
  }
}
