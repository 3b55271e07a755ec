/** Slot generation: how many slots a rule yields and where they lie, what inserting a batch does, and
    that every run of reservation transactions keeps the invariant. */
module SlotGeneration {
  import opened Support
  import opened Reservation
  import opened ReservationInvariant

  // ---------- the slots of one rule ----------

  lemma MulMonotone(a: int, b: int, m: int)
    requires a <= b && m >= 0
    ensures a * m <= b * m
  {}

  /** A rule yields exactly floor((end - start) / length) slots: they fit, one more would not. */
  lemma SlotCountExact(rule: Rule, minutes: int)
    requires RuleOk(rule) && minutes > 0
    ensures var n := SlotCount(rule, minutes);
      n * minutes <= rule.endMinute - rule.startMinute < (n + 1) * minutes
  {
    var span := rule.endMinute - rule.startMinute;
    assert span == minutes * (span / minutes) + span % minutes;
  }

  lemma SlotOffset(rule: Rule, minutes: int, k: nat)
    requires RuleOk(rule) && minutes > 0 && k < SlotCount(rule, minutes)
    ensures 0 <= k * minutes && rule.startMinute + k * minutes + minutes <= rule.endMinute
  {
    SlotCountExact(rule, minutes);
    MulMonotone(k + 1, SlotCount(rule, minutes), minutes);
    MulMonotone(0, k, minutes);
  }

  /** Each slot of a rule lies inside the rule and inside the day, and starts where the one before
      it ends. */
  lemma RuleSlotShape(t: Tables, resource: Id, venue: Id, rule: Rule, day: int, k: nat)
    requires resource in t.resources && venue in t.venues && t.venues[venue].slotMinutes > 0 && RuleOk(rule)
    requires k < SlotCount(rule, t.venues[venue].slotMinutes)
    ensures var s := RuleSlot(t, resource, venue, rule, day, k);
      && day * DAY + rule.startMinute * MINUTE <= s.startAt < s.endAt <= day * DAY + rule.endMinute * MINUTE
      && DayOf(s.startAt) == day && s.endAt <= (day + 1) * DAY
      && s.endAt - s.startAt == t.venues[venue].slotMinutes * MINUTE
      && (k == 0 ==> s.startAt == day * DAY + rule.startMinute * MINUTE)
      && (k > 0 ==> s.startAt == RuleSlot(t, resource, venue, rule, day, k - 1).endAt)
  {
    var minutes := t.venues[venue].slotMinutes;
    SlotOffset(rule, minutes, k);
    assert (k - 1) * minutes + minutes == k * minutes;
    var s := RuleSlot(t, resource, venue, rule, day, k);
    var offset := rule.startMinute + k * minutes;
    assert s.startAt == day * DAY + offset * MINUTE && 0 <= offset < 1440;
  }

  /** What every generated slot of a day looks like. */
  ghost predicate Fresh(t: Tables, resource: Id, venue: Id, day: int, s: Slot) {
    && s.resource == resource && resource in t.resources && s.capacity == t.resources[resource].capacity
    && s.reservedCount == 0
    && s.startAt < s.endAt && DayOf(s.startAt) == day && s.endAt <= (day + 1) * DAY
    && (s.open <==> !HasClosure(t.closures, venue, resource, s.startAt, s.endAt))
  }

  lemma {:induction false} DaySlotsFresh(t: Tables, resource: Id, venue: Id, rules: seq<Rule>, day: int)
    requires resource in t.resources && venue in t.venues && t.venues[venue].slotMinutes > 0
    requires forall r :: r in rules ==> RuleOk(r)
    ensures forall s :: s in DaySlots(t, resource, venue, rules, day) ==> Fresh(t, resource, venue, day, s)
  {
    if rules != [] {
      var rule := rules[|rules| - 1];
      DaySlotsFresh(t, resource, venue, rules[..|rules| - 1], day);
      forall s | s in RuleSlots(t, resource, venue, rule, day)
        ensures Fresh(t, resource, venue, day, s)
      {
        var k :| 0 <= k < |RuleSlots(t, resource, venue, rule, day)| && RuleSlots(t, resource, venue, rule, day)[k] == s;
        RuleSlotShape(t, resource, venue, rule, day, k);
      }
    }
  }

  /** Any two overlapping slots lie on the same day, so the lock on (user, day) that a booking takes
      covers every booking it could conflict with. */
  lemma OverlapSharesDay(t: Tables, a: Id, b: Id)
    requires Inv(t) && a in t.slots && b in t.slots && Overlap(t.slots[a], t.slots[b])
    ensures DayOf(t.slots[a].startAt) == DayOf(t.slots[b].startAt)
  {
    assert SlotOk(t.resources, t.slots[a]) && SlotOk(t.resources, t.slots[b]);
  }

  // ---------- inserting a batch ----------

  /** Inserting a batch keeps every row as it is and adds only rows of the batch. */
  lemma {:induction false} EnsureGrows(slots: map<Id, Slot>, batch: seq<Slot>, ids: nat -> Id)
    requires EnsureSlots(slots, batch, ids).Some?
    ensures var m := EnsureSlots(slots, batch, ids).value;
      && (forall s :: s in slots ==> s in m && m[s] == slots[s])
      && (forall s :: s in m && s !in slots ==> m[s] in batch)
    decreases |batch|
  {
    if batch != [] {
      EnsureGrows(slots, batch[..|batch| - 1], ids);
    }
  }

  /** Keys stay unique. */
  lemma {:induction false} EnsureUnique(slots: map<Id, Slot>, batch: seq<Slot>, ids: nat -> Id)
    requires forall s, u :: Twins(slots, s, u) ==> s == u
    requires EnsureSlots(slots, batch, ids).Some?
    ensures forall s, u :: Twins(EnsureSlots(slots, batch, ids).value, s, u) ==> s == u
    decreases |batch|
  {
    if batch != [] {
      var n := |batch| - 1;
      EnsureUnique(slots, batch[..n], ids);
      var before := EnsureSlots(slots, batch[..n], ids).value;
      if !HasKey(before, batch[n]) {
        var m := before[ids(n) := batch[n]];
        forall s, u | Twins(m, s, u)
          ensures s == u
        {
          if s != ids(n) && u != ids(n) {
            assert Twins(before, s, u);
          } else if s != u {
            var k := if s == ids(n) then u else s;
            assert k in before && SameKey(before[k], batch[n]);
          }
        }
      }
    }
  }

  /** Afterwards every key of the batch is present. */
  lemma {:induction false} EnsurePresent(slots: map<Id, Slot>, batch: seq<Slot>, ids: nat -> Id, k: nat)
    requires EnsureSlots(slots, batch, ids).Some? && k < |batch|
    ensures HasKey(EnsureSlots(slots, batch, ids).value, batch[k])
    decreases |batch|
  {
    var n := |batch| - 1;
    var before := EnsureSlots(slots, batch[..n], ids).value;
    var m := EnsureSlots(slots, batch, ids).value;
    if k < n {
      EnsurePresent(slots, batch[..n], ids, k);
      var q :| q in before && SameKey(before[q], batch[..n][k]);
      assert q in m && SameKey(m[q], batch[k]);
    } else if !HasKey(before, batch[n]) {
      assert ids(n) in m && SameKey(m[ids(n)], batch[n]);
    }
  }

  /** A batch whose keys all exist changes nothing. */
  lemma {:induction false} EnsureIdle(slots: map<Id, Slot>, batch: seq<Slot>, ids: nat -> Id)
    requires forall k :: 0 <= k < |batch| ==> HasKey(slots, batch[k])
    ensures EnsureSlots(slots, batch, ids) == Some(slots)
    decreases |batch|
  {
    if batch != [] {
      EnsureIdle(slots, batch[..|batch| - 1], ids);
      assert HasKey(slots, batch[|batch| - 1]);
    }
  }

  /** Closing and generating judge a closure alike: for a slot of a resource, the closures that would
      close it are the closures generation looks for. */
  lemma SameRelation(resources: map<Id, Resource>, c: Closure, s: Slot)
    requires s.resource in resources && ClosureNamed(c)
    ensures Closes(resources, c, s) <==> Blocks(c, resources[s.resource].venue, s.resource, s.startAt, s.endAt)
  {}

  /** A slot of the batch whose key was missing is really inserted, possibly by an equal slot. */
  lemma MissingIsInserted(slots: map<Id, Slot>, batch: seq<Slot>, ids: nat -> Id, s: Slot) returns (q: Id)
    requires EnsureSlots(slots, batch, ids).Some? && s in batch && !HasKey(slots, s)
    ensures var m := EnsureSlots(slots, batch, ids).value;
      q in m && q !in slots && SameKey(m[q], s) && m[q] in batch
  {
    var k :| 0 <= k < |batch| && batch[k] == s;
    EnsurePresent(slots, batch, ids, k);
    EnsureGrows(slots, batch, ids);
    var m := EnsureSlots(slots, batch, ids).value;
    q :| q in m && SameKey(m[q], s);
  }

  /** A row that an insert added has a key that was missing. */
  lemma InsertedWasMissing(slots: map<Id, Slot>, batch: seq<Slot>, ids: nat -> Id, q: Id)
    requires forall s, u :: Twins(slots, s, u) ==> s == u
    requires EnsureSlots(slots, batch, ids).Some? && q in EnsureSlots(slots, batch, ids).value && q !in slots
    ensures !HasKey(slots, EnsureSlots(slots, batch, ids).value[q])
  {
    EnsureUnique(slots, batch, ids);
    EnsureGrows(slots, batch, ids);
    var m := EnsureSlots(slots, batch, ids).value;
    forall k | k in slots
      ensures !SameKey(slots[k], m[q])
    {
      assert m[k] == slots[k] && !Twins(m, k, q);
    }
  }

  /** The closure checks run against `before`, the insert against a later state `t`.  Closures still win
      afterwards exactly when no slot that passed the checks and is missing from the table is covered
      by a closure committed by then. */
  lemma SplitGenerationSafeIff(before: Tables, t: Tables, resource: Id, venue: Id, list: seq<Rule>, day: int, ids: nat -> Id)
    requires resource in before.resources && venue in before.venues && before.venues[venue].slotMinutes > 0
    requires forall r :: r in list ==> RuleOk(r)
    requires Inv(t) && resource in t.resources && t.resources[resource].venue == venue
    requires EnsureSlots(t.slots, DaySlots(before, resource, venue, list, day), ids).Some?
    ensures var batch := DaySlots(before, resource, venue, list, day);
      ClosuresWin(t.resources, t.closures, EnsureSlots(t.slots, batch, ids).value) <==>
        forall s :: s in batch && s.open && !HasKey(t.slots, s) ==>
          !HasClosure(t.closures, venue, resource, s.startAt, s.endAt)
  {
    var batch := DaySlots(before, resource, venue, list, day);
    DaySlotsFresh(before, resource, venue, list, day);
    var m := EnsureSlots(t.slots, batch, ids).value;
    if ClosuresWin(t.resources, t.closures, m) {
      forall s | s in batch && s.open && !HasKey(t.slots, s)
        ensures !HasClosure(t.closures, venue, resource, s.startAt, s.endAt)
      {
        var q := MissingIsInserted(t.slots, batch, ids, s);
        assert Fresh(before, resource, venue, day, m[q]) && Fresh(before, resource, venue, day, s);
        forall c | c in t.closures
          ensures !Blocks(t.closures[c], venue, resource, s.startAt, s.endAt)
        {
          SameRelation(t.resources, t.closures[c], m[q]);
        }
      }
    }
    if forall s :: s in batch && s.open && !HasKey(t.slots, s) ==> !HasClosure(t.closures, venue, resource, s.startAt, s.endAt) {
      EnsureGrows(t.slots, batch, ids);
      forall c, q | c in t.closures && q in m && Closes(t.resources, t.closures[c], m[q])
        ensures !m[q].open
      {
        if q !in t.slots {
          InsertedWasMissing(t.slots, batch, ids, q);
          assert Fresh(before, resource, venue, day, m[q]);
          SameRelation(t.resources, t.closures[c], m[q]);
        }
      }
    }
  }

  // ---------- generation keeps the invariant ----------

  lemma FreshIsOk(t: Tables, resource: Id, venue: Id, day: int, s: Slot)
    requires ResourcesOk(t.venues, t.resources) && Fresh(t, resource, venue, day, s)
    ensures SlotOk(t.resources, s)
  {}

  lemma GenerationSlots(t: Tables, resource: Id, venue: Id, day: int, batch: seq<Slot>, ids: nat -> Id)
    requires SlotsOk(t.resources, t.slots) && ResourcesOk(t.venues, t.resources)
    requires forall s :: s in batch ==> Fresh(t, resource, venue, day, s)
    requires EnsureSlots(t.slots, batch, ids).Some?
    ensures SlotsOk(t.resources, EnsureSlots(t.slots, batch, ids).value)
    ensures SlotsStay(t.slots, EnsureSlots(t.slots, batch, ids).value)
  {
    EnsureGrows(t.slots, batch, ids);
    EnsureUnique(t.slots, batch, ids);
    var m := EnsureSlots(t.slots, batch, ids).value;
    forall s | s in m
      ensures SlotOk(t.resources, m[s])
    {
      if s !in t.slots {
        FreshIsOk(t, resource, venue, day, m[s]);
      }
    }
  }

  /** Nobody has booked a slot that did not exist: its counter starts right. */
  lemma GenerationCounters(t: Tables, resource: Id, venue: Id, day: int, batch: seq<Slot>, ids: nat -> Id)
    requires ResourcesOk(t.venues, t.resources) && BookingsOk(t.slots, t.bookings) && CountersOk(t.slots, t.bookings)
    requires forall s :: s in batch ==> Fresh(t, resource, venue, day, s)
    requires EnsureSlots(t.slots, batch, ids).Some?
    ensures CountersOk(EnsureSlots(t.slots, batch, ids).value, t.bookings)
  {
    EnsureGrows(t.slots, batch, ids);
    var m := EnsureSlots(t.slots, batch, ids).value;
    forall s | s in m
      ensures CounterOk(s, m[s], t.bookings)
    {
      if s in t.slots {
        assert CounterOk(s, t.slots[s], t.bookings);
      } else {
        assert Fresh(t, resource, venue, day, m[s]);
        assert Occupants(t.bookings, s) == {};
      }
    }
  }

  lemma GenerationClosures(t: Tables, resource: Id, venue: Id, day: int, batch: seq<Slot>, ids: nat -> Id)
    requires ClosuresWin(t.resources, t.closures, t.slots)
    requires resource in t.resources && t.resources[resource].venue == venue
    requires forall s :: s in batch ==> Fresh(t, resource, venue, day, s)
    requires EnsureSlots(t.slots, batch, ids).Some?
    ensures ClosuresWin(t.resources, t.closures, EnsureSlots(t.slots, batch, ids).value)
  {
    EnsureGrows(t.slots, batch, ids);
    var m := EnsureSlots(t.slots, batch, ids).value;
    forall c, s | c in t.closures && s in m && Closes(t.resources, t.closures[c], m[s])
      ensures !m[s].open
    {
      if s !in t.slots {
        assert Fresh(t, resource, venue, day, m[s]);
        SameRelation(t.resources, t.closures[c], m[s]);
      }
    }
  }

  lemma GenerateDayKeeps(t: Tables, resource: Id, day: int, list: seq<Rule>, ids: nat -> Id, now: int)
    requires Inv(t) && RulesFor(t.rules, resource, day, list)
    ensures Inv(GenerateDay(t, resource, day, list, ids, now).After(t))
  {
    var t' := GenerateDay(t, resource, day, list, ids, now).After(t);
    if t' != t {
      var venue := t.resources[resource].venue;
      var batch := DaySlots(t, resource, venue, list, day);
      forall r | r in list
        ensures RuleOk(r)
      {
        assert r in Elems(list);
      }
      DaySlotsFresh(t, resource, venue, list, day);
      GenerationSlots(t, resource, venue, day, batch, ids);
      GenerationCounters(t, resource, venue, day, batch, ids);
      GenerationClosures(t, resource, venue, day, batch, ids);
      WeakerKeeps(t, t.closures, t'.slots, t.bookings);
    }
  }

  lemma CreateVenueKeeps(t: Tables, id: Id, advance: int, minutes: int, limit: int, cancel: int)
    requires Inv(t)
    ensures Inv(CreateVenue(t, id, advance, minutes, limit, cancel).After(t))
  {
    if id !in t.venues {
      CatalogStays(t, t.venues[id := CreateVenue(t, id, advance, minutes, limit, cancel).db.venues[id]], t.resources);
    }
  }

  lemma CreateResourceKeeps(t: Tables, id: Id, venue: Id, capacity: int)
    requires Inv(t)
    ensures Inv(CreateResource(t, id, venue, capacity).After(t))
  {
    if id !in t.resources && venue in t.venues {
      CatalogStays(t, t.venues, t.resources[id := CreateResource(t, id, venue, capacity).db.resources[id]]);
    }
  }

  /** Nothing but generation looks at the rules. */
  lemma RulesStay(t: Tables, rules: map<Id, Rule>)
    requires Inv(t) && RulesOk(rules)
    ensures Inv(t.(rules := rules))
  {}

  /** A new rule is within the day, or refused. */
  lemma CreateRuleEffect(t: Tables, id: Id, rule: Rule)
    requires RulesOk(t.rules)
    ensures var t' := CreateRule(t, id, rule).After(t); t' == t.(rules := t'.rules) && RulesOk(t'.rules)
  {}

  lemma CreateRuleKeeps(t: Tables, id: Id, rule: Rule)
    requires Inv(t)
    ensures Inv(CreateRule(t, id, rule).After(t))
  {
    CreateRuleEffect(t, id, rule);
    RulesStay(t, CreateRule(t, id, rule).After(t).rules);
  }

  lemma BookingOpKeeps(t: Tables, op: Op)
    requires Inv(t) && (op.DoCreateBooking? || op.DoCancelBooking? || op.DoCheckin? || op.DoMarkNoShows?)
    ensures Inv(Apply(t, op))
  {
    if op.DoCreateBooking? {
      CreateBookingKeeps(t, op.id, op.user, op.slot, op.code, op.now);
    } else if op.DoCancelBooking? {
      CancelBookingKeeps(t, op.id, op.user, op.now);
    } else if op.DoCheckin? {
      CheckinKeeps(t, op.code);
    } else {
      MarkNoShowsKeeps(t, op.now);
    }
  }

  /** Every reservation transaction keeps the invariant. */
  lemma ApplyKeeps(t: Tables, op: Op)
    requires Inv(t)
    ensures Inv(Apply(t, op))
  {
    if op.DoCreateVenue? {
      CreateVenueKeeps(t, op.id, op.advanceDays, op.slotMinutes, op.dailyLimit, op.cancelBefore);
    } else if op.DoCreateResource? {
      CreateResourceKeeps(t, op.id, op.venue, op.capacity);
    } else if op.DoCreateRule? {
      CreateRuleKeeps(t, op.id, op.rule);
    } else if op.DoCreateClosure? {
      CreateClosureKeeps(t, op.id, op.closure);
    } else if op.DoGenerateDay? {
      if RulesFor(t.rules, op.resource, op.day, op.list) {
        GenerateDayKeeps(t, op.resource, op.day, op.list, op.ids, op.now);
      }
    } else {
      BookingOpKeeps(t, op);
    }
  }

  lemma {:induction false} RunKeeps(t: Tables, ops: seq<Op>)
    requires Inv(t)
    ensures Inv(Run(t, ops))
    decreases |ops|
  {
    if ops != [] {
      RunKeeps(t, ops[..|ops| - 1]);
      ApplyKeeps(Run(t, ops[..|ops| - 1]), ops[|ops| - 1]);
    }
  }

  // ---------- the race between a check and a closure ----------

  /** A room open from midnight to one o'clock on the weekday of day 0. */
  const MORNING := Rule(Id(2), 4, 0, 60, true)
  const CLOSED_DAY := Closure(Some(Id(1)), None, 0, DAY)
  const OPENING := [
    DoCreateVenue(Id(1), 7, 60, 2, 120), DoCreateResource(Id(2), Id(1), 1), DoCreateRule(Id(5), MORNING)]
  const BEFORE := Tables(map[Id(1) := Venue(true, 7, 60, 2, 120)], map[Id(2) := Resource(Id(1), 1, true)],
                         map[Id(5) := MORNING], map[], map[], map[])
  const AFTER := BEFORE.(closures := map[Id(3) := CLOSED_DAY])

  function FourthId(k: nat): Id { Id(4) }

  /** The state in which the day's slots are computed is reached, and so is the state the closure
      leaves: nothing had to be closed yet. */
  lemma RaceReached()
    ensures Run(EMPTY, OPENING) == BEFORE
    ensures Run(EMPTY, OPENING + [DoCreateClosure(Id(3), CLOSED_DAY)]) == AFTER
    ensures RulesFor(BEFORE.rules, Id(2), 0, [MORNING])
  {
    assert OPENING[..2][..1] == OPENING[..1] && OPENING[..1][..0] == [];
    assert Run(EMPTY, OPENING[..1]) == EMPTY.(venues := BEFORE.venues);
    assert Run(EMPTY, OPENING[..2]) == EMPTY.(venues := BEFORE.venues, resources := BEFORE.resources);
    var ops := OPENING + [DoCreateClosure(Id(3), CLOSED_DAY)];
    assert ops[..3] == OPENING;
    var r := CreateClosure(BEFORE, Id(3), CLOSED_DAY);
    assert r.db.slots == map[] && r.db.bookings == map[];
    assert BEFORE.rules[Id(5)] == MORNING && [MORNING][0] == MORNING;
  }

  /** The code computes the day's slots, a closure of the day is committed, and the slots are inserted:
      afterwards an open slot overlaps a covering closure. */
  lemma StaleCheckLosesClosure() returns (slots: map<Id, Slot>)
    ensures var before, t := Run(EMPTY, OPENING), Run(EMPTY, OPENING + [DoCreateClosure(Id(3), CLOSED_DAY)]);
      && RulesFor(before.rules, Id(2), 0, [MORNING])
      && Id(2) in before.resources && Id(1) in before.venues && before.venues[Id(1)].slotMinutes > 0
      && EnsureSlots(t.slots, DaySlots(before, Id(2), Id(1), [MORNING], 0), FourthId) == Some(slots)
      && !ClosuresWin(t.resources, t.closures, slots)
  {
    RaceReached();
    var stale := RuleSlot(BEFORE, Id(2), Id(1), MORNING, 0, 0);
    OneMorningSlot();
    assert [stale][..0] == [];
    slots := map[Id(4) := stale];
    assert EnsureSlots(AFTER.slots, [stale], FourthId) == Some(slots);
    assert stale.open && Closes(AFTER.resources, CLOSED_DAY, stale);
    assert Id(3) in AFTER.closures && AFTER.closures[Id(3)] == CLOSED_DAY && Id(4) in slots && slots[Id(4)] == stale;
  }

  lemma OneMorningSlot()
    ensures DaySlots(BEFORE, Id(2), Id(1), [MORNING], 0) == [RuleSlot(BEFORE, Id(2), Id(1), MORNING, 0, 0)]
  {
    assert SlotCount(MORNING, 60) == 1;
    assert [MORNING][..0] == [];
    assert RuleSlots(BEFORE, Id(2), Id(1), MORNING, 0) == [RuleSlot(BEFORE, Id(2), Id(1), MORNING, 0, 0)];
  }
}
