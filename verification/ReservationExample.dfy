/** Two bookings of one user stamped with the same time: counted by creation time, the day's limit of
    the first one's venue is exceeded, although each booking was within its limit when it was made. */
module ReservationExample {
  import opened Support
  import opened Reservation
  import opened ReservationInvariant
  import opened ReservationRuns

  const STRICT := Venue(true, 7, 60, 1, 120)
  const RELAXED := Venue(true, 7, 60, 2, 120)
  const ONE_TO_TWO := Rule(Id(3), 4, 60, 120, true)
  const TWO_TO_THREE := Rule(Id(4), 4, 120, 180, true)
  const FIRST_SLOT := Slot(Id(3), 60 * MINUTE, 120 * MINUTE, 1, 0, true)
  const SECOND_SLOT := Slot(Id(4), 120 * MINUTE, 180 * MINUTE, 1, 0, true)
  const FIRST := Booking(Id(20), Id(7), BookingReserved, "a", 0, 0)
  const SECOND := Booking(Id(20), Id(8), BookingReserved, "b", 1, 0)

  function Seventh(k: nat): Id { Id(7) }

  function Eighth(k: nat): Id { Id(8) }

  ghost predicate Reachable(t: Tables) {
    exists ops :: Run(EMPTY, ops) == t
  }

  lemma ReachStep(t: Tables, op: Op, t': Tables)
    requires Reachable(t) && Apply(t, op) == t'
    ensures Reachable(t')
  {
    var ops :| Run(EMPTY, ops) == t;
    assert (ops + [op])[..|ops|] == ops;
    assert Run(EMPTY, ops + [op]) == t';
  }

  // ---------- the states of the run ----------

  const CATALOG := Tables(
    map[Id(1) := STRICT, Id(2) := RELAXED], map[Id(3) := Resource(Id(1), 1, true), Id(4) := Resource(Id(2), 1, true)],
    map[Id(5) := ONE_TO_TWO, Id(6) := TWO_TO_THREE], map[], map[], map[])

  const ONE_SLOT := CATALOG.(slots := map[Id(7) := FIRST_SLOT])
  const TWO_SLOTS := CATALOG.(slots := map[Id(7) := FIRST_SLOT, Id(8) := SECOND_SLOT])
  const BOOKED_ONCE := CATALOG.(
    slots := map[Id(7) := FIRST_SLOT.(reservedCount := 1), Id(8) := SECOND_SLOT], bookings := map[Id(9) := FIRST])
  const BOOKED_TWICE := CATALOG.(
    slots := map[Id(7) := FIRST_SLOT.(reservedCount := 1), Id(8) := SECOND_SLOT.(reservedCount := 1)],
    bookings := map[Id(9) := FIRST, Id(10) := SECOND])

  // ---------- what each transaction makes of them ----------

  lemma FirstDay()
    ensures GenerateDay(CATALOG, Id(3), 0, [ONE_TO_TWO], Seventh, 0) == Commit(ONE_SLOT, ())
    ensures RulesFor(CATALOG.rules, Id(3), 0, [ONE_TO_TWO])
  {
    assert [ONE_TO_TWO][0] == ONE_TO_TWO && CATALOG.rules[Id(5)] == ONE_TO_TWO && Weekday(0) == 4;
    OneSlot(CATALOG, Id(3), Id(1), ONE_TO_TWO, FIRST_SLOT);
    OneInsert(CATALOG.slots, FIRST_SLOT, Seventh);
  }

  lemma SecondDay()
    ensures GenerateDay(ONE_SLOT, Id(4), 0, [TWO_TO_THREE], Eighth, 0) == Commit(TWO_SLOTS, ())
    ensures RulesFor(ONE_SLOT.rules, Id(4), 0, [TWO_TO_THREE])
  {
    assert [TWO_TO_THREE][0] == TWO_TO_THREE && ONE_SLOT.rules[Id(6)] == TWO_TO_THREE && Weekday(0) == 4;
    OneSlot(ONE_SLOT, Id(4), Id(2), TWO_TO_THREE, SECOND_SLOT);
    OneInsert(ONE_SLOT.slots, SECOND_SLOT, Eighth);
  }

  /** A rule of one hour makes one slot of one hour. */
  lemma OneSlot(t: Tables, resource: Id, venue: Id, rule: Rule, s: Slot)
    requires resource in t.resources && venue in t.venues && t.venues[venue].slotMinutes == 60 && t.closures == map[]
    requires rule.endMinute - rule.startMinute == 60
    requires s == Slot(resource, rule.startMinute * MINUTE, rule.endMinute * MINUTE, t.resources[resource].capacity, 0, true)
    ensures DaySlots(t, resource, venue, [rule], 0) == [s]
  {
    assert SlotCount(rule, 60) == 1;
    assert RuleSlots(t, resource, venue, rule, 0) == [s];
    assert [rule][..0] == [];
  }

  lemma OneInsert(slots: map<Id, Slot>, s: Slot, ids: nat -> Id)
    requires !HasKey(slots, s) && ids(0) !in slots
    ensures EnsureSlots(slots, [s], ids) == Some(slots[ids(0) := s])
  {
    assert [s][..0] == [];
  }

  /** The guards of a booking, one by one. */
  ghost predicate GuardsPass(t: Tables, id: Id, user: Id, slot: Id, code: string, now: int) {
    && id !in t.bookings && !CodeTaken(t.bookings, code)
    && slot in t.slots && t.slots[slot].open && t.slots[slot].reservedCount < t.slots[slot].capacity && t.slots[slot].startAt > now
    && t.slots[slot].resource in t.resources && t.resources[t.slots[slot].resource].active
    && var v := t.resources[t.slots[slot].resource].venue;
       && v in t.venues && t.venues[v].active
       && t.slots[slot].startAt < (DayOf(now) + t.venues[v].advanceDays + 1) * DAY
       && |Daily(t.slots, t.bookings, user, DayOf(t.slots[slot].startAt))| < t.venues[v].dailyLimit
       && !Conflict(t.slots, t.bookings, user, t.slots[slot])
  }

  lemma Books(t: Tables, id: Id, user: Id, slot: Id, code: string, now: int)
    requires GuardsPass(t, id, user, slot, code, now)
    ensures CreateBooking(t, id, user, slot, code, now) == Commit(
      t.(slots := Reserve(t.slots, slot), bookings := t.bookings[id := Booking(user, slot, BookingReserved, code, |t.bookings|, now)]), ())
  {}

  lemma FirstMayBook()
    ensures GuardsPass(TWO_SLOTS, Id(9), Id(20), Id(7), "a", 0)
  {
    assert Daily(TWO_SLOTS.slots, TWO_SLOTS.bookings, Id(20), DayOf(60 * MINUTE)) == {};
  }

  lemma FirstBooking()
    ensures CreateBooking(TWO_SLOTS, Id(9), Id(20), Id(7), "a", 0) == Commit(BOOKED_ONCE, ())
  {
    FirstMayBook();
    Books(TWO_SLOTS, Id(9), Id(20), Id(7), "a", 0);
    FirstState();
  }

  lemma FirstState()
    ensures Reserve(TWO_SLOTS.slots, Id(7)) == BOOKED_ONCE.slots
    ensures TWO_SLOTS.bookings[Id(9) := Booking(Id(20), Id(7), BookingReserved, "a", |TWO_SLOTS.bookings|, 0)] == BOOKED_ONCE.bookings
  {}

  lemma SecondMayBook()
    ensures GuardsPass(BOOKED_ONCE, Id(10), Id(20), Id(8), "b", 0)
  {
    assert Daily(BOOKED_ONCE.slots, BOOKED_ONCE.bookings, Id(20), DayOf(120 * MINUTE)) == {Id(9)};
    assert "a"[0] != "b"[0];
  }

  lemma SecondBooking()
    ensures CreateBooking(BOOKED_ONCE, Id(10), Id(20), Id(8), "b", 0) == Commit(BOOKED_TWICE, ())
  {
    SecondMayBook();
    Books(BOOKED_ONCE, Id(10), Id(20), Id(8), "b", 0);
    SecondState();
  }

  lemma SecondState()
    ensures Reserve(BOOKED_ONCE.slots, Id(8)) == BOOKED_TWICE.slots
    ensures BOOKED_ONCE.bookings[Id(10) := Booking(Id(20), Id(8), BookingReserved, "b", |BOOKED_ONCE.bookings|, 0)] == BOOKED_TWICE.bookings
  {
    assert BOOKED_ONCE.bookings.Keys == {Id(9)} && |BOOKED_ONCE.bookings| == |BOOKED_ONCE.bookings.Keys| == 1;
  }

  // ---------- the run ----------

  lemma VenuesReached()
    ensures Reachable(EMPTY.(venues := CATALOG.venues))
  {
    assert Run(EMPTY, []) == EMPTY;
    var t1 := EMPTY.(venues := map[Id(1) := STRICT]);
    ReachStep(EMPTY, DoCreateVenue(Id(1), 7, 60, 1, 120), t1);
    ReachStep(t1, DoCreateVenue(Id(2), 7, 60, 2, 120), EMPTY.(venues := CATALOG.venues));
  }

  lemma ResourcesReached()
    ensures Reachable(EMPTY.(venues := CATALOG.venues, resources := CATALOG.resources))
  {
    VenuesReached();
    var t2 := EMPTY.(venues := CATALOG.venues);
    var t3 := t2.(resources := map[Id(3) := Resource(Id(1), 1, true)]);
    ReachStep(t2, DoCreateResource(Id(3), Id(1), 1), t3);
    ReachStep(t3, DoCreateResource(Id(4), Id(2), 1), t2.(resources := CATALOG.resources));
  }

  lemma CatalogReached()
    ensures Reachable(CATALOG)
  {
    ResourcesReached();
    var t4 := EMPTY.(venues := CATALOG.venues, resources := CATALOG.resources);
    var t5 := t4.(rules := map[Id(5) := ONE_TO_TWO]);
    ReachStep(t4, DoCreateRule(Id(5), ONE_TO_TWO), t5);
    ReachStep(t5, DoCreateRule(Id(6), TWO_TO_THREE), CATALOG);
  }

  lemma SlotsReached()
    ensures Reachable(TWO_SLOTS)
  {
    CatalogReached();
    FirstDay();
    ReachStep(CATALOG, DoGenerateDay(Id(3), 0, [ONE_TO_TWO], Seventh, 0), ONE_SLOT);
    SecondDay();
    ReachStep(ONE_SLOT, DoGenerateDay(Id(4), 0, [TWO_TO_THREE], Eighth, 0), TWO_SLOTS);
  }

  lemma BookingsReached()
    ensures Reachable(BOOKED_TWICE)
  {
    SlotsReached();
    FirstBooking();
    ReachStep(TWO_SLOTS, DoCreateBooking(Id(9), Id(20), Id(7), "a", 0), BOOKED_ONCE);
    SecondBooking();
    ReachStep(BOOKED_ONCE, DoCreateBooking(Id(10), Id(20), Id(8), "b", 0), BOOKED_TWICE);
  }

  /** Counted by creation time, the first booking's venue allows one booking a day and there are two. */
  lemma TieBreaksLimit() returns (t: Tables)
    ensures Reachable(t)
    ensures Id(9) in t.bookings && Active(t.bookings[Id(9)].status) && t.bookings[Id(9)].slot in t.slots
    ensures |DailyByTime(t.slots, t.bookings, Id(9))| > LimitOf(t.venues, t.resources, t.slots[t.bookings[Id(9)].slot].resource)
  {
    BookingsReached();
    t := BOOKED_TWICE;
    assert DailyByTime(t.slots, t.bookings, Id(9)) == {Id(9), Id(10)};
  }
}
