/** What every reservation transaction keeps: the seat counter agrees with the bookings, closures win,
    and no user exceeds the limits. */
module ReservationInvariant {
  import opened Support
  import opened Reservation

  // ---------- the invariant ----------

  ghost predicate VenuesOk(venues: map<Id, Venue>) {
    forall v :: v in venues ==> venues[v].slotMinutes > 0 && venues[v].dailyLimit > 0
  }

  ghost predicate ResourcesOk(venues: map<Id, Venue>, resources: map<Id, Resource>) {
    forall r :: r in resources ==> resources[r].venue in venues && resources[r].capacity > 0
  }

  ghost predicate RuleOk(r: Rule) { 0 <= r.startMinute < r.endMinute <= 1440 }

  ghost predicate RulesOk(rules: map<Id, Rule>) {
    forall r :: r in rules ==> RuleOk(rules[r])
  }

  /** A slot never crosses midnight. */
  ghost predicate SlotOk(resources: map<Id, Resource>, s: Slot) {
    && s.resource in resources && s.capacity > 0
    && s.startAt < s.endAt <= (DayOf(s.startAt) + 1) * DAY
  }

  ghost predicate SlotsOk(resources: map<Id, Resource>, slots: map<Id, Slot>) {
    && (forall s :: s in slots ==> SlotOk(resources, slots[s]))
    && (forall s, u :: Twins(slots, s, u) ==> s == u)
  }

  ghost predicate Twins(slots: map<Id, Slot>, s: Id, u: Id) {
    s in slots && u in slots && SameKey(slots[s], slots[u])
  }

  ghost predicate BookingsOk(slots: map<Id, Slot>, bookings: map<Id, Booking>) {
    && (forall b :: b in bookings ==> bookings[b].slot in slots && bookings[b].serial < |bookings|)
    && (forall b, c :: SameSerial(bookings, b, c) ==> b == c)
    && (forall b, c :: SameCode(bookings, b, c) ==> b == c)
  }

  ghost predicate SameSerial(bookings: map<Id, Booking>, b: Id, c: Id) {
    b in bookings && c in bookings && bookings[b].serial == bookings[c].serial
  }

  ghost predicate SameCode(bookings: map<Id, Booking>, b: Id, c: Id) {
    b in bookings && c in bookings && bookings[b].code == bookings[c].code
  }

  /** The cached counter of an open slot is the number of bookings that keep a seat, within capacity;
      a closed slot counts nothing and nobody is still waiting for it. */
  ghost predicate CountersOk(slots: map<Id, Slot>, bookings: map<Id, Booking>) {
    forall s :: s in slots ==> CounterOk(s, slots[s], bookings)
  }

  ghost predicate CounterOk(id: Id, s: Slot, bookings: map<Id, Booking>) {
    if s.open then s.reservedCount == |Occupants(bookings, id)| <= s.capacity
    else s.reservedCount == 0 && forall b :: b in bookings && bookings[b].slot == id ==> bookings[b].status != BookingReserved
  }

  ghost predicate ClosureNamed(c: Closure) { (c.venue.Some? || c.resource.Some?) && c.startAt < c.endAt }

  /** Every slot overlapping a covering closure is closed. */
  ghost predicate ClosuresWin(resources: map<Id, Resource>, closures: map<Id, Closure>, slots: map<Id, Slot>) {
    && (forall c :: c in closures ==> ClosureNamed(closures[c]))
    && (forall c, s :: c in closures && s in slots && Closes(resources, closures[c], slots[s]) ==> !slots[s].open)
  }

  /** No user holds two overlapping active bookings. */
  ghost predicate NoOverlaps(slots: map<Id, Slot>, bookings: map<Id, Booking>) {
    forall b, c :: !Clash(slots, bookings, b, c)
  }

  ghost predicate Clash(slots: map<Id, Slot>, bookings: map<Id, Booking>, b: Id, c: Id) {
    && b in bookings && c in bookings && b != c && bookings[b].user == bookings[c].user
    && Active(bookings[b].status) && Active(bookings[c].status)
    && bookings[b].slot in slots && bookings[c].slot in slots
    && Overlap(slots[bookings[b].slot], slots[bookings[c].slot])
  }

  /** The user's active bookings of the same day, made no later than this one. */
  ghost function DailyUpTo(slots: map<Id, Slot>, bookings: map<Id, Booking>, b: Id): set<Id>
    requires b in bookings && bookings[b].slot in slots
  {
    set c | c in Daily(slots, bookings, bookings[b].user, DayOf(slots[bookings[b].slot].startAt))
            && bookings[c].serial <= bookings[b].serial
  }

  ghost function LimitOf(venues: map<Id, Venue>, resources: map<Id, Resource>, resource: Id): int {
    if resource in resources && resources[resource].venue in venues then venues[resources[resource].venue].dailyLimit else 0
  }

  /** Each active booking was within its own venue's daily limit, counting the bookings of any venue. */
  ghost predicate DailyOk(venues: map<Id, Venue>, resources: map<Id, Resource>, slots: map<Id, Slot>, bookings: map<Id, Booking>) {
    forall b :: WithinLimit(venues, resources, slots, bookings, b)
  }

  ghost predicate WithinLimit(venues: map<Id, Venue>, resources: map<Id, Resource>, slots: map<Id, Slot>, bookings: map<Id, Booking>, b: Id) {
    b in bookings && Active(bookings[b].status) && bookings[b].slot in slots ==>
      |DailyUpTo(slots, bookings, b)| <= LimitOf(venues, resources, slots[bookings[b].slot].resource)
  }

  ghost predicate Inv(t: Tables) {
    && VenuesOk(t.venues)
    && ResourcesOk(t.venues, t.resources)
    && RulesOk(t.rules)
    && SlotsOk(t.resources, t.slots)
    && BookingsOk(t.slots, t.bookings)
    && CountersOk(t.slots, t.bookings)
    && ClosuresWin(t.resources, t.closures, t.slots)
    && NoOverlaps(t.slots, t.bookings)
    && DailyOk(t.venues, t.resources, t.slots, t.bookings)
  }

  // ---------- small steps ----------

  lemma {:induction false} SubsetSize<T>(a: set<T>, b: set<T>)
    requires a <= b
    ensures |a| <= |b|
  {
    assert b == a + (b - a);
  }

  lemma MapGrows<K, V>(m: map<K, V>, k: K, v: V)
    requires k !in m
    ensures |m[k := v]| == |m| + 1
  {
    assert m[k := v].Keys == m.Keys + {k};
  }

  /** Slots are never removed and never moved. */
  ghost predicate SlotsStay(slots: map<Id, Slot>, slots': map<Id, Slot>) {
    forall s :: s in slots ==> s in slots' && SameKey(slots[s], slots'[s]) && slots'[s].capacity == slots[s].capacity
  }

  /** Bookings only lose claims: same rows, and an active one was active before. */
  ghost predicate Weaker(bookings: map<Id, Booking>, bookings': map<Id, Booking>) {
    && bookings'.Keys == bookings.Keys
    && forall b :: b in bookings ==>
         && bookings'[b] == bookings[b].(status := bookings'[b].status)
         && (Active(bookings'[b].status) ==> Active(bookings[b].status))
  }

  lemma BookingsStay(slots: map<Id, Slot>, slots': map<Id, Slot>, bookings: map<Id, Booking>, bookings': map<Id, Booking>)
    requires BookingsOk(slots, bookings) && SlotsStay(slots, slots') && Weaker(bookings, bookings')
    ensures BookingsOk(slots', bookings')
  {
    assert |bookings'| == |bookings'.Keys| == |bookings.Keys| == |bookings|;
    assert forall b, c :: SameSerial(bookings', b, c) ==> SameSerial(bookings, b, c);
    assert forall b, c :: SameCode(bookings', b, c) ==> SameCode(bookings, b, c);
  }

  lemma NoOverlapsStay(slots: map<Id, Slot>, slots': map<Id, Slot>, bookings: map<Id, Booking>, bookings': map<Id, Booking>)
    requires BookingsOk(slots, bookings) && NoOverlaps(slots, bookings) && SlotsStay(slots, slots') && Weaker(bookings, bookings')
    ensures NoOverlaps(slots', bookings')
  {
    assert forall b, c :: Clash(slots', bookings', b, c) ==> Clash(slots, bookings, b, c);
  }

  lemma DailyStays(venues: map<Id, Venue>, resources: map<Id, Resource>,
                   slots: map<Id, Slot>, slots': map<Id, Slot>, bookings: map<Id, Booking>, bookings': map<Id, Booking>)
    requires BookingsOk(slots, bookings) && DailyOk(venues, resources, slots, bookings)
    requires SlotsStay(slots, slots') && Weaker(bookings, bookings')
    ensures DailyOk(venues, resources, slots', bookings')
  {
    forall b | b in bookings' && Active(bookings'[b].status) && bookings'[b].slot in slots'
      ensures WithinLimit(venues, resources, slots', bookings', b)
    {
      assert WithinLimit(venues, resources, slots, bookings, b);
      SubsetSize(DailyUpTo(slots', bookings', b), DailyUpTo(slots, bookings, b));
    }
  }

  /** New venues and resources do not touch the limits of existing slots. */
  lemma CatalogStays(t: Tables, venues: map<Id, Venue>, resources: map<Id, Resource>)
    requires Inv(t) && VenuesOk(venues) && ResourcesOk(venues, resources)
    requires forall v :: v in t.venues ==> v in venues && venues[v] == t.venues[v]
    requires forall r :: r in t.resources ==> r in resources && resources[r] == t.resources[r]
    ensures Inv(t.(venues := venues, resources := resources))
  {
    forall b
      ensures WithinLimit(venues, resources, t.slots, t.bookings, b)
    {
      assert WithinLimit(t.venues, t.resources, t.slots, t.bookings, b);
    }
  }

  // ---------- booking ----------

  lemma BookingAdds(slots: map<Id, Slot>, bookings: map<Id, Booking>, id: Id, b: Booking)
    requires BookingsOk(slots, bookings) && id !in bookings && b.slot in slots && b.serial == |bookings|
    requires !CodeTaken(bookings, b.code)
    ensures BookingsOk(slots, bookings[id := b])
  {
    var bookings' := bookings[id := b];
    MapGrows(bookings, id, b);
    forall c, d | SameSerial(bookings', c, d)
      ensures c == d
    {
      if c != id && d != id { assert SameSerial(bookings, c, d); }
    }
    forall c, d | SameCode(bookings', c, d)
      ensures c == d
    {
      if c != id && d != id { assert SameCode(bookings, c, d); }
    }
  }

  lemma CounterRises(slots: map<Id, Slot>, bookings: map<Id, Booking>, id: Id, b: Booking)
    requires CountersOk(slots, bookings) && id !in bookings && b.slot in slots && b.status == BookingReserved
    requires slots[b.slot].open && slots[b.slot].reservedCount < slots[b.slot].capacity
    ensures CountersOk(slots[b.slot := slots[b.slot].(reservedCount := slots[b.slot].reservedCount + 1)], bookings[id := b])
  {
    var slots' := slots[b.slot := slots[b.slot].(reservedCount := slots[b.slot].reservedCount + 1)];
    var bookings' := bookings[id := b];
    forall s | s in slots'
      ensures CounterOk(s, slots'[s], bookings')
    {
      assert CounterOk(s, slots[s], bookings);
      if s == b.slot {
        assert Occupants(bookings', s) == Occupants(bookings, s) + {id};
      } else {
        assert Occupants(bookings', s) == Occupants(bookings, s);
      }
    }
  }

  lemma NoOverlapsAdd(slots: map<Id, Slot>, bookings: map<Id, Booking>, id: Id, b: Booking)
    requires NoOverlaps(slots, bookings) && id !in bookings && b.slot in slots
    requires !Conflict(slots, bookings, b.user, slots[b.slot])
    ensures NoOverlaps(slots, bookings[id := b])
  {
    var bookings' := bookings[id := b];
    forall c, d
      ensures !Clash(slots, bookings', c, d)
    {
      if c != id && d != id {
        assert Clash(slots, bookings', c, d) ==> Clash(slots, bookings, c, d);
      } else {
        var e := if c == id then d else c;
        assert Clash(slots, bookings', c, d) ==> e in bookings && Overlap(slots[bookings[e].slot], slots[b.slot]);
      }
    }
  }

  lemma DailyAdds(venues: map<Id, Venue>, resources: map<Id, Resource>, slots: map<Id, Slot>, bookings: map<Id, Booking>,
                  id: Id, b: Booking)
    requires BookingsOk(slots, bookings) && DailyOk(venues, resources, slots, bookings)
    requires id !in bookings && b.slot in slots && b.serial == |bookings|
    requires |Daily(slots, bookings, b.user, DayOf(slots[b.slot].startAt))| < LimitOf(venues, resources, slots[b.slot].resource)
    ensures DailyOk(venues, resources, slots, bookings[id := b])
  {
    var bookings' := bookings[id := b];
    forall c | c in bookings' && Active(bookings'[c].status) && bookings'[c].slot in slots
      ensures WithinLimit(venues, resources, slots, bookings', c)
    {
      assert WithinLimit(venues, resources, slots, bookings, c);
      if c == id {
        var daily := Daily(slots, bookings, b.user, DayOf(slots[b.slot].startAt));
        SubsetSize(DailyUpTo(slots, bookings', id), daily + {id});
      } else {
        SubsetSize(DailyUpTo(slots, bookings', c), DailyUpTo(slots, bookings, c));
      }
    }
  }

  /** Changing counters alone moves no slot. */
  lemma CounterOnly(t: Tables, slots: map<Id, Slot>)
    requires SlotsOk(t.resources, t.slots) && ClosuresWin(t.resources, t.closures, t.slots) && slots.Keys == t.slots.Keys
    requires forall s :: s in slots ==> slots[s] == t.slots[s].(reservedCount := slots[s].reservedCount)
    ensures SlotsOk(t.resources, slots) && SlotsStay(t.slots, slots) && ClosuresWin(t.resources, t.closures, slots)
  {
    assert forall s, u :: Twins(slots, s, u) ==> Twins(t.slots, s, u);
  }

  lemma LimitsAdd(t: Tables, slots: map<Id, Slot>, id: Id, b: Booking)
    requires BookingsOk(t.slots, t.bookings) && NoOverlaps(t.slots, t.bookings)
    requires DailyOk(t.venues, t.resources, t.slots, t.bookings)
    requires SlotsStay(t.slots, slots) && slots.Keys == t.slots.Keys
    requires id !in t.bookings && b.slot in slots && b.serial == |t.bookings| && !CodeTaken(t.bookings, b.code)
    requires !Conflict(t.slots, t.bookings, b.user, t.slots[b.slot])
    requires |Daily(t.slots, t.bookings, b.user, DayOf(t.slots[b.slot].startAt))| < LimitOf(t.venues, t.resources, t.slots[b.slot].resource)
    ensures BookingsOk(slots, t.bookings[id := b]) && NoOverlaps(slots, t.bookings[id := b])
    ensures DailyOk(t.venues, t.resources, slots, t.bookings[id := b])
  {
    BookingAdds(t.slots, t.bookings, id, b);
    NoOverlapsAdd(t.slots, t.bookings, id, b);
    DailyAdds(t.venues, t.resources, t.slots, t.bookings, id, b);
    var bookings := t.bookings[id := b];
    BookingsStay(t.slots, slots, bookings, bookings);
    NoOverlapsStay(t.slots, slots, bookings, bookings);
    DailyStays(t.venues, t.resources, t.slots, slots, bookings, bookings);
  }

  ghost function Reserve(slots: map<Id, Slot>, slot: Id): map<Id, Slot>
    requires slot in slots
  {
    slots[slot := slots[slot].(reservedCount := slots[slot].reservedCount + 1)]
  }

  /** The guards of a successful booking. */
  lemma BookingGuards(t: Tables, id: Id, user: Id, slot: Id, code: string, now: int)
    requires CreateBooking(t, id, user, slot, code, now).Commit?
    ensures slot in t.slots && id !in t.bookings && !CodeTaken(t.bookings, code)
    ensures t.slots[slot].open && t.slots[slot].reservedCount < t.slots[slot].capacity
    ensures !Conflict(t.slots, t.bookings, user, t.slots[slot])
    ensures |Daily(t.slots, t.bookings, user, DayOf(t.slots[slot].startAt))| < LimitOf(t.venues, t.resources, t.slots[slot].resource)
    ensures CreateBooking(t, id, user, slot, code, now).db ==
      t.(slots := Reserve(t.slots, slot),
         bookings := t.bookings[id := Booking(user, slot, BookingReserved, code, |t.bookings|, now)])
  {}

  /** A booking within its guards keeps every part of the invariant that looks at slots or bookings. */
  lemma BookingParts(t: Tables, id: Id, b: Booking)
    requires SlotsOk(t.resources, t.slots) && ClosuresWin(t.resources, t.closures, t.slots) && CountersOk(t.slots, t.bookings)
    requires BookingsOk(t.slots, t.bookings) && NoOverlaps(t.slots, t.bookings)
    requires DailyOk(t.venues, t.resources, t.slots, t.bookings)
    requires id !in t.bookings && b.slot in t.slots && !CodeTaken(t.bookings, b.code)
    requires b.status == BookingReserved && b.serial == |t.bookings|
    requires t.slots[b.slot].open && t.slots[b.slot].reservedCount < t.slots[b.slot].capacity
    requires !Conflict(t.slots, t.bookings, b.user, t.slots[b.slot])
    requires |Daily(t.slots, t.bookings, b.user, DayOf(t.slots[b.slot].startAt))| < LimitOf(t.venues, t.resources, t.slots[b.slot].resource)
    ensures var slots, bookings := Reserve(t.slots, b.slot), t.bookings[id := b];
      && SlotsOk(t.resources, slots) && ClosuresWin(t.resources, t.closures, slots) && CountersOk(slots, bookings)
      && BookingsOk(slots, bookings) && NoOverlaps(slots, bookings)
      && DailyOk(t.venues, t.resources, slots, bookings)
  {
    CounterOnly(t, Reserve(t.slots, b.slot));
    CounterRises(t.slots, t.bookings, id, b);
    LimitsAdd(t, Reserve(t.slots, b.slot), id, b);
  }

  lemma CreateBookingKeeps(t: Tables, id: Id, user: Id, slot: Id, code: string, now: int)
    requires Inv(t)
    ensures Inv(CreateBooking(t, id, user, slot, code, now).After(t))
  {
    if CreateBooking(t, id, user, slot, code, now).Commit? {
      BookingGuards(t, id, user, slot, code, now);
      BookingParts(t, id, Booking(user, slot, BookingReserved, code, |t.bookings|, now));
    }
  }

  // ---------- releasing and using bookings ----------

  /** A change that moves no slot and only weakens bookings: what is left to show is the counters and
      the closures. */
  lemma WeakerKeeps(t: Tables, closures: map<Id, Closure>, slots: map<Id, Slot>, bookings: map<Id, Booking>)
    requires Inv(t) && SlotsStay(t.slots, slots) && Weaker(t.bookings, bookings)
    requires SlotsOk(t.resources, slots) && CountersOk(slots, bookings) && ClosuresWin(t.resources, closures, slots)
    ensures Inv(t.(closures := closures, slots := slots, bookings := bookings))
  {
    BookingsStay(t.slots, slots, t.bookings, bookings);
    NoOverlapsStay(t.slots, slots, t.bookings, bookings);
    DailyStays(t.venues, t.resources, t.slots, slots, t.bookings, bookings);
  }

  lemma CounterFalls(slots: map<Id, Slot>, bookings: map<Id, Booking>, id: Id)
    requires CountersOk(slots, bookings) && id in bookings && bookings[id].slot in slots && bookings[id].status == BookingReserved
    ensures slots[bookings[id].slot].open && slots[bookings[id].slot].reservedCount > 0
    ensures var b := bookings[id];
      CountersOk(slots[b.slot := slots[b.slot].(reservedCount := slots[b.slot].reservedCount - 1)],
                 bookings[id := b.(status := BookingCancelled)])
  {
    var b := bookings[id];
    var slots' := slots[b.slot := slots[b.slot].(reservedCount := slots[b.slot].reservedCount - 1)];
    var bookings' := bookings[id := b.(status := BookingCancelled)];
    assert CounterOk(b.slot, slots[b.slot], bookings);
    assert id in Occupants(bookings, b.slot);
    forall s | s in slots'
      ensures CounterOk(s, slots'[s], bookings')
    {
      assert CounterOk(s, slots[s], bookings);
      if s == b.slot {
        assert Occupants(bookings', s) == Occupants(bookings, s) - {id};
      } else {
        assert Occupants(bookings', s) == Occupants(bookings, s);
      }
    }
  }

  ghost function Unreserve(slots: map<Id, Slot>, slot: Id): map<Id, Slot>
    requires slot in slots
  {
    slots[slot := slots[slot].(reservedCount := slots[slot].reservedCount - 1)]
  }

  lemma CancelEffect(t: Tables, id: Id, user: Id, now: int)
    requires CancelBooking(t, id, user, now).Commit? && CancelBooking(t, id, user, now).value
    ensures id in t.bookings && t.bookings[id].status == BookingReserved && t.bookings[id].slot in t.slots
    ensures CancelBooking(t, id, user, now).db ==
      t.(slots := Unreserve(t.slots, t.bookings[id].slot), bookings := t.bookings[id := t.bookings[id].(status := BookingCancelled)])
    ensures Weaker(t.bookings, t.bookings[id := t.bookings[id].(status := BookingCancelled)])
  {
    assert t.bookings[id := t.bookings[id].(status := BookingCancelled)].Keys == t.bookings.Keys;
  }

  lemma CancelParts(t: Tables, id: Id, user: Id, now: int)
    requires SlotsOk(t.resources, t.slots) && ClosuresWin(t.resources, t.closures, t.slots) && CountersOk(t.slots, t.bookings)
    requires CancelBooking(t, id, user, now).Commit? && CancelBooking(t, id, user, now).value
    ensures var t' := CancelBooking(t, id, user, now).db;
      && t' == t.(closures := t.closures, slots := t'.slots, bookings := t'.bookings)
      && SlotsStay(t.slots, t'.slots) && Weaker(t.bookings, t'.bookings)
      && SlotsOk(t.resources, t'.slots) && CountersOk(t'.slots, t'.bookings) && ClosuresWin(t.resources, t.closures, t'.slots)
  {
    CancelEffect(t, id, user, now);
    CounterFalls(t.slots, t.bookings, id);
    CounterOnly(t, Unreserve(t.slots, t.bookings[id].slot));
  }

  lemma CancelBookingKeeps(t: Tables, id: Id, user: Id, now: int)
    requires Inv(t)
    ensures Inv(CancelBooking(t, id, user, now).After(t))
  {
    var r := CancelBooking(t, id, user, now);
    if r.Commit? && r.value {
      CancelParts(t, id, user, now);
      WeakerKeeps(t, t.closures, r.db.slots, r.db.bookings);
    }
  }

  /** Checking in or missing a slot keeps the seat, so no counter moves. */
  lemma SeatsKept(slots: map<Id, Slot>, bookings: map<Id, Booking>, bookings': map<Id, Booking>)
    requires CountersOk(slots, bookings) && bookings'.Keys == bookings.Keys
    requires forall b :: b in bookings ==>
      && bookings'[b] == bookings[b].(status := bookings'[b].status)
      && (bookings'[b].status == bookings[b].status || (bookings[b].status == BookingReserved && Occupies(bookings'[b].status)))
    ensures CountersOk(slots, bookings')
  {
    forall s | s in slots
      ensures CounterOk(s, slots[s], bookings')
    {
      assert CounterOk(s, slots[s], bookings);
      assert Occupants(bookings', s) == Occupants(bookings, s);
    }
  }

  /** Some reserved bookings are checked in or missed; nothing else changes. */
  ghost predicate Used(bookings: map<Id, Booking>, bookings': map<Id, Booking>) {
    && bookings'.Keys == bookings.Keys
    && forall b :: b in bookings ==>
         || bookings'[b] == bookings[b]
         || (bookings[b].status == BookingReserved && bookings'[b] == bookings[b].(status := BookingCheckedIn))
         || (bookings[b].status == BookingReserved && bookings'[b] == bookings[b].(status := BookingNoShow))
  }

  lemma UseParts(slots: map<Id, Slot>, bookings: map<Id, Booking>, bookings': map<Id, Booking>)
    requires CountersOk(slots, bookings) && Used(bookings, bookings')
    ensures CountersOk(slots, bookings') && Weaker(bookings, bookings') && SlotsStay(slots, slots)
  {
    SeatsKept(slots, bookings, bookings');
  }

  lemma UseKeeps(t: Tables, bookings: map<Id, Booking>)
    requires Inv(t) && Used(t.bookings, bookings)
    ensures Inv(t.(bookings := bookings))
  {
    UseParts(t.slots, t.bookings, bookings);
    WeakerKeeps(t, t.closures, t.slots, bookings);
  }

  lemma CheckinEffect(t: Tables, code: string)
    ensures var t' := Checkin(t, code).After(t); t' == t.(bookings := t'.bookings) && Used(t.bookings, t'.bookings)
  {
    assert Checkin(t, code).After(t).bookings.Keys == t.bookings.Keys;
  }

  lemma CheckinKeeps(t: Tables, code: string)
    requires Inv(t)
    ensures Inv(Checkin(t, code).After(t))
  {
    CheckinEffect(t, code);
    UseKeeps(t, Checkin(t, code).After(t).bookings);
  }

  lemma NoShowEffect(t: Tables, now: int)
    ensures var t' := MarkNoShows(t, now).After(t); t' == t.(bookings := t'.bookings) && Used(t.bookings, t'.bookings)
  {
    assert MarkNoShows(t, now).After(t).bookings.Keys == t.bookings.Keys;
  }

  lemma MarkNoShowsKeeps(t: Tables, now: int)
    requires Inv(t)
    ensures Inv(MarkNoShows(t, now).After(t))
  {
    NoShowEffect(t, now);
    UseKeeps(t, MarkNoShows(t, now).After(t).bookings);
  }

  // ---------- closures ----------

  lemma ClosureCounters(slots: map<Id, Slot>, slots': map<Id, Slot>, bookings: map<Id, Booking>, bookings': map<Id, Booking>, shut: set<Id>)
    requires CountersOk(slots, bookings) && slots'.Keys == slots.Keys && bookings'.Keys == bookings.Keys
    requires forall s :: s in slots ==>
      slots'[s] == if s in shut then slots[s].(open := false, reservedCount := 0) else slots[s]
    requires forall b :: b in bookings ==>
      bookings'[b] == if bookings[b].slot in shut && bookings[b].status == BookingReserved
                      then bookings[b].(status := BookingClosureCancelled) else bookings[b]
    ensures CountersOk(slots', bookings')
  {
    forall s | s in slots'
      ensures CounterOk(s, slots'[s], bookings')
    {
      assert CounterOk(s, slots[s], bookings);
      if s !in shut {
        assert Occupants(bookings', s) == Occupants(bookings, s);
      }
    }
  }

  ghost function Shut(t: Tables, c: Closure): set<Id> {
    set s | s in t.slots && Closes(t.resources, c, t.slots[s])
  }

  lemma ClosureEffect(t: Tables, id: Id, c: Closure)
    requires CreateClosure(t, id, c).Commit?
    ensures var t' := CreateClosure(t, id, c).db; var shut := Shut(t, c);
      && ClosureNamed(c)
      && t' == t.(closures := t.closures[id := c], slots := t'.slots, bookings := t'.bookings)
      && t'.slots.Keys == t.slots.Keys && t'.bookings.Keys == t.bookings.Keys
      && (forall s :: s in t.slots ==>
            t'.slots[s] == if s in shut then t.slots[s].(open := false, reservedCount := 0) else t.slots[s])
      && (forall b :: b in t.bookings ==>
            t'.bookings[b] == if t.bookings[b].slot in shut && t.bookings[b].status == BookingReserved
                              then t.bookings[b].(status := BookingClosureCancelled) else t.bookings[b])
  {}

  lemma ClosureSlots(t: Tables, id: Id, c: Closure, slots: map<Id, Slot>)
    requires SlotsOk(t.resources, t.slots) && ClosuresWin(t.resources, t.closures, t.slots) && ClosureNamed(c)
    requires slots.Keys == t.slots.Keys
    requires forall s :: s in t.slots ==>
      slots[s] == if s in Shut(t, c) then t.slots[s].(open := false, reservedCount := 0) else t.slots[s]
    ensures SlotsOk(t.resources, slots) && SlotsStay(t.slots, slots) && ClosuresWin(t.resources, t.closures[id := c], slots)
  {
    assert forall s, u :: Twins(slots, s, u) ==> Twins(t.slots, s, u);
  }

  lemma ClosureParts(t: Tables, id: Id, c: Closure)
    requires SlotsOk(t.resources, t.slots) && ClosuresWin(t.resources, t.closures, t.slots) && CountersOk(t.slots, t.bookings)
    requires CreateClosure(t, id, c).Commit?
    ensures var t' := CreateClosure(t, id, c).db;
      && t' == t.(closures := t'.closures, slots := t'.slots, bookings := t'.bookings)
      && SlotsStay(t.slots, t'.slots) && Weaker(t.bookings, t'.bookings)
      && SlotsOk(t.resources, t'.slots) && CountersOk(t'.slots, t'.bookings) && ClosuresWin(t.resources, t'.closures, t'.slots)
  {
    ClosureEffect(t, id, c);
    var t' := CreateClosure(t, id, c).db;
    ClosureCounters(t.slots, t'.slots, t.bookings, t'.bookings, Shut(t, c));
    ClosureSlots(t, id, c, t'.slots);
  }

  lemma CreateClosureKeeps(t: Tables, id: Id, c: Closure)
    requires Inv(t)
    ensures Inv(CreateClosure(t, id, c).After(t))
  {
    if CreateClosure(t, id, c).Commit? {
      var t' := CreateClosure(t, id, c).db;
      ClosureParts(t, id, c);
      WeakerKeeps(t, t'.closures, t'.slots, t'.bookings);
    }
  }
}
