/** The reservation transactions told a second time, by what they promise: when each succeeds and with what
    error it fails, which rows change and to what.  Intervals meet when they share a moment. */
module ReservationReference {
  import opened Support
  import opened Reservation
  import opened ReservationInvariant
  import opened SlotGeneration
  import opened ReservationRuns

  // ---------- time ----------

  ghost predicate During(startAt: int, endAt: int, time: int) {
    startAt <= time < endAt
  }

  /** The two intervals share a moment. */
  ghost predicate Meet(start1: int, end1: int, start2: int, end2: int) {
    exists time :: During(start1, end1, time) && During(start2, end2, time)
  }

  lemma MeetIff(start1: int, end1: int, start2: int, end2: int)
    requires start1 < end1 && start2 < end2
    ensures Meet(start1, end1, start2, end2) <==> start1 < end2 && end1 > start2
  {
    if start1 < end2 && end1 > start2 {
      var time := if start1 < start2 then start2 else start1;
      assert During(start1, end1, time) && During(start2, end2, time);
    }
  }

  /** The closure is for the slot's resource, or for all resources of its venue, and shares a moment with
      the slot. */
  ghost predicate Covers(t: Tables, c: Closure, s: Slot) {
    && Meet(s.startAt, s.endAt, c.startAt, c.endAt)
    && (|| c.resource == Some(s.resource)
        || (c.resource.None? && s.resource in t.resources && c.venue == Some(t.resources[s.resource].venue)))
  }

  lemma ClosesIsCovers(t: Tables, c: Closure, s: Slot)
    requires ClosureNamed(c) && s.startAt < s.endAt
    ensures Closes(t.resources, c, s) <==> Covers(t, c, s)
  {
    MeetIff(s.startAt, s.endAt, c.startAt, c.endAt);
  }

  // ---------- booking ----------

  /** The slot can be booked at all: open, with a free seat, in the future, within the venue's booking
      window, at an active resource of an active venue. */
  ghost predicate Bookable(t: Tables, slot: Id, now: int) {
    && slot in t.slots && t.slots[slot].open && t.slots[slot].reservedCount < t.slots[slot].capacity && now < t.slots[slot].startAt
    && t.slots[slot].resource in t.resources && t.resources[t.slots[slot].resource].active
    && t.resources[t.slots[slot].resource].venue in t.venues && t.venues[t.resources[t.slots[slot].resource].venue].active
    && DayOf(t.slots[slot].startAt) <= DayOf(now) + t.venues[t.resources[t.slots[slot].resource].venue].advanceDays
  }

  /** Reserved or checked in. */
  ghost predicate Counts(b: Booking) {
    b.status == BookingReserved || b.status == BookingCheckedIn
  }

  /** The two times lie on the same day of 24 hours. */
  ghost predicate SameDay(a: int, b: int) {
    exists day :: day * 86_400_000 <= a < (day + 1) * 86_400_000 && day * 86_400_000 <= b < (day + 1) * 86_400_000
  }

  lemma SameDayIff(a: int, b: int)
    ensures SameDay(a, b) <==> DayOf(a) == DayOf(b)
  {
    var day := DayOf(a);
    assert day * 86_400_000 <= a < (day + 1) * 86_400_000;
  }

  /** The user's bookings that count and start on the day of the slot. */
  ghost function SameDayBookings(t: Tables, user: Id, slot: Id): set<Id>
    requires slot in t.slots
  {
    set b | b in t.bookings && t.bookings[b].user == user && Counts(t.bookings[b])
            && t.bookings[b].slot in t.slots && SameDay(t.slots[t.bookings[b].slot].startAt, t.slots[slot].startAt)
  }

  lemma SameDayBookingsAre(t: Tables, user: Id, slot: Id)
    requires slot in t.slots
    ensures SameDayBookings(t, user, slot) == Daily(t.slots, t.bookings, user, DayOf(t.slots[slot].startAt))
  {
    forall b | b in t.bookings && t.bookings[b].slot in t.slots
      ensures SameDay(t.slots[t.bookings[b].slot].startAt, t.slots[slot].startAt) <==>
        DayOf(t.slots[t.bookings[b].slot].startAt) == DayOf(t.slots[slot].startAt)
    {
      SameDayIff(t.slots[t.bookings[b].slot].startAt, t.slots[slot].startAt);
    }
  }

  /** They are fewer than the slot's venue allows. */
  ghost predicate BelowLimit(t: Tables, user: Id, slot: Id) {
    && slot in t.slots && t.slots[slot].resource in t.resources && t.resources[t.slots[slot].resource].venue in t.venues
    && |SameDayBookings(t, user, slot)| < t.venues[t.resources[t.slots[slot].resource].venue].dailyLimit
  }

  /** No booking of the user that counts shares a moment with the slot. */
  ghost predicate NoClashWith(t: Tables, user: Id, slot: Id)
    requires slot in t.slots
  {
    forall b :: b in t.bookings && t.bookings[b].user == user && Counts(t.bookings[b]) && t.bookings[b].slot in t.slots ==>
      !Meet(t.slots[t.bookings[b].slot].startAt, t.slots[t.bookings[b].slot].endAt, t.slots[slot].startAt, t.slots[slot].endAt)
  }

  ghost predicate NewBooking(t: Tables, id: Id, code: string) {
    id !in t.bookings && forall b :: b in t.bookings ==> t.bookings[b].code != code
  }

  ghost predicate MayBook(t: Tables, id: Id, user: Id, slot: Id, code: string, now: int) {
    Bookable(t, slot, now) && BelowLimit(t, user, slot) && NoClashWith(t, user, slot) && NewBooking(t, id, code)
  }

  /** Success, or the first obstacle. */
  ghost predicate BookingAnswer(t: Tables, id: Id, user: Id, slot: Id, code: string, now: int, res: Result<(), BookingError>) {
    && (res.Ok? <==> MayBook(t, id, user, slot, code, now))
    && (res == Err(SlotUnavailable) <==> !Bookable(t, slot, now))
    && (res == Err(DailyLimit) <==> Bookable(t, slot, now) && !BelowLimit(t, user, slot))
    && (res == Err(BookingConflict) <==> Bookable(t, slot, now) && BelowLimit(t, user, slot) && !NoClashWith(t, user, slot))
  }

  /** The booking is there, reserved, and takes one more seat; nothing else changes. */
  ghost function Seated(t: Tables, id: Id, user: Id, slot: Id, code: string, now: int): Tables
    requires slot in t.slots
  {
    t.(bookings := t.bookings[id := Booking(user, slot, BookingReserved, code, |t.bookings|, now)],
       slots := t.slots[slot := t.slots[slot].(reservedCount := t.slots[slot].reservedCount + 1)])
  }

  lemma WindowIff(startAt: int, now: int, days: int)
    ensures startAt < (DayOf(now) + days + 1) * DAY <==> DayOf(startAt) <= DayOf(now) + days
  {}

  lemma ClashIff(t: Tables, user: Id, slot: Id)
    requires SlotsOk(t.resources, t.slots) && slot in t.slots
    ensures Conflict(t.slots, t.bookings, user, t.slots[slot]) <==> !NoClashWith(t, user, slot)
  {
    forall b | b in t.bookings && t.bookings[b].slot in t.slots
      ensures Overlap(t.slots[t.bookings[b].slot], t.slots[slot]) <==>
        Meet(t.slots[t.bookings[b].slot].startAt, t.slots[t.bookings[b].slot].endAt, t.slots[slot].startAt, t.slots[slot].endAt)
    {
      assert SlotOk(t.resources, t.slots[t.bookings[b].slot]) && SlotOk(t.resources, t.slots[slot]);
      MeetIff(t.slots[t.bookings[b].slot].startAt, t.slots[t.bookings[b].slot].endAt, t.slots[slot].startAt, t.slots[slot].endAt);
    }
  }

  /** A booking succeeds exactly when nothing stands in its way, and fails with the first thing that does. */
  lemma BookingAnswers(t: Tables, id: Id, user: Id, slot: Id, code: string, now: int)
    requires SlotsOk(t.resources, t.slots)
    ensures BookingAnswer(t, id, user, slot, code, now, CreateBooking(t, id, user, slot, code, now).Answer())
    ensures MayBook(t, id, user, slot, code, now) ==>
      CreateBooking(t, id, user, slot, code, now).After(t) == Seated(t, id, user, slot, code, now)
  {
    if slot in t.slots {
      ClashIff(t, user, slot);
      SameDayBookingsAre(t, user, slot);
      if t.slots[slot].resource in t.resources && t.resources[t.slots[slot].resource].venue in t.venues {
        WindowIff(t.slots[slot].startAt, now, t.venues[t.resources[t.slots[slot].resource].venue].advanceDays);
      }
    }
  }

  // ---------- cancelling ----------

  ghost predicate OwnReserved(t: Tables, id: Id, user: Id) {
    id in t.bookings && t.bookings[id].user == user && t.bookings[id].status == BookingReserved
  }

  /** The venue's deadline before the start of the slot has not come. */
  ghost predicate BeforeDeadline(t: Tables, id: Id, now: int) {
    && id in t.bookings && t.bookings[id].slot in t.slots && t.slots[t.bookings[id].slot].resource in t.resources
    && t.resources[t.slots[t.bookings[id].slot].resource].venue in t.venues
    && now < t.slots[t.bookings[id].slot].startAt
             - t.venues[t.resources[t.slots[t.bookings[id].slot].resource].venue].cancelBeforeMinutes * 60_000
  }

  ghost predicate CancelAnswer(t: Tables, t': Tables, id: Id, user: Id, now: int, res: Result<bool, BookingError>) {
    && t' == (if OwnReserved(t, id, user) && BeforeDeadline(t, id, now) then GivenBack(t, id) else t)
    && res == (if !OwnReserved(t, id, user) then Ok(false) else if BeforeDeadline(t, id, now) then Ok(true) else Err(CancelDeadline))
  }

  /** The booking is cancelled and its seat free again; nothing else changes. */
  ghost function GivenBack(t: Tables, id: Id): Tables
    requires id in t.bookings && t.bookings[id].slot in t.slots
  {
    var s := t.bookings[id].slot;
    t.(bookings := t.bookings[id := t.bookings[id].(status := BookingCancelled)],
       slots := t.slots[s := t.slots[s].(reservedCount := t.slots[s].reservedCount - 1)])
  }

  /** Only the user's own reserved booking is cancelled, and only before the deadline; the deadline is the
      only error. */
  lemma CancelAnswers(t: Tables, id: Id, user: Id, now: int)
    requires Inv(t)
    ensures var tx := CancelBooking(t, id, user, now); CancelAnswer(t, tx.After(t), id, user, now, tx.Answer())
  {
    if OwnReserved(t, id, user) {
      CancelPlaces(t, id);
    }
  }

  lemma CancelPlaces(t: Tables, id: Id)
    requires Inv(t) && id in t.bookings && t.bookings[id].status == BookingReserved
    ensures t.bookings[id].slot in t.slots && t.slots[t.bookings[id].slot].reservedCount > 0
    ensures t.slots[t.bookings[id].slot].resource in t.resources
    ensures t.resources[t.slots[t.bookings[id].slot].resource].venue in t.venues
  {
    CounterFalls(t.slots, t.bookings, id);
    assert SlotOk(t.resources, t.slots[t.bookings[id].slot]);
  }

  // ---------- checking in, missing, closing ----------

  /** Exactly the rows that meet the condition get the status. */
  ghost predicate Restated(bookings: map<Id, Booking>, bookings': map<Id, Booking>, hit: set<Id>, status: BookingStatus) {
    && bookings'.Keys == bookings.Keys
    && forall b :: b in bookings ==> bookings'[b] == if b in hit then bookings[b].(status := status) else bookings[b]
  }

  ghost function WithCode(t: Tables, code: string): set<Id> {
    set b | b in t.bookings && t.bookings[b].code == code && t.bookings[b].status == BookingReserved
  }

  /** The reserved bookings on slots that are over. */
  ghost function Missed(t: Tables, now: int): set<Id> {
    set b | b in t.bookings && t.bookings[b].status == BookingReserved
            && t.bookings[b].slot in t.slots && t.slots[t.bookings[b].slot].endAt <= now
  }

  ghost predicate CheckinAnswer(t: Tables, t': Tables, code: string, res: Result<bool, BookingError>) {
    && t' == t.(bookings := t'.bookings) && Restated(t.bookings, t'.bookings, WithCode(t, code), BookingCheckedIn)
    && res == Ok(exists b :: b in t.bookings && t.bookings[b].code == code && t.bookings[b].status == BookingReserved)
  }

  lemma CheckinAnswers(t: Tables, code: string)
    ensures var tx := Checkin(t, code); CheckinAnswer(t, tx.After(t), code, tx.Answer())
  {
    assert Checkin(t, code).db.bookings.Keys == t.bookings.Keys;
    if b :| b in t.bookings && t.bookings[b].code == code && t.bookings[b].status == BookingReserved {
      assert b in WithCode(t, code);
    } else {
      assert WithCode(t, code) == {};
    }
  }

  ghost predicate NoShowAnswer(t: Tables, t': Tables, now: int, res: Result<set<Id>, BookingError>) {
    && t' == t.(bookings := t'.bookings) && Restated(t.bookings, t'.bookings, Missed(t, now), BookingNoShow)
    && res == Ok(Missed(t, now))
  }

  lemma NoShowAnswers(t: Tables, now: int)
    ensures var tx := MarkNoShows(t, now); NoShowAnswer(t, tx.After(t), now, tx.Answer())
  {
    assert MarkNoShows(t, now).db.bookings.Keys == t.bookings.Keys;
    assert MarkNoShows(t, now).value == Missed(t, now);
  }

  ghost predicate MayClose(t: Tables, id: Id, c: Closure) {
    (c.venue.Some? || c.resource.Some?) && c.startAt < c.endAt && id !in t.closures
  }

  /** The reserved bookings on covered slots. */
  ghost function Displaced(t: Tables, c: Closure): set<Id> {
    set b | b in t.bookings && t.bookings[b].status == BookingReserved && t.bookings[b].slot in t.slots
            && Covers(t, c, t.slots[t.bookings[b].slot])
  }

  ghost predicate ClosureAnswer(t: Tables, t': Tables, id: Id, c: Closure, res: Result<set<Id>, BookingError>) {
    && (res.Ok? <==> MayClose(t, id, c)) && (res.Err? ==> t' == t)
    && (res.Ok? ==>
          && t' == t.(closures := t.closures[id := c], slots := t'.slots, bookings := t'.bookings)
          && t'.slots.Keys == t.slots.Keys
          && (forall s :: s in t.slots ==>
                t'.slots[s] == if Covers(t, c, t.slots[s]) then t.slots[s].(open := false, reservedCount := 0) else t.slots[s])
          && Restated(t.bookings, t'.bookings, Displaced(t, c), BookingClosureCancelled)
          && (forall u :: u in res.value <==> exists b :: b in Displaced(t, c) && t.bookings[b].user == u))
  }

  lemma ClosureAnswers(t: Tables, id: Id, c: Closure)
    requires SlotsOk(t.resources, t.slots)
    ensures var tx := CreateClosure(t, id, c); ClosureAnswer(t, tx.After(t), id, c, tx.Answer())
  {
    var tx := CreateClosure(t, id, c);
    if tx.Commit? {
      forall s | s in t.slots
        ensures Closes(t.resources, c, t.slots[s]) <==> Covers(t, c, t.slots[s])
      {
        assert SlotOk(t.resources, t.slots[s]);
        ClosesIsCovers(t, c, t.slots[s]);
      }
      ClosureRows(t, id, c);
    }
  }

  lemma ClosureRows(t: Tables, id: Id, c: Closure)
    requires CreateClosure(t, id, c).Commit?
    requires forall s :: s in t.slots ==> (Closes(t.resources, c, t.slots[s]) <==> Covers(t, c, t.slots[s]))
    ensures var tx := CreateClosure(t, id, c); ClosureAnswer(t, tx.After(t), id, c, tx.Answer())
  {
    var tx := CreateClosure(t, id, c);
    assert tx.db.slots.Keys == t.slots.Keys && tx.db.bookings.Keys == t.bookings.Keys;
  }

  // ---------- administration ----------

  ghost function Chosen(given: int, otherwise: int): int {
    if given > 0 then given else otherwise
  }

  /** A venue opens for a week ahead, in slots of an hour, two bookings a day, cancellable until two hours
      before, unless told otherwise. */
  lemma VenueAnswers(t: Tables, id: Id, advanceDays: int, slotMinutes: int, dailyLimit: int, cancelBefore: int)
    ensures CreateVenue(t, id, advanceDays, slotMinutes, dailyLimit, cancelBefore).Commit? <==> id !in t.venues
    ensures CreateVenue(t, id, advanceDays, slotMinutes, dailyLimit, cancelBefore).After(t) ==
      if id in t.venues then t
      else t.(venues := t.venues[id := Venue(true, Chosen(advanceDays, 7), Chosen(slotMinutes, 60), Chosen(dailyLimit, 2), Chosen(cancelBefore, 120))])
  {}

  lemma ResourceAnswers(t: Tables, id: Id, venue: Id, capacity: int)
    ensures CreateResource(t, id, venue, capacity).Commit? <==> id !in t.resources && venue in t.venues
    ensures CreateResource(t, id, venue, capacity).After(t) ==
      if id !in t.resources && venue in t.venues then t.(resources := t.resources[id := Resource(venue, Chosen(capacity, 1), true)]) else t
  {}

  lemma RuleAnswers(t: Tables, id: Id, rule: Rule)
    ensures CreateRule(t, id, rule).Commit? <==>
      id !in t.rules && rule.resource in t.resources && 0 <= rule.startMinute < rule.endMinute <= 24 * 60
    ensures CreateRule(t, id, rule).After(t) == if CreateRule(t, id, rule).Commit? then t.(rules := t.rules[id := rule]) else t
  {}

  // ---------- generation ----------

  /** Day 4 was a Monday, the first day of the week. */
  lemma WeekdayIff(day: int, weekday: int)
    ensures Weekday(day) == weekday <==> 1 <= weekday <= 7 && (day - 4) % 7 == weekday - 1
  {}

  /** A rule applies to a day if it is active, for the resource, and of the day's weekday. */
  lemma StoredRulesAre(rules: map<Id, Rule>, resource: Id, day: int, r: Rule)
    ensures r in StoredRules(rules, resource, day) <==>
      exists id :: id in rules && rules[id] == r && r.resource == resource && r.active
                   && 1 <= r.weekday <= 7 && (day - 4) % 7 == r.weekday - 1
  {
    WeekdayIff(day, r.weekday);
    if id :| id in rules && rules[id] == r && r.resource == resource && r.active && Weekday(day) == r.weekday {
      assert rules[id] in StoredRules(rules, resource, day);
    }
  }

  /** A generated slot has the resource's capacity, nobody in it, and is closed exactly when a closure
      covers it. */
  lemma GeneratedSlot(t: Tables, resource: Id, rule: Rule, day: int, k: nat)
    requires Inv(t) && resource in t.resources && RuleOk(rule)
    requires k < SlotCount(rule, t.venues[t.resources[resource].venue].slotMinutes)
    ensures var s := RuleSlot(t, resource, t.resources[resource].venue, rule, day, k);
      && s.resource == resource && s.capacity == t.resources[resource].capacity && s.reservedCount == 0
      && (!s.open <==> exists c :: c in t.closures && Covers(t, t.closures[c], s))
  {
    var venue := t.resources[resource].venue;
    var s := RuleSlot(t, resource, venue, rule, day, k);
    RuleSlotShape(t, resource, venue, rule, day, k);
    forall c | c in t.closures
      ensures Blocks(t.closures[c], venue, resource, s.startAt, s.endAt) <==> Covers(t, t.closures[c], s)
    {
      assert ClosureNamed(t.closures[c]);
      SameRelation(t.resources, t.closures[c], s);
      ClosesIsCovers(t, t.closures[c], s);
    }
  }

  /** The resource and its venue are there and active. */
  ghost predicate Serves(t: Tables, resource: Id) {
    && resource in t.resources && t.resources[resource].active
    && t.resources[resource].venue in t.venues && t.venues[t.resources[resource].venue].active
  }

  ghost predicate InWindow(t: Tables, resource: Id, day: int, now: int) {
    && resource in t.resources && t.resources[resource].venue in t.venues
    && DayOf(now) <= day <= DayOf(now) + t.venues[t.resources[resource].venue].advanceDays
  }

  /** The row is a slot of a rule that applies to the day. */
  ghost predicate FromRule(t: Tables, resource: Id, day: int, s: Slot)
    requires resource in t.resources && t.resources[resource].venue in t.venues
  {
    var venue := t.resources[resource].venue;
    exists r, k: nat :: r in StoredRules(t.rules, resource, day) && HasSlot(t, venue, r, k) && s == RuleSlot(t, resource, venue, r, day, k)
  }

  ghost predicate HasSlot(t: Tables, venue: Id, r: Rule, k: nat)
    requires venue in t.venues
  {
    t.venues[venue].slotMinutes > 0 && k < SlotCount(r, t.venues[venue].slotMinutes)
  }

  /** Generation refuses exactly a resource that does not serve; outside the window it changes nothing; what
      it adds are slots of rules that apply. */
  lemma GenerationAnswers(t: Tables, resource: Id, day: int, list: seq<Rule>, ids: nat -> Id, now: int)
    requires Inv(t) && RulesFor(t.rules, resource, day, list)
    ensures var tx := GenerateDay(t, resource, day, list, ids, now);
      && (tx == Abort(NotFound) <==> !Serves(t, resource))
      && (!InWindow(t, resource, day, now) ==> tx.After(t) == t)
      && (tx.Commit? ==> Serves(t, resource) && forall s :: s in tx.db.slots && s !in t.slots ==> FromRule(t, resource, day, tx.db.slots[s]))
  {
    var tx := GenerateDay(t, resource, day, list, ids, now);
    if tx.Commit? && tx.db != t {
      var venue := t.resources[resource].venue;
      var batch := DaySlots(t, resource, venue, list, day);
      EnsureGrows(t.slots, batch, ids);
      forall s | s in tx.db.slots && s !in t.slots
        ensures FromRule(t, resource, day, tx.db.slots[s])
      {
        DaySlotsMember(t, resource, venue, list, day, tx.db.slots[s]);
        var r, k: nat :| r in list && k < SlotCount(r, t.venues[venue].slotMinutes) && tx.db.slots[s] == RuleSlot(t, resource, venue, r, day, k);
        assert r in Elems(list) && HasSlot(t, venue, r, k);
      }
    }
  }
}
