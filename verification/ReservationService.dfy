/** The reservation service: what users, administrators and the scheduler call.  The invariant holds
    before and after every call, and each contract says what the caller may rely on because of it. */
module ReservationService {
  import opened Support
  import opened Reservation
  import opened ReservationInvariant
  import opened SlotGeneration
  import opened ReservationRuns
  import opened ReservationRepository
  import opened ReservationReference

  class Service {
    const repo: Repository

    ghost function Db(): Tables
      reads repo
    {
      repo.Db()
    }

    /** The invariant that every run of transactions keeps. */
    ghost predicate Valid()
      reads repo
    {
      Inv(repo.Db())
    }

    constructor ()
      ensures Valid() && fresh(repo) && Db() == EMPTY
    {
      repo := new Repository();
    }

    // ---------- administration ----------

    /** Zero and negative settings become the defaults, so a venue always has a slot length and a limit. */
    method CreateVenue(id: Id, advanceDays: int, slotMinutes: int, dailyLimit: int, cancelBefore: int)
      returns (res: Result<(), BookingError>)
      requires Valid()
      modifies repo
      ensures Valid()
      ensures Ran(Reservation.CreateVenue(old(Db()), id, advanceDays, slotMinutes, dailyLimit, cancelBefore), old(Db()), Db(), res)
    {
      ghost var next := Reservation.CreateVenue(Db(), id, advanceDays, slotMinutes, dailyLimit, cancelBefore).After(Db());
      assert Inv(next) by { CreateVenueKeeps(Db(), id, advanceDays, slotMinutes, dailyLimit, cancelBefore); }
      res := repo.CreateVenue(id, advanceDays, slotMinutes, dailyLimit, cancelBefore);
      assert Db() == next;
    }

    method CreateResource(id: Id, venue: Id, capacity: int) returns (res: Result<(), BookingError>)
      requires Valid()
      modifies repo
      ensures Valid() && Ran(Reservation.CreateResource(old(Db()), id, venue, capacity), old(Db()), Db(), res)
    {
      ghost var next := Reservation.CreateResource(Db(), id, venue, capacity).After(Db());
      assert Inv(next) by { CreateResourceKeeps(Db(), id, venue, capacity); }
      res := repo.CreateResource(id, venue, capacity);
      assert Db() == next;
    }

    method CreateRule(id: Id, rule: Rule) returns (res: Result<(), BookingError>)
      requires Valid()
      modifies repo
      ensures Valid() && Ran(Reservation.CreateRule(old(Db()), id, rule), old(Db()), Db(), res)
    {
      ghost var next := Reservation.CreateRule(Db(), id, rule).After(Db());
      assert Inv(next) by { CreateRuleKeeps(Db(), id, rule); }
      res := repo.CreateRule(id, rule);
      assert Db() == next;
    }

    /** Exactly the slots the closure covers are closed, with no seat counted; exactly the reserved bookings
        on them are cancelled, and their users told. */
    method CreateClosure(id: Id, closure: Closure) returns (res: Result<set<Id>, BookingError>)
      requires Valid()
      modifies repo
      ensures Valid() && Ran(Reservation.CreateClosure(old(Db()), id, closure), old(Db()), Db(), res)
      ensures ClosureAnswer(old(Db()), Db(), id, closure, res)
    {
      ghost var next := Reservation.CreateClosure(Db(), id, closure).After(Db());
      assert Inv(next) by { CreateClosureKeeps(Db(), id, closure); }
      ClosureAnswers(Db(), id, closure);
      res := repo.CreateClosure(id, closure);
      assert Db() == next;
    }

    // ---------- slots ----------

    /** The outer generation loop: rule after rule. */
    method BuildSlots(resource: Id, venue: Id, list: seq<Rule>, day: int) returns (batch: seq<Slot>)
      requires resource in repo.resources && venue in repo.venues && repo.venues[venue].slotMinutes > 0
      ensures batch == DaySlots(Db(), resource, venue, list, day)
    {
      batch := [];
      for i := 0 to |list|
        invariant batch == DaySlots(Db(), resource, venue, list[..i], day)
      {
        var more := BuildRuleSlots(resource, venue, list[i], day);
        batch := batch + more;
        assert list[..i + 1][..i] == list[..i];
      }
      assert list[..|list|] == list;
    }

    /** The inner loop: an advancing minute, while a whole slot still fits. */
    method BuildRuleSlots(resource: Id, venue: Id, rule: Rule, day: int) returns (batch: seq<Slot>)
      requires resource in repo.resources && venue in repo.venues && repo.venues[venue].slotMinutes > 0
      ensures batch == RuleSlots(Db(), resource, venue, rule, day)
    {
      var minutes := repo.venues[venue].slotMinutes;
      ghost var all := RuleSlots(Db(), resource, venue, rule, day);
      ghost var k: nat := 0;
      batch := [];
      var minute := rule.startMinute;
      while minute + minutes <= rule.endMinute
        invariant k <= |all| && minute == rule.startMinute + k * minutes
        invariant batch == all[..k]
        decreases rule.endMinute - minute
      {
        FitsAnother(rule, minutes, k);
        assert k < |all|;
        var startAt := day * DAY + minute * MINUTE;
        var endAt := startAt + minutes * MINUTE;
        var closed := repo.HasClosure(venue, resource, startAt, endAt);
        batch := batch + [Slot(resource, startAt, endAt, repo.resources[resource].capacity, 0, !closed)];
        minute := minute + minutes;
        k := k + 1;
      }
      FitsNoMore(rule, minutes, k);
    }

    /** Generate the missing slots of a day; `list` is the listing of the rules it used. */
    method GenerateDay(resource: Id, day: int, ids: nat -> Id, now: int)
      returns (res: Result<(), BookingError>, ghost list: seq<Rule>)
      modifies repo
      ensures RulesFor(old(repo.rules), resource, day, list)
      ensures Ran(Reservation.GenerateDay(old(Db()), resource, day, list, ids, now), old(Db()), Db(), res)
    {
      var rules := repo.ListRules(resource, day);
      list := rules;
      if resource !in repo.resources || !repo.resources[resource].active { return Err(NotFound), list; }
      var venue := repo.resources[resource].venue;
      if venue !in repo.venues || !repo.venues[venue].active { return Err(NotFound), list; }
      if day < DayOf(now) || day > DayOf(now) + repo.venues[venue].advanceDays { return Ok(()), list; }
      if repo.venues[venue].slotMinutes <= 0 { return Err(BadRequest), list; }
      var batch := BuildSlots(resource, venue, rules, day);
      var ok := repo.EnsureSlots(batch, ids);
      if !ok { return Err(ConstraintViolated), list; }
      return Ok(()), list;
    }

    method GenerateMissing(resource: Id, day: int, ids: nat -> Id, now: int) returns (res: Result<(), BookingError>)
      requires Valid()
      modifies repo
      ensures Valid()
      ensures if res.Ok? then Offered(old(Db()), Db(), resource, day, now) else Db() == old(Db())
      ensures res == Err(NotFound) <==> !Serves(old(Db()), resource)
    {
      ghost var before := Db();
      ghost var list;
      res, list := GenerateDay(resource, day, ids, now);
      GenerateDayKeeps(before, resource, day, list, ids, now);
      DayIsOffered(before, resource, day, list, ids, now);
      GenerationAnswers(before, resource, day, list, ids, now);
      ghost var next := Reservation.GenerateDay(before, resource, day, list, ids, now).After(before);
      assert Db() == next;
    }

    /** Look at a day of a resource.  Within the booking window, every slot of every rule stored for the
        day is there afterwards, and exactly the day's slots are listed, in order of their start;
        outside it, none. */
    method AvailableSlots(resource: Id, day: int, ids: nat -> Id, now: int) returns (res: Result<seq<Id>, BookingError>)
      requires Valid()
      modifies repo
      ensures Valid()
      ensures if res.Ok? then Offered(old(Db()), Db(), resource, day, now) else Db() == old(Db())
      ensures res == Err(NotFound) <==> !Serves(old(Db()), resource)
      ensures res.Ok? ==>
        if InWindow(old(Db()), resource, day, now) then Lists(repo.slots, resource, day, res.value) else res.value == []
    {
      var done := GenerateMissing(resource, day, ids, now);
      if done.Err? { return Err(done.error); }
      var venue := repo.resources[resource].venue;
      if day < DayOf(now) || day > DayOf(now) + repo.venues[venue].advanceDays { return Ok([]); }
      var list := repo.ListSlots(resource, day);
      return Ok(list);
    }

    // ---------- bookings ----------

    /** A booking that nothing stands in the way of takes one more seat; any other fails with the first
        obstacle. */
    method CreateBooking(id: Id, user: Id, slot: Id, code: string, now: int) returns (res: Result<(), BookingError>)
      requires Valid()
      modifies repo
      ensures Valid() && Ran(Reservation.CreateBooking(old(Db()), id, user, slot, code, now), old(Db()), Db(), res)
      ensures BookingAnswer(old(Db()), id, user, slot, code, now, res)
      ensures if res.Ok? then slot in old(repo.slots) && Db() == Seated(old(Db()), id, user, slot, code, now) else Db() == old(Db())
    {
      ghost var next := Reservation.CreateBooking(Db(), id, user, slot, code, now).After(Db());
      assert Inv(next) by { CreateBookingKeeps(Db(), id, user, slot, code, now); }
      BookingAnswers(Db(), id, user, slot, code, now);
      res := repo.CreateBooking(id, user, slot, code, now);
      assert Db() == next;
    }

    /** The user's own reserved booking is cancelled before the deadline and gives its seat back; after it
        the deadline is the error, the only one; any other booking is left alone. */
    method CancelBooking(id: Id, user: Id, now: int) returns (res: Result<bool, BookingError>)
      requires Valid()
      modifies repo
      ensures Valid() && Ran(Reservation.CancelBooking(old(Db()), id, user, now), old(Db()), Db(), res)
      ensures CancelAnswer(old(Db()), Db(), id, user, now, res)
    {
      ghost var next := Reservation.CancelBooking(Db(), id, user, now).After(Db());
      assert Inv(next) by { CancelBookingKeeps(Db(), id, user, now); }
      CancelAnswers(Db(), id, user, now);
      res := repo.CancelBooking(id, user, now);
      assert Db() == next;
    }

    /** At most one booking is checked in: codes are unique. */
    method Checkin(code: string) returns (res: Result<bool, BookingError>)
      requires Valid()
      modifies repo
      ensures Valid() && Ran(Reservation.Checkin(old(Db()), code), old(Db()), Db(), res)
      ensures OneChange(old(repo.bookings), repo.bookings) && CheckinAnswer(old(Db()), Db(), code, res)
    {
      ghost var next := Reservation.Checkin(Db(), code).After(Db());
      assert Inv(next) by { CheckinKeeps(Db(), code); }
      CheckinIsUnique(Db(), code);
      CheckinAnswers(Db(), code);
      res := repo.Checkin(code);
      assert Db() == next;
    }

    /** Exactly the reserved bookings on slots that are over become no-shows, and exactly they are listed. */
    method RunDueJobs(now: int) returns (res: Result<set<Id>, BookingError>)
      requires Valid()
      modifies repo
      ensures Valid() && Ran(Reservation.MarkNoShows(old(Db()), now), old(Db()), Db(), res)
      ensures NoneWaiting(Db(), now) && NoShowAnswer(old(Db()), Db(), now, res)
    {
      ghost var next := Reservation.MarkNoShows(Db(), now).After(Db());
      assert Inv(next) by { MarkNoShowsKeeps(Db(), now); }
      NoShowsClear(Db(), now);
      NoShowAnswers(Db(), now);
      res := repo.MarkNoShows(now);
      assert Db() == next;
    }
  }

  // ---------- the generation loop ----------

  lemma MulCancel(a: int, b: int, m: int)
    requires m > 0 && a * m < b * m
    ensures a < b
  {
    if b <= a { MulMonotone(b, a, m); }
  }

  /** The loop runs exactly `SlotCount` times. */
  lemma FitsAnother(rule: Rule, minutes: int, k: nat)
    requires minutes > 0 && rule.startMinute + k * minutes + minutes <= rule.endMinute
    ensures k < SlotCount(rule, minutes)
  {
    var span := rule.endMinute - rule.startMinute;
    assert k * minutes >= 0 by { MulMonotone(0, k, minutes); }
    assert span < (span / minutes + 1) * minutes;
    assert (k + 1) * minutes == k * minutes + minutes;
    MulCancel(k + 1, span / minutes + 1, minutes);
  }

  lemma FitsNoMore(rule: Rule, minutes: int, k: nat)
    requires minutes > 0 && rule.startMinute + k * minutes + minutes > rule.endMinute && k <= SlotCount(rule, minutes)
    ensures k == SlotCount(rule, minutes)
  {
    var n, span := SlotCount(rule, minutes), rule.endMinute - rule.startMinute;
    if n > 0 {
      assert (k + 1) * minutes == k * minutes + minutes;
      assert n * minutes <= span;
      MulCancel(n, k + 1, minutes);
    }
  }

  // ---------- what the invariant adds to a transaction ----------

  /** If the rule has a k-th slot, its key is in the table. */
  ghost predicate Present(t: Tables, resource: Id, venue: Id, day: int, r: Rule, k: nat)
    requires resource in t.resources && venue in t.venues
  {
    var minutes := t.venues[venue].slotMinutes;
    minutes > 0 && k < SlotCount(r, minutes) ==> HasKey(t.slots, RuleSlot(t, resource, venue, r, day, k))
  }

  /** In the window, every slot of every rule that applies is in the table, and only such slots were added;
      outside it nothing changed. */
  ghost predicate Offered(t: Tables, t': Tables, resource: Id, day: int, now: int) {
    && t' == t.(slots := t'.slots) && (forall s :: s in t.slots ==> s in t'.slots && t'.slots[s] == t.slots[s])
    && resource in t.resources && t.resources[resource].venue in t.venues
    && (!InWindow(t, resource, day, now) ==> t' == t)
    && (forall s :: s in t'.slots && s !in t.slots ==> FromRule(t, resource, day, t'.slots[s]))
    && (InWindow(t, resource, day, now) ==>
          forall r, k: nat :: r in StoredRules(t.rules, resource, day) ==> Present(t', resource, t'.resources[resource].venue, day, r, k))
  }

  lemma DayIsOffered(t: Tables, resource: Id, day: int, list: seq<Rule>, ids: nat -> Id, now: int)
    requires Inv(t) && RulesFor(t.rules, resource, day, list)
    ensures GenerateDay(t, resource, day, list, ids, now).Commit? ==>
      Offered(t, GenerateDay(t, resource, day, list, ids, now).db, resource, day, now)
  {
    var g := GenerateDay(t, resource, day, list, ids, now);
    GenerationAnswers(t, resource, day, list, ids, now);
    if g.Commit? && InWindow(t, resource, day, now) {
      var venue := t.resources[resource].venue;
      var batch := DaySlots(t, resource, venue, list, day);
      EnsureGrows(t.slots, batch, ids);
      forall r, k: nat | r in StoredRules(t.rules, resource, day)
        ensures Present(g.db, resource, venue, day, r, k)
      {
        assert r in Elems(list);
        if k < SlotCount(r, t.venues[venue].slotMinutes) {
          RulePresent(t, resource, venue, list, day, ids, r, k);
        }
      }
    }
  }

  lemma RulePresent(t: Tables, resource: Id, venue: Id, list: seq<Rule>, day: int, ids: nat -> Id, r: Rule, k: nat)
    requires resource in t.resources && venue in t.venues && t.venues[venue].slotMinutes > 0
    requires EnsureSlots(t.slots, DaySlots(t, resource, venue, list, day), ids).Some?
    requires r in list && k < SlotCount(r, t.venues[venue].slotMinutes)
    ensures Present(t.(slots := EnsureSlots(t.slots, DaySlots(t, resource, venue, list, day), ids).value), resource, venue, day, r, k)
  {
    var s := RuleSlot(t, resource, venue, r, day, k);
    DaySlotsMember(t, resource, venue, list, day, s);
    var batch := DaySlots(t, resource, venue, list, day);
    var j :| 0 <= j < |batch| && batch[j] == s;
    EnsurePresent(t.slots, batch, ids, j);
  }

  ghost predicate Differs(bookings: map<Id, Booking>, bookings': map<Id, Booking>, b: Id) {
    b in bookings && b in bookings' && bookings'[b] != bookings[b]
  }

  ghost predicate OneChange(bookings: map<Id, Booking>, bookings': map<Id, Booking>) {
    forall b, c :: Differs(bookings, bookings', b) && Differs(bookings, bookings', c) ==> b == c
  }

  lemma CheckinIsUnique(t: Tables, code: string)
    requires BookingsOk(t.slots, t.bookings)
    ensures OneChange(t.bookings, Checkin(t, code).After(t).bookings)
  {
    var after := Checkin(t, code).After(t).bookings;
    forall b, c | Differs(t.bookings, after, b) && Differs(t.bookings, after, c)
      ensures b == c
    {
      assert SameCode(t.bookings, b, c);
    }
  }

  ghost predicate NoneWaiting(t: Tables, now: int) {
    forall b :: b in t.bookings && t.bookings[b].slot in t.slots && t.slots[t.bookings[b].slot].endAt <= now ==>
      t.bookings[b].status != BookingReserved
  }

  lemma NoShowsClear(t: Tables, now: int)
    ensures NoneWaiting(MarkNoShows(t, now).After(t), now)
  {}
}
