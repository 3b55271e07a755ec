/** The reservation repository, statement by statement, proved against the transaction functions in
    `Reservation`. */
module ReservationRepository {
  import opened Support
  import opened Reservation

  ghost predicate Ran<R>(tx: Tx<R>, before: Tables, after: Tables, res: Result<R, BookingError>) {
    after == tx.After(before) && res == tx.Answer()
  }

  class Repository {
    var venues: map<Id, Venue>
    var resources: map<Id, Resource>
    var rules: map<Id, Rule>
    var closures: map<Id, Closure>
    var slots: map<Id, Slot>
    var bookings: map<Id, Booking>

    ghost function Db(): Tables
      reads this
    {
      Tables(venues, resources, rules, closures, slots, bookings)
    }

    constructor ()
      ensures Db() == EMPTY
    {
      venues, resources, rules, closures, slots, bookings := map[], map[], map[], map[], map[], map[];
    }

    // ---------- administration ----------

    method CreateVenue(id: Id, advanceDays: int, slotMinutes: int, dailyLimit: int, cancelBefore: int)
      returns (res: Result<(), BookingError>)
      modifies this
      ensures Ran(Reservation.CreateVenue(old(Db()), id, advanceDays, slotMinutes, dailyLimit, cancelBefore), old(Db()), Db(), res)
    {
      if id in venues { return Err(ConstraintViolated); }
      var venue := Venue(true, advanceDays, slotMinutes, dailyLimit, cancelBefore);
      if venue.advanceDays <= 0 { venue := venue.(advanceDays := 7); }
      if venue.slotMinutes <= 0 { venue := venue.(slotMinutes := 60); }
      if venue.dailyLimit <= 0 { venue := venue.(dailyLimit := 2); }
      if venue.cancelBeforeMinutes <= 0 { venue := venue.(cancelBeforeMinutes := 120); }
      venues := venues[id := venue];
      return Ok(());
    }

    method CreateResource(id: Id, venue: Id, capacity: int) returns (res: Result<(), BookingError>)
      modifies this
      ensures Ran(Reservation.CreateResource(old(Db()), id, venue, capacity), old(Db()), Db(), res)
    {
      if id in resources || venue !in venues { return Err(ConstraintViolated); }
      resources := resources[id := Resource(venue, if capacity <= 0 then 1 else capacity, true)];
      return Ok(());
    }

    method CreateRule(id: Id, rule: Rule) returns (res: Result<(), BookingError>)
      modifies this
      ensures Ran(Reservation.CreateRule(old(Db()), id, rule), old(Db()), Db(), res)
    {
      if rule.startMinute < 0 || rule.endMinute > 1440 || rule.endMinute <= rule.startMinute { return Err(BadRequest); }
      if id in rules || rule.resource !in resources { return Err(ConstraintViolated); }
      rules := rules[id := rule];
      return Ok(());
    }

    method CreateClosure(id: Id, closure: Closure) returns (res: Result<set<Id>, BookingError>)
      modifies this
      ensures Ran(Reservation.CreateClosure(old(Db()), id, closure), old(Db()), Db(), res)
    {
      if closure.venue.None? && closure.resource.None? { return Err(BadRequest); }
      if closure.endAt <= closure.startAt { return Err(BadRequest); }
      if id in closures { return Err(ConstraintViolated); }
      closures := closures[id := closure];
      var shut := set s | s in slots && Closes(resources, closure, slots[s]);
      var hit := set b | b in bookings && bookings[b].slot in shut && bookings[b].status == BookingReserved;
      var users := set b | b in hit :: bookings[b].user;
      bookings := map b | b in bookings :: if b in hit then bookings[b].(status := BookingClosureCancelled) else bookings[b];
      slots := map s | s in slots :: if s in shut then slots[s].(open := false, reservedCount := 0) else slots[s];
      return Ok(users);
    }

    // ---------- slots ----------

    method HasClosure(venue: Id, resource: Id, startAt: int, endAt: int) returns (closed: bool)
      ensures closed <==> Reservation.HasClosure(closures, venue, resource, startAt, endAt)
    {
      closed := exists c :: c in closures && Blocks(closures[c], venue, resource, startAt, endAt);
    }

    /** The rules stored for a resource and a weekday, in any order. */
    method ListRules(resource: Id, day: int) returns (list: seq<Rule>)
      ensures RulesFor(rules, resource, day, list)
    {
      list := [];
      var rest := set id | id in rules && rules[id].resource == resource && rules[id].weekday == Weekday(day) && rules[id].active;
      while rest != {}
        invariant forall id :: id in rest ==> id in rules && rules[id].resource == resource && rules[id].weekday == Weekday(day) && rules[id].active
        invariant forall i :: 0 <= i < |list| ==> list[i] in StoredRules(rules, resource, day)
        invariant forall r :: r in StoredRules(rules, resource, day) ==> r in list || exists id :: id in rest && rules[id] == r
        decreases |rest|
      {
        var id :| id in rest;
        list, rest := list + [rules[id]], rest - {id};
      }
    }

    /** The slots of a resource that start on a day, the earliest first. */
    method ListSlots(resource: Id, day: int) returns (list: seq<Id>)
      ensures Lists(slots, resource, day, list)
    {
      list := [];
      var rest := set s | s in slots && slots[s].resource == resource && day * DAY <= slots[s].startAt < (day + 1) * DAY;
      while rest != {}
        invariant forall s :: s in rest || s in list <==> s in slots && slots[s].resource == resource && DayOf(slots[s].startAt) == day
        invariant forall i :: 0 <= i < |list| ==> list[i] !in rest
        invariant forall i, j :: 0 <= i < j < |list| ==> list[i] != list[j] && slots[list[i]].startAt <= slots[list[j]].startAt
        invariant forall i, s :: 0 <= i < |list| && s in rest ==> slots[list[i]].startAt <= slots[s].startAt
        decreases |rest|
      {
        var first := Earliest(slots, rest);
        list, rest := list + [first], rest - {first};
      }
    }

    /** Insert a batch in one statement: an existing key is skipped, a clash of ids rolls all back. */
    method EnsureSlots(batch: seq<Slot>, ids: nat -> Id) returns (ok: bool)
      modifies this`slots
      ensures match Reservation.EnsureSlots(old(slots), batch, ids)
              case Some(m) => ok && slots == m
              case None => !ok && slots == old(slots)
    {
      var before := slots;
      for i := 0 to |batch|
        invariant Reservation.EnsureSlots(before, batch[..i], ids) == Some(slots)
      {
        assert batch[..i + 1][..i] == batch[..i];
        var s := batch[i];
        if k :| k in slots && slots[k].resource == s.resource && slots[k].startAt == s.startAt && slots[k].endAt == s.endAt {
          assert SameKey(slots[k], s);
        } else {
          assert !HasKey(slots, s);
          if ids(i) in slots {
            EnsureFails(before, batch, ids, i + 1);
            slots := before;
            return false;
          }
          slots := slots[ids(i) := s];
        }
      }
      assert batch[..|batch|] == batch;
      return true;
    }

    // ---------- bookings ----------

    method CreateBooking(id: Id, user: Id, slotID: Id, code: string, now: int) returns (res: Result<(), BookingError>)
      modifies this
      ensures Ran(Reservation.CreateBooking(old(Db()), id, user, slotID, code, now), old(Db()), Db(), res)
    {
      if slotID !in slots { return Err(SlotUnavailable); }
      var slot := slots[slotID];
      if !slot.open || slot.reservedCount >= slot.capacity || slot.startAt <= now { return Err(SlotUnavailable); }
      if slot.resource !in resources || !resources[slot.resource].active { return Err(SlotUnavailable); }
      var venueID := resources[slot.resource].venue;
      if venueID !in venues || !venues[venueID].active { return Err(SlotUnavailable); }
      var venue := venues[venueID];
      var latest := (DayOf(now) + venue.advanceDays + 1) * DAY;
      if slot.startAt >= latest { return Err(SlotUnavailable); }
      var date := DayOf(slot.startAt);
      var daily := set b | b in bookings && bookings[b].user == user && Active(bookings[b].status)
                           && bookings[b].slot in slots && DayOf(slots[bookings[b].slot].startAt) == date;
      assert daily == Daily(slots, bookings, user, date);
      if |daily| >= venue.dailyLimit { return Err(DailyLimit); }
      if exists b :: b in bookings && bookings[b].user == user && Active(bookings[b].status)
                     && bookings[b].slot in slots && Overlap(slots[bookings[b].slot], slot) {
        return Err(BookingConflict);
      }
      var before := slots;
      slots := slots[slotID := slot.(reservedCount := slot.reservedCount + 1)];
      if id in bookings || exists b :: b in bookings && bookings[b].code == code {
        slots := before;
        return Err(ConstraintViolated);
      }
      bookings := bookings[id := Booking(user, slotID, BookingReserved, code, |bookings|, now)];
      return Ok(());
    }

    method CancelBooking(id: Id, user: Id, now: int) returns (res: Result<bool, BookingError>)
      modifies this
      ensures Ran(Reservation.CancelBooking(old(Db()), id, user, now), old(Db()), Db(), res)
    {
      if id !in bookings || bookings[id].user != user { return Ok(false); }
      var item := bookings[id];
      if item.status != BookingReserved { return Ok(false); }
      if item.slot !in slots { return Err(NotFound); }
      var slot := slots[item.slot];
      if slot.resource !in resources { return Err(NotFound); }
      var venue := resources[slot.resource].venue;
      if venue !in venues { return Err(NotFound); }
      if now >= slot.startAt - venues[venue].cancelBeforeMinutes * MINUTE { return Err(CancelDeadline); }
      var before := bookings;
      bookings := bookings[id := item.(status := BookingCancelled)];
      if slot.reservedCount <= 0 {
        bookings := before;
        return Err(SlotUnavailable);
      }
      slots := slots[item.slot := slot.(reservedCount := slot.reservedCount - 1)];
      return Ok(true);
    }

    method Checkin(code: string) returns (res: Result<bool, BookingError>)
      modifies this
      ensures Ran(Reservation.Checkin(old(Db()), code), old(Db()), Db(), res)
    {
      var hit := set b | b in bookings && bookings[b].code == code && bookings[b].status == BookingReserved;
      bookings := map b | b in bookings :: if b in hit then bookings[b].(status := BookingCheckedIn) else bookings[b];
      return Ok(hit != {});
    }

    method MarkNoShows(now: int) returns (res: Result<set<Id>, BookingError>)
      modifies this
      ensures Ran(Reservation.MarkNoShows(old(Db()), now), old(Db()), Db(), res)
    {
      var hit := set b | b in bookings && bookings[b].status == BookingReserved
                         && bookings[b].slot in slots && slots[bookings[b].slot].endAt <= now;
      bookings := map b | b in bookings :: if b in hit then bookings[b].(status := BookingNoShow) else bookings[b];
      return Ok(hit);
    }
  }

  method Earliest(slots: map<Id, Slot>, ids: set<Id>) returns (first: Id)
    requires ids != {} && forall s :: s in ids ==> s in slots
    ensures first in ids && forall s :: s in ids ==> slots[first].startAt <= slots[s].startAt
  {
    first :| first in ids;
    var rest := ids - {first};
    while rest != {}
      invariant first in ids && rest <= ids
      invariant forall s :: s in ids && s !in rest ==> slots[first].startAt <= slots[s].startAt
      decreases |rest|
    {
      var s :| s in rest;
      rest := rest - {s};
      if slots[s].startAt < slots[first].startAt { first := s; }
    }
  }

  /** Exactly the resource's slots that start on the day, each once, in order of their start. */
  ghost predicate Lists(slots: map<Id, Slot>, resource: Id, day: int, list: seq<Id>) {
    && (forall s :: s in list <==> s in slots && slots[s].resource == resource && DayOf(slots[s].startAt) == day)
    && (forall i, j :: 0 <= i < j < |list| ==> list[i] != list[j] && slots[list[i]].startAt <= slots[list[j]].startAt)
  }

  /** A statement that fails on a prefix fails as a whole. */
  lemma {:induction false} EnsureFails(slots: map<Id, Slot>, batch: seq<Slot>, ids: nat -> Id, n: nat)
    requires n <= |batch| && Reservation.EnsureSlots(slots, batch[..n], ids).None?
    ensures Reservation.EnsureSlots(slots, batch, ids).None?
    decreases |batch|
  {
    if n < |batch| {
      assert batch[..|batch| - 1][..n] == batch[..n];
      EnsureFails(slots, batch[..|batch| - 1], ids, n);
    } else {
      assert batch[..n] == batch;
    }
  }
}
