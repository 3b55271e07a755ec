/** The daily limit counted by creation time: when the booking transaction keeps it, and when a whole run
    does. */
module ReservationTiming {
  import opened Support
  import opened Reservation
  import opened ReservationInvariant
  import opened SlotGeneration
  import opened ReservationRuns

  /** The user's valid bookings of the day created no later than this one are within its venue's limit. */
  ghost predicate TimedAt(t: Tables, b: Id) {
    b in t.bookings && Active(t.bookings[b].status) && t.bookings[b].slot in t.slots ==>
      |DailyByTime(t.slots, t.bookings, b)| <= OwnLimit(t, b)
  }

  ghost predicate TimedOk(t: Tables) {
    forall b :: TimedAt(t, b)
  }

  /** A valid booking of the user and day that is not older than a booking stamped `now` has room for it. */
  ghost predicate RoomAt(t: Tables, user: Id, day: int, now: int, b: Id) {
    b in Daily(t.slots, t.bookings, user, day) && t.bookings[b].createdAt >= now ==>
      |DailyByTime(t.slots, t.bookings, b)| < OwnLimit(t, b)
  }

  ghost predicate Room(t: Tables, user: Id, day: int, now: int) {
    forall b :: RoomAt(t, user, day, now, b)
  }

  // ---------- one booking ----------

  /** What a successful booking does to the count of a booking that was there. */
  lemma OldCount(t: Tables, id: Id, row: Booking, b: Id)
    requires id !in t.bookings && row.slot in t.slots && Active(row.status)
    requires b in t.bookings && t.bookings[b].slot in t.slots
    ensures var t' := t.(slots := Reserve(t.slots, row.slot), bookings := t.bookings[id := row]);
      && OwnLimit(t', b) == OwnLimit(t, b)
      && |DailyByTime(t'.slots, t'.bookings, b)| == |DailyByTime(t.slots, t.bookings, b)|
           + (if Joins(t, row, b) then 1 else 0)
  {
    var t' := t.(slots := Reserve(t.slots, row.slot), bookings := t.bookings[id := row]);
    OneMember(DailyByTime(t.slots, t.bookings, b), DailyByTime(t'.slots, t'.bookings, b), id);
  }

  /** The new booking falls on the day of `b`, for the same user, and is stamped no later. */
  ghost predicate Joins(t: Tables, row: Booking, b: Id)
    requires row.slot in t.slots && b in t.bookings && t.bookings[b].slot in t.slots
  {
    && row.user == t.bookings[b].user && row.createdAt <= t.bookings[b].createdAt
    && DayOf(t.slots[row.slot].startAt) == DayOf(t.slots[t.bookings[b].slot].startAt)
  }

  /** The new booking itself is always within its limit. */
  lemma NewCount(t: Tables, id: Id, row: Booking)
    requires id !in t.bookings && row.slot in t.slots && Active(row.status)
    requires |Daily(t.slots, t.bookings, row.user, DayOf(t.slots[row.slot].startAt))| < LimitOf(t.venues, t.resources, t.slots[row.slot].resource)
    ensures TimedAt(t.(slots := Reserve(t.slots, row.slot), bookings := t.bookings[id := row]), id)
  {
    var t' := t.(slots := Reserve(t.slots, row.slot), bookings := t.bookings[id := row]);
    var daily := Daily(t.slots, t.bookings, row.user, DayOf(t.slots[row.slot].startAt));
    SubsetSize(DailyByTime(t'.slots, t'.bookings, id), daily + {id});
  }

  /** For a booking that was there: it stays within its limit exactly when it has room. */
  lemma OldStaysIff(t: Tables, id: Id, row: Booking, b: Id)
    requires id !in t.bookings && row.slot in t.slots && Active(row.status) && b != id && TimedAt(t, b)
    ensures TimedAt(t.(slots := Reserve(t.slots, row.slot), bookings := t.bookings[id := row]), b) <==>
      RoomAt(t, row.user, DayOf(t.slots[row.slot].startAt), row.createdAt, b)
  {
    if b in t.bookings && Active(t.bookings[b].status) && t.bookings[b].slot in t.slots {
      OldCount(t, id, row, b);
    }
  }

  /** A booking keeps the limit by creation time exactly when every booking of the user and day stamped
      at the same time or later still has room. */
  lemma BookingTimedIff(t: Tables, id: Id, user: Id, slot: Id, code: string, now: int)
    requires TimedOk(t) && CreateBooking(t, id, user, slot, code, now).Commit?
    ensures slot in t.slots
    ensures TimedOk(CreateBooking(t, id, user, slot, code, now).db) <==> Room(t, user, DayOf(t.slots[slot].startAt), now)
  {
    BookingGuards(t, id, user, slot, code, now);
    var row := Booking(user, slot, BookingReserved, code, |t.bookings|, now);
    var t' := t.(slots := Reserve(t.slots, slot), bookings := t.bookings[id := row]);
    NewCount(t, id, row);
    forall b
      ensures TimedAt(t', b) <==> RoomAt(t, user, DayOf(t.slots[slot].startAt), now, b)
    {
      if b != id {
        assert TimedAt(t, b);
        OldStaysIff(t, id, row, b);
      }
    }
  }

  // ---------- every other transaction ----------

  lemma CatalogWeakens(t: Tables, op: Op)
    requires op.DoCreateVenue? || op.DoCreateResource? || op.DoCreateRule? || op.DoGenerateDay?
    ensures Apply(t, op).bookings == t.bookings
  {}

  lemma CancelWeakens(t: Tables, op: Op)
    requires op.DoCancelBooking?
    ensures Weaker(t.bookings, Apply(t, op).bookings)
  {
    var r := CancelBooking(t, op.id, op.user, op.now);
    if r.Commit? && r.value {
      CancelEffect(t, op.id, op.user, op.now);
    }
  }

  lemma UseWeakens(t: Tables, op: Op)
    requires op.DoCheckin? || op.DoMarkNoShows?
    ensures Weaker(t.bookings, Apply(t, op).bookings)
  {
    if op.DoCheckin? {
      CheckinEffect(t, op.code);
    } else {
      NoShowEffect(t, op.now);
    }
  }

  lemma ClosureWeakens(t: Tables, op: Op)
    requires op.DoCreateClosure?
    ensures Weaker(t.bookings, Apply(t, op).bookings)
  {
    assert Apply(t, op).bookings.Keys == t.bookings.Keys;
  }

  lemma OtherWeakens(t: Tables, op: Op)
    requires !op.DoCreateBooking?
    ensures Weaker(t.bookings, Apply(t, op).bookings)
  {
    if op.DoCancelBooking? {
      CancelWeakens(t, op);
    } else if op.DoCheckin? || op.DoMarkNoShows? {
      UseWeakens(t, op);
    } else if op.DoCreateClosure? {
      ClosureWeakens(t, op);
    } else {
      CatalogWeakens(t, op);
    }
  }

  lemma WeakerTimed(t: Tables, t': Tables, b: Id)
    requires ResourcesOk(t.venues, t.resources) && SlotsOk(t.resources, t.slots) && BookingsOk(t.slots, t.bookings)
    requires Extends(t, t') && Weaker(t.bookings, t'.bookings) && TimedAt(t, b)
    ensures TimedAt(t', b)
  {
    if b in t'.bookings && Active(t'.bookings[b].status) && t'.bookings[b].slot in t'.slots {
      assert t.bookings[b].slot in t.slots;
      assert SlotOk(t.resources, t.slots[t.bookings[b].slot]);
      SubsetSize(DailyByTime(t'.slots, t'.bookings, b), DailyByTime(t.slots, t.bookings, b));
    }
  }

  lemma OtherTimed(t: Tables, op: Op)
    requires Inv(t) && TimedOk(t) && !op.DoCreateBooking?
    ensures TimedOk(Apply(t, op))
  {
    ApplyExtends(t, op);
    OtherWeakens(t, op);
    forall b
      ensures TimedAt(Apply(t, op), b)
    {
      WeakerTimed(t, Apply(t, op), b);
    }
  }

  // ---------- runs ----------

  /** A booking about to be committed finds room; checked before the transaction. */
  ghost predicate Roomy(t: Tables, op: Op) {
    op.DoCreateBooking? && CreateBooking(t, op.id, op.user, op.slot, op.code, op.now).Commit? ==>
      op.slot in t.slots && Room(t, op.user, DayOf(t.slots[op.slot].startAt), op.now)
  }

  lemma StepTimedIff(t: Tables, op: Op)
    requires Inv(t) && TimedOk(t)
    ensures TimedOk(Apply(t, op)) <==> Roomy(t, op)
  {
    if op.DoCreateBooking? {
      if CreateBooking(t, op.id, op.user, op.slot, op.code, op.now).Commit? {
        BookingTimedIff(t, op.id, op.user, op.slot, op.code, op.now);
      }
    } else {
      OtherTimed(t, op);
    }
  }

  /** The limit by creation time holds after the first k transactions. */
  ghost predicate TimedAfter(ops: seq<Op>, k: nat)
    requires k <= |ops|
  {
    TimedOk(Run(EMPTY, ops[..k]))
  }

  /** The k-th transaction finds room. */
  ghost predicate RoomyAt(ops: seq<Op>, k: nat)
    requires k < |ops|
  {
    Roomy(Run(EMPTY, ops[..k]), ops[k])
  }

  ghost predicate AlwaysTimed(ops: seq<Op>) {
    forall k :: 0 <= k <= |ops| ==> TimedAfter(ops, k)
  }

  ghost predicate AlwaysRoomy(ops: seq<Op>) {
    forall k :: 0 <= k < |ops| ==> RoomyAt(ops, k)
  }

  lemma AlwaysTimedLast(ops: seq<Op>)
    requires ops != []
    ensures AlwaysTimed(ops) <==> AlwaysTimed(ops[..|ops| - 1]) && TimedAfter(ops, |ops|)
  {
    var before := ops[..|ops| - 1];
    forall k: nat | k <= |before|
      ensures TimedAfter(before, k) <==> TimedAfter(ops, k)
    {
      assert before[..k] == ops[..k];
    }
  }

  lemma AlwaysRoomyLast(ops: seq<Op>)
    requires ops != []
    ensures AlwaysRoomy(ops) <==> AlwaysRoomy(ops[..|ops| - 1]) && RoomyAt(ops, |ops| - 1)
  {
    var before := ops[..|ops| - 1];
    forall k: nat | k < |before|
      ensures RoomyAt(before, k) <==> RoomyAt(ops, k)
    {
      assert before[..k] == ops[..k] && before[k] == ops[k];
    }
  }

  lemma LastTimedIff(ops: seq<Op>)
    requires ops != [] && TimedAfter(ops, |ops| - 1)
    ensures TimedAfter(ops, |ops|) <==> RoomyAt(ops, |ops| - 1)
  {
    var before := ops[..|ops| - 1];
    assert ops[..|ops|] == ops;
    RunKeeps(EMPTY, before);
    StepTimedIff(Run(EMPTY, before), ops[|ops| - 1]);
  }

  /** The limit by creation time holds in every state of a run exactly when every booking committed in
      the run found room. */
  lemma {:induction false} RunTimedIff(ops: seq<Op>)
    ensures AlwaysTimed(ops) <==> AlwaysRoomy(ops)
    decreases |ops|
  {
    if ops == [] {
      assert forall b :: TimedAt(EMPTY, b);
      assert ops[..0] == [] && TimedAfter(ops, 0);
    } else {
      var before := ops[..|ops| - 1];
      RunTimedIff(before);
      AlwaysTimedLast(ops);
      AlwaysRoomyLast(ops);
      if AlwaysTimed(before) {
        assert TimedAfter(before, |before|) && before[..|before|] == before;
        LastTimedIff(ops);
      }
    }
  }
}
