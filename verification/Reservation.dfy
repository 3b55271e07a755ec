/** The reservation tables, slot generation from weekly rules, and what each transaction does to the
    tables.  Times are milliseconds since a local midnight in one fixed-offset zone. */
module Reservation {
  import opened Support

  const MINUTE: int := 60_000
  const DAY: int := 1440 * MINUTE

  datatype Venue = Venue(active: bool, advanceDays: int, slotMinutes: int, dailyLimit: int, cancelBeforeMinutes: int)

  datatype Resource = Resource(venue: Id, capacity: int, active: bool)

  datatype Rule = Rule(resource: Id, weekday: int, startMinute: int, endMinute: int, active: bool)

  datatype Closure = Closure(venue: Option<Id>, resource: Option<Id>, startAt: int, endAt: int)

  datatype Slot = Slot(resource: Id, startAt: int, endAt: int, capacity: int, reservedCount: int, open: bool)

  datatype BookingStatus =
    | BookingReserved | BookingCancelled | BookingClosureCancelled | BookingCheckedIn | BookingNoShow

  /** `serial` is the row's position in commit order; `createdAt` is the time the service read before
      the transaction. */
  datatype Booking = Booking(user: Id, slot: Id, status: BookingStatus, code: string, serial: nat, createdAt: int)

  datatype Tables = Tables(
    venues: map<Id, Venue>,
    resources: map<Id, Resource>,
    rules: map<Id, Rule>,
    closures: map<Id, Closure>,
    slots: map<Id, Slot>,
    bookings: map<Id, Booking>)

  const EMPTY := Tables(map[], map[], map[], map[], map[], map[])

  datatype BookingError =
    | SlotUnavailable | BookingConflict | DailyLimit | CancelDeadline | BadRequest | NotFound | ConstraintViolated

  datatype Tx<+R> = Commit(db: Tables, value: R) | Abort(error: BookingError)
  {
    function After(before: Tables): Tables {
      if Commit? then db else before
    }

    function Answer(): Result<R, BookingError> {
      if Commit? then Ok(value) else Err(error)
    }
  }

  // ---------- calendar ----------

  function DayOf(time: int): int { time / DAY }

  /** Monday is 1 and Sunday is 7; day 0 is a Thursday. */
  function Weekday(day: int): int { (day + 3) % 7 + 1 }

  // ---------- relations between rows ----------

  /** Half-open intervals that meet. */
  predicate Overlap(a: Slot, b: Slot) {
    a.startAt < b.endAt && a.endAt > b.startAt
  }

  /** The booking keeps its seat. */
  predicate Occupies(s: BookingStatus) {
    s in {BookingReserved, BookingCheckedIn, BookingNoShow}
  }

  /** The booking counts against its user's limits. */
  predicate Active(s: BookingStatus) {
    s in {BookingReserved, BookingCheckedIn}
  }

  /** The slots a new closure closes: its resource's, or else its venue's. */
  predicate Closes(resources: map<Id, Resource>, c: Closure, s: Slot) {
    && s.startAt < c.endAt && s.endAt > c.startAt
    && (match c.resource
        case Some(r) => s.resource == r
        case None => match c.venue
          case Some(v) => s.resource in resources && resources[s.resource].venue == v
          case None => true)
  }

  /** The closures a new slot has to respect. */
  predicate Blocks(c: Closure, venue: Id, resource: Id, startAt: int, endAt: int) {
    && (c.resource == Some(resource) || (c.resource.None? && c.venue == Some(venue)))
    && c.startAt < endAt && c.endAt > startAt
  }

  ghost predicate HasClosure(closures: map<Id, Closure>, venue: Id, resource: Id, startAt: int, endAt: int) {
    exists c :: c in closures && Blocks(closures[c], venue, resource, startAt, endAt)
  }

  ghost function Occupants(bookings: map<Id, Booking>, slot: Id): set<Id> {
    set b | b in bookings && bookings[b].slot == slot && Occupies(bookings[b].status)
  }

  /** The user's active bookings on a day. */
  ghost function Daily(slots: map<Id, Slot>, bookings: map<Id, Booking>, user: Id, day: int): set<Id> {
    set b | b in bookings && bookings[b].user == user && Active(bookings[b].status)
            && bookings[b].slot in slots && DayOf(slots[bookings[b].slot].startAt) == day
  }

  ghost predicate Conflict(slots: map<Id, Slot>, bookings: map<Id, Booking>, user: Id, slot: Slot) {
    exists b :: b in bookings && bookings[b].user == user && Active(bookings[b].status)
                && bookings[b].slot in slots && Overlap(slots[bookings[b].slot], slot)
  }

  // ---------- slot generation ----------

  /** How many whole slots fit into a rule. */
  function SlotCount(rule: Rule, minutes: int): nat
    requires minutes > 0
  {
    if rule.startMinute <= rule.endMinute then (rule.endMinute - rule.startMinute) / minutes else 0
  }

  /** The k-th slot of a rule on a day. */
  ghost function RuleSlot(t: Tables, resource: Id, venue: Id, rule: Rule, day: int, k: nat): Slot
    requires resource in t.resources && venue in t.venues
  {
    var minutes := t.venues[venue].slotMinutes;
    var startAt := day * DAY + (rule.startMinute + k * minutes) * MINUTE;
    var endAt := startAt + minutes * MINUTE;
    Slot(resource, startAt, endAt, t.resources[resource].capacity, 0, !HasClosure(t.closures, venue, resource, startAt, endAt))
  }

  ghost function RuleSlots(t: Tables, resource: Id, venue: Id, rule: Rule, day: int): seq<Slot>
    requires resource in t.resources && venue in t.venues && t.venues[venue].slotMinutes > 0
  {
    seq(SlotCount(rule, t.venues[venue].slotMinutes),
        (k: nat) requires resource in t.resources && venue in t.venues => RuleSlot(t, resource, venue, rule, day, k))
  }

  /** All slots of a day, rule after rule. */
  ghost function DaySlots(t: Tables, resource: Id, venue: Id, rules: seq<Rule>, day: int): seq<Slot>
    requires resource in t.resources && venue in t.venues && t.venues[venue].slotMinutes > 0
  {
    if rules == [] then []
    else DaySlots(t, resource, venue, rules[..|rules| - 1], day) + RuleSlots(t, resource, venue, rules[|rules| - 1], day)
  }

  /** The rules stored for a resource and a day. */
  ghost function StoredRules(rules: map<Id, Rule>, resource: Id, day: int): set<Rule> {
    set id | id in rules && rules[id].resource == resource && rules[id].weekday == Weekday(day) && rules[id].active :: rules[id]
  }

  /** A listing of the stored rules, in whatever order the query returns them. */
  ghost predicate RulesFor(rules: map<Id, Rule>, resource: Id, day: int, list: seq<Rule>) {
    Elems(list) == StoredRules(rules, resource, day)
  }

  ghost predicate SameKey(a: Slot, b: Slot) {
    a.resource == b.resource && a.startAt == b.startAt && a.endAt == b.endAt
  }

  ghost predicate HasKey(slots: map<Id, Slot>, s: Slot) {
    exists k :: k in slots && SameKey(slots[k], s)
  }

  /** Insert a batch, skipping slots whose key exists; a clash of ids fails the whole statement. */
  ghost function EnsureSlots(slots: map<Id, Slot>, batch: seq<Slot>, ids: nat -> Id): Option<map<Id, Slot>>
    decreases |batch|
  {
    if batch == [] then Some(slots) else
      var n := |batch| - 1;
      match EnsureSlots(slots, batch[..n], ids)
      case None => None
      case Some(m) =>
        if HasKey(m, batch[n]) then Some(m)
        else if ids(n) in m then None
        else Some(m[ids(n) := batch[n]])
  }

  // ---------- transactions ----------

  ghost function CreateVenue(t: Tables, id: Id, advanceDays: int, slotMinutes: int, dailyLimit: int, cancelBefore: int): Tx<()> {
    if id in t.venues then Abort(ConstraintViolated) else
      var v := Venue(true,
                     if advanceDays <= 0 then 7 else advanceDays,
                     if slotMinutes <= 0 then 60 else slotMinutes,
                     if dailyLimit <= 0 then 2 else dailyLimit,
                     if cancelBefore <= 0 then 120 else cancelBefore);
      Commit(t.(venues := t.venues[id := v]), ())
  }

  ghost function CreateResource(t: Tables, id: Id, venue: Id, capacity: int): Tx<()> {
    if id in t.resources || venue !in t.venues then Abort(ConstraintViolated)
    else Commit(t.(resources := t.resources[id := Resource(venue, if capacity <= 0 then 1 else capacity, true)]), ())
  }

  ghost function CreateRule(t: Tables, id: Id, r: Rule): Tx<()> {
    if r.startMinute < 0 || r.endMinute > 1440 || r.endMinute <= r.startMinute then Abort(BadRequest)
    else if id in t.rules || r.resource !in t.resources then Abort(ConstraintViolated)
    else Commit(t.(rules := t.rules[id := r]), ())
  }

  /** Look at a resource's day: its missing slots are generated first. */
  ghost function GenerateDay(t: Tables, resource: Id, day: int, list: seq<Rule>, ids: nat -> Id, now: int): Tx<()> {
    if resource !in t.resources || !t.resources[resource].active then Abort(NotFound) else
      var venue := t.resources[resource].venue;
      if venue !in t.venues || !t.venues[venue].active then Abort(NotFound)
      else if day < DayOf(now) || day > DayOf(now) + t.venues[venue].advanceDays then Commit(t, ())
      else if t.venues[venue].slotMinutes <= 0 then Abort(BadRequest)
      else match EnsureSlots(t.slots, DaySlots(t, resource, venue, list, day), ids)
        case None => Abort(ConstraintViolated)
        case Some(slots) => Commit(t.(slots := slots), ())
  }

  ghost predicate CodeTaken(bookings: map<Id, Booking>, code: string) {
    exists b :: b in bookings && bookings[b].code == code
  }

  ghost function CreateBooking(t: Tables, id: Id, user: Id, slotID: Id, code: string, now: int): Tx<()> {
    if slotID !in t.slots then Abort(SlotUnavailable) else
      var s := t.slots[slotID];
      if !s.open || s.reservedCount >= s.capacity || s.startAt <= now then Abort(SlotUnavailable)
      else if s.resource !in t.resources || !t.resources[s.resource].active then Abort(SlotUnavailable)
      else
        var venue := t.resources[s.resource].venue;
        if venue !in t.venues || !t.venues[venue].active then Abort(SlotUnavailable)
        else if s.startAt >= (DayOf(now) + t.venues[venue].advanceDays + 1) * DAY then Abort(SlotUnavailable)
        else if |Daily(t.slots, t.bookings, user, DayOf(s.startAt))| >= t.venues[venue].dailyLimit then Abort(DailyLimit)
        else if Conflict(t.slots, t.bookings, user, s) then Abort(BookingConflict)
        else if id in t.bookings || CodeTaken(t.bookings, code) then Abort(ConstraintViolated)
        else Commit(t.(slots := t.slots[slotID := s.(reservedCount := s.reservedCount + 1)],
                       bookings := t.bookings[id := Booking(user, slotID, BookingReserved, code, |t.bookings|, now)]), ())
  }

  ghost function CancelBooking(t: Tables, id: Id, user: Id, now: int): Tx<bool> {
    if id !in t.bookings || t.bookings[id].user != user || t.bookings[id].status != BookingReserved then Commit(t, false)
    else
      var b := t.bookings[id];
      if b.slot !in t.slots || t.slots[b.slot].resource !in t.resources then Abort(NotFound) else
        var s := t.slots[b.slot];
        var venue := t.resources[s.resource].venue;
        if venue !in t.venues then Abort(NotFound)
        else if now >= s.startAt - t.venues[venue].cancelBeforeMinutes * MINUTE then Abort(CancelDeadline)
        else if s.reservedCount <= 0 then Abort(SlotUnavailable)
        else Commit(t.(slots := t.slots[b.slot := s.(reservedCount := s.reservedCount - 1)],
                       bookings := t.bookings[id := b.(status := BookingCancelled)]), true)
  }

  ghost function Checkin(t: Tables, code: string): Tx<bool> {
    var hit := set b | b in t.bookings && t.bookings[b].code == code && t.bookings[b].status == BookingReserved;
    Commit(t.(bookings := map b | b in t.bookings ::
             if b in hit then t.bookings[b].(status := BookingCheckedIn) else t.bookings[b]), hit != {})
  }

  ghost function MarkNoShows(t: Tables, now: int): Tx<set<Id>> {
    var hit := set b | b in t.bookings && t.bookings[b].status == BookingReserved
                       && t.bookings[b].slot in t.slots && t.slots[t.bookings[b].slot].endAt <= now;
    Commit(t.(bookings := map b | b in t.bookings ::
             if b in hit then t.bookings[b].(status := BookingNoShow) else t.bookings[b]), hit)
  }

  /** Everyone whose reservation is cancelled gets told: the value is the set of users. */
  ghost function CreateClosure(t: Tables, id: Id, c: Closure): Tx<set<Id>> {
    if (c.venue.None? && c.resource.None?) || c.endAt <= c.startAt then Abort(BadRequest)
    else if id in t.closures then Abort(ConstraintViolated)
    else
      var shut := set s | s in t.slots && Closes(t.resources, c, t.slots[s]);
      var hit := set b | b in t.bookings && t.bookings[b].slot in shut && t.bookings[b].status == BookingReserved;
      Commit(t.(closures := t.closures[id := c],
                slots := map s | s in t.slots ::
                  if s in shut then t.slots[s].(open := false, reservedCount := 0) else t.slots[s],
                bookings := map b | b in t.bookings ::
                  if b in hit then t.bookings[b].(status := BookingClosureCancelled) else t.bookings[b]),
             set b | b in hit :: t.bookings[b].user)
  }

  // ---------- runs ----------

  datatype Op =
    | DoCreateVenue(id: Id, advanceDays: int, slotMinutes: int, dailyLimit: int, cancelBefore: int)
    | DoCreateResource(id: Id, venue: Id, capacity: int)
    | DoCreateRule(id: Id, rule: Rule)
    | DoGenerateDay(resource: Id, day: int, list: seq<Rule>, ids: nat -> Id, now: int)
    | DoCreateBooking(id: Id, user: Id, slot: Id, code: string, now: int)
    | DoCancelBooking(id: Id, user: Id, now: int)
    | DoCheckin(code: string)
    | DoMarkNoShows(now: int)
    | DoCreateClosure(id: Id, closure: Closure)

  /** A day is only ever generated from the rules stored for it. */
  ghost function Apply(t: Tables, op: Op): Tables {
    match op
    case DoCreateVenue(id, advance, minutes, limit, cancel) => CreateVenue(t, id, advance, minutes, limit, cancel).After(t)
    case DoCreateResource(id, venue, capacity) => CreateResource(t, id, venue, capacity).After(t)
    case DoCreateRule(id, rule) => CreateRule(t, id, rule).After(t)
    case DoGenerateDay(resource, day, list, ids, now) =>
      if RulesFor(t.rules, resource, day, list) then GenerateDay(t, resource, day, list, ids, now).After(t) else t
    case DoCreateBooking(id, user, slot, code, now) => CreateBooking(t, id, user, slot, code, now).After(t)
    case DoCancelBooking(id, user, now) => CancelBooking(t, id, user, now).After(t)
    case DoCheckin(code) => Checkin(t, code).After(t)
    case DoMarkNoShows(now) => MarkNoShows(t, now).After(t)
    case DoCreateClosure(id, closure) => CreateClosure(t, id, closure).After(t)
  }

  ghost function Run(t: Tables, ops: seq<Op>): Tables
    decreases |ops|
  {
    if ops == [] then t else Apply(Run(t, ops[..|ops| - 1]), ops[|ops| - 1])
  }
}
