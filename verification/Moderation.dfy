/** The capability cache against the punishments table.  Each service operation, cache write or
    invalidation included, is one step; the clock never goes back.  Times are milliseconds. */
module Moderation {
  import opened Support

  datatype Capability = Content | Trade | Reserving | Account

  datatype Punishment = Punishment(user: Id, capability: Capability, active: bool, startsAt: int, endsAt: Option<int>)

  datatype ReportStatus = ReportPending | ReportReviewing | ReportRejected | ReportActioned | ReportWithdrawn

  datatype Report = Report(reporter: Id, target: Id, status: ReportStatus, assignee: Option<Id>)

  datatype AppealStatus = AppealPending | AppealApproved | AppealRejected

  datatype Appeal = Appeal(punishment: Id, user: Id, status: AppealStatus)

  /** A cached capability set; the cache drops it when its time to live runs out. */
  datatype Entry = Entry(caps: set<Capability>, expiresAt: int)

  datatype State = State(
    clock: int,
    reports: map<Id, Report>,
    punishments: map<Id, Punishment>,
    appeals: map<Id, Appeal>,
    cache: map<Id, Entry>)

  const CACHE_TTL: int := 5 * 60 * 1000

  // ---------- the table's answer ----------

  predicate InForce(p: Punishment, user: Id, now: int) {
    p.user == user && p.active && p.startsAt <= now && (p.endsAt.None? || p.endsAt.value > now)
  }

  /** The capabilities the punishments table denies a user at a moment. */
  ghost function Denied(punishments: map<Id, Punishment>, user: Id, now: int): set<Capability> {
    set p | p in punishments && InForce(punishments[p], user, now) :: punishments[p].capability
  }

  // ---------- filling the cache ----------

  /** The entry lives at most five minutes and no longer than any punishment it was computed from. */
  ghost predicate TtlOk(list: seq<Punishment>, now: int, ttl: int) {
    && ttl <= CACHE_TTL
    && (forall i :: 0 <= i < |list| && list[i].endsAt.Some? ==> ttl <= list[i].endsAt.value - now)
    && (ttl == CACHE_TTL || exists i :: 0 <= i < |list| && list[i].endsAt.Some? && ttl == list[i].endsAt.value - now)
  }

  /** The loop over the punishments in force: their capabilities, and the running minimum of the
      time left. */
  method Summarise(list: seq<Punishment>, now: int) returns (caps: set<Capability>, ttl: int)
    ensures forall c :: c in caps <==> exists i :: 0 <= i < |list| && list[i].capability == c
    ensures TtlOk(list, now, ttl)
  {
    caps, ttl := {}, CACHE_TTL;
    for i := 0 to |list|
      invariant forall c :: c in caps ==> exists j :: 0 <= j < i && list[j].capability == c
      invariant forall j :: 0 <= j < i ==> list[j].capability in caps
      invariant TtlOk(list[..i], now, ttl)
    {
      var item := list[i];
      caps := caps + {item.capability};
      ghost var before := ttl;
      if item.endsAt.Some? && item.endsAt.value - now < ttl {
        ttl := item.endsAt.value - now;
        assert list[..i + 1][i] == item;
      } else if ttl != CACHE_TTL {
        var j :| 0 <= j < i && list[j].endsAt.Some? && ttl == list[j].endsAt.value - now;
        assert list[..i + 1][j] == list[j];
      }
    }
    assert list[..|list|] == list;
  }

  ghost predicate Holds(punishments: map<Id, Punishment>, row: Punishment) {
    exists p :: p in punishments && punishments[p] == row
  }

  /** A listing of the user's punishments in force, as the query returns them. */
  ghost predicate Lists(punishments: map<Id, Punishment>, user: Id, now: int, list: seq<Punishment>) {
    && (forall i :: 0 <= i < |list| ==> Holds(punishments, list[i]) && InForce(list[i], user, now))
    && (forall p :: p in punishments && InForce(punishments[p], user, now) ==> punishments[p] in list)
  }

  // ---------- steps ----------

  ghost predicate Live(s: State, user: Id) {
    user in s.cache && s.clock < s.cache[user].expiresAt
  }

  /** What the service answers: the cached set while it lives, otherwise the table's. */
  ghost function Served(s: State, user: Id): set<Capability> {
    if Live(s, user) then s.cache[user].caps else Denied(s.punishments, user, s.clock)
  }

  datatype Step =
    | Tick(to: int)
    | FileReport(id: Id, reporter: Id, target: Id)
    | WithdrawReport(id: Id, reporter: Id)
    | Claim(id: Id, admin: Id)
    | Settle(id: Id, admin: Id, rejected: bool)
    | Punish(id: Id, admin: Id, punishment: Id, capability: Capability, minutes: Option<int>, length: int)
    | Revoke(punishment: Id)
    | FileAppeal(id: Id, user: Id, punishment: Id)
    | DecideAppeal(id: Id, approved: bool)
    | Fill(user: Id, ttl: int)

  ghost function Without(cache: map<Id, Entry>, user: Id): map<Id, Entry> {
    cache - {user}
  }

  ghost predicate Reviewing(s: State, id: Id, admin: Id) {
    id in s.reports && s.reports[id].status == ReportReviewing && s.reports[id].assignee == Some(admin)
  }

  ghost function Revoked(punishments: map<Id, Punishment>, p: Id): map<Id, Punishment> {
    if p in punishments && punishments[p].active then punishments[p := punishments[p].(active := false)] else punishments
  }

  /** One step; a refused operation changes nothing.  `Settle` is a review decided without a
      punishment.  In `Punish`, `length` is what the conversion of the requested minutes to a 64-bit
      duration yields; it is left arbitrary, so a conversion that wraps round is covered.  `Fill` is a look-up that misses: it stores the
      table's answer for `ttl` milliseconds. */
  ghost function Next(s: State, step: Step): State {
    match step
    case Tick(to) => if to < s.clock then s else s.(clock := to)
    case FileReport(id, reporter, target) =>
      if id in s.reports then s else s.(reports := s.reports[id := Report(reporter, target, ReportPending, None)])
    case WithdrawReport(id, reporter) =>
      if id !in s.reports || s.reports[id].reporter != reporter || s.reports[id].status != ReportPending then s
      else s.(reports := s.reports[id := s.reports[id].(status := ReportWithdrawn)])
    case Claim(id, admin) =>
      if id !in s.reports || s.reports[id].status != ReportPending then s
      else s.(reports := s.reports[id := s.reports[id].(status := ReportReviewing, assignee := Some(admin))])
    case Settle(id, admin, rejected) =>
      if !Reviewing(s, id, admin) then s
      else s.(reports := s.reports[id := s.reports[id].(status := if rejected then ReportRejected else ReportActioned)])
    case Punish(id, admin, p, capability, minutes, length) =>
      if !Reviewing(s, id, admin) || (minutes.Some? && minutes.value <= 0) || p in s.punishments then s else
        var user := s.reports[id].target;
        var ends := if minutes.Some? then Some(s.clock + length) else None;
        s.(reports := s.reports[id := s.reports[id].(status := ReportActioned)],
           punishments := s.punishments[p := Punishment(user, capability, true, s.clock, ends)],
           cache := Without(s.cache, user))
    case Revoke(p) =>
      if p !in s.punishments || !s.punishments[p].active then s
      else s.(punishments := Revoked(s.punishments, p), cache := Without(s.cache, s.punishments[p].user))
    case FileAppeal(id, user, p) =>
      if p !in s.punishments || s.punishments[p].user != user || id in s.appeals
         || (exists a :: a in s.appeals && s.appeals[a].punishment == p) then s
      else s.(appeals := s.appeals[id := Appeal(p, user, AppealPending)])
    case DecideAppeal(id, approved) =>
      if id !in s.appeals || s.appeals[id].status != AppealPending then s
      else if !approved then s.(appeals := s.appeals[id := s.appeals[id].(status := AppealRejected)])
      else s.(appeals := s.appeals[id := s.appeals[id].(status := AppealApproved)],
              punishments := Revoked(s.punishments, s.appeals[id].punishment),
              cache := Without(s.cache, s.appeals[id].user))
    case Fill(user, ttl) =>
      if Live(s, user) || !FillTtl(s, user, ttl) then s
      else s.(cache := s.cache[user := Entry(Denied(s.punishments, user, s.clock), s.clock + ttl)])
  }

  /** The time to live the fill loop computes for some listing of the punishments in force. */
  ghost predicate FillTtl(s: State, user: Id, ttl: int) {
    exists list :: Lists(s.punishments, user, s.clock, list) && TtlOk(list, s.clock, ttl)
  }

  ghost function Run(s: State, steps: seq<Step>): State
    decreases |steps|
  {
    if steps == [] then s else Next(Run(s, steps[..|steps| - 1]), steps[|steps| - 1])
  }

  // ---------- the invariant ----------

  /** The entry is right now and stays right until it expires, if nothing is decided meanwhile. */
  ghost predicate EntryOk(punishments: map<Id, Punishment>, user: Id, e: Entry, clock: int) {
    forall time :: clock <= time < e.expiresAt ==> e.caps == Denied(punishments, user, time)
  }

  ghost predicate CacheOk(s: State) {
    forall u :: u in s.cache ==> EntryOk(s.punishments, u, s.cache[u], s.clock)
  }

  ghost predicate Started(punishments: map<Id, Punishment>, clock: int) {
    forall p :: p in punishments ==> punishments[p].startsAt <= clock
  }

  ghost predicate AppealOk(punishments: map<Id, Punishment>, a: Appeal) {
    a.punishment in punishments && punishments[a.punishment].user == a.user
  }

  /** An appeal belongs to the punished user, so approving it invalidates the right entry. */
  ghost predicate AppealsOk(s: State) {
    forall a :: a in s.appeals ==> AppealOk(s.punishments, s.appeals[a])
  }

  ghost predicate Inv(s: State) {
    CacheOk(s) && Started(s.punishments, s.clock) && AppealsOk(s)
  }

  /** A decision about one user leaves every other user's entry right. */
  lemma OthersUntouched(punishments: map<Id, Punishment>, p: Id, row: Punishment, cache: map<Id, Entry>, clock: int, user: Id)
    requires forall u :: u in cache ==> EntryOk(punishments, u, cache[u], clock)
    requires row.user == user && (p in punishments ==> punishments[p].user == user)
    ensures forall u :: u in Without(cache, user) ==> EntryOk(punishments[p := row], u, cache[u], clock)
  {
    var after := punishments[p := row];
    forall u | u in Without(cache, user)
      ensures EntryOk(after, u, cache[u], clock)
    {
      assert EntryOk(punishments, u, cache[u], clock);
      forall time | clock <= time < cache[u].expiresAt
        ensures cache[u].caps == Denied(after, u, time)
      {
        forall c
          ensures c in Denied(after, u, time) <==> c in Denied(punishments, u, time)
        {
          if q :| q in punishments && InForce(punishments[q], u, time) && punishments[q].capability == c {
            assert q in after && after[q] == punishments[q];
          }
        }
      }
    }
  }

  /** An entry filled now answers like the table until the first of its punishments ends. */
  lemma FilledEntryOk(punishments: map<Id, Punishment>, user: Id, list: seq<Punishment>, now: int, ttl: int)
    requires Started(punishments, now) && Lists(punishments, user, now, list) && TtlOk(list, now, ttl)
    ensures EntryOk(punishments, user, Entry(Denied(punishments, user, now), now + ttl), now)
  {
    forall time | now <= time < now + ttl
      ensures Denied(punishments, user, now) == Denied(punishments, user, time)
    {
      forall p | p in punishments
        ensures InForce(punishments[p], user, now) <==> InForce(punishments[p], user, time)
      {
        if InForce(punishments[p], user, now) {
          var i :| 0 <= i < |list| && list[i] == punishments[p];
        }
      }
    }
  }

  lemma PunishKeeps(s: State, step: Step)
    requires Inv(s) && step.Punish?
    ensures Inv(Next(s, step))
  {
    if Next(s, step) != s {
      var p, user := step.punishment, s.reports[step.id].target;
      OthersUntouched(s.punishments, p, Next(s, step).punishments[p], s.cache, s.clock, user);
    }
  }

  lemma RevokeKeeps(s: State, step: Step)
    requires Inv(s) && step.Revoke?
    ensures Inv(Next(s, step))
  {
    var p := step.punishment;
    if p in s.punishments && s.punishments[p].active {
      OthersUntouched(s.punishments, p, s.punishments[p].(active := false), s.cache, s.clock, s.punishments[p].user);
    }
  }

  lemma AppealKeeps(s: State, step: Step)
    requires Inv(s) && step.DecideAppeal?
    ensures Inv(Next(s, step))
  {
    if step.approved && step.id in s.appeals && s.appeals[step.id].status == AppealPending {
      var p := s.appeals[step.id].punishment;
      if s.punishments[p].active {
        OthersUntouched(s.punishments, p, s.punishments[p].(active := false), s.cache, s.clock, s.punishments[p].user);
      }
    }
  }

  lemma FillKeeps(s: State, step: Step)
    requires Inv(s) && step.Fill?
    ensures Inv(Next(s, step))
  {
    if Next(s, step) != s {
      var list :| Lists(s.punishments, step.user, s.clock, list) && TtlOk(list, s.clock, step.ttl);
      FilledEntryOk(s.punishments, step.user, list, s.clock, step.ttl);
    }
  }

  lemma NextKeeps(s: State, step: Step)
    requires Inv(s)
    ensures Inv(Next(s, step))
  {
    match step
    case Punish(_, _, _, _, _, _) => PunishKeeps(s, step);
    case Revoke(_) => RevokeKeeps(s, step);
    case DecideAppeal(_, _) => AppealKeeps(s, step);
    case Fill(_, _) => FillKeeps(s, step);
    case _ =>
  }

  lemma {:induction false} RunKeeps(s: State, steps: seq<Step>)
    requires Inv(s)
    ensures Inv(Run(s, steps))
    decreases |steps|
  {
    if steps != [] {
      RunKeeps(s, steps[..|steps| - 1]);
      NextKeeps(Run(s, steps[..|steps| - 1]), steps[|steps| - 1]);
    }
  }

  lemma ServedIsDenied(s: State, user: Id)
    requires Inv(s)
    ensures Served(s, user) == Denied(s.punishments, user, s.clock)
  {
    if Live(s, user) {
      assert EntryOk(s.punishments, user, s.cache[user], s.clock);
    }
  }

  /** Over every run: the set served for a user, cached or not, is the set the punishments table gives
      at that very moment, so a capability check refuses exactly when a punishment in force denies
      the capability or the whole account. */
  lemma ServedIsCurrent(start: int, steps: seq<Step>, user: Id, capability: Capability)
    ensures var s := Run(State(start, map[], map[], map[], map[]), steps);
      && Served(s, user) == Denied(s.punishments, user, s.clock)
      && (Account in Served(s, user) || capability in Served(s, user) <==>
            exists p :: p in s.punishments && InForce(s.punishments[p], user, s.clock)
                        && s.punishments[p].capability in {Account, capability})
  {
    var s0 := State(start, map[], map[], map[], map[]);
    RunKeeps(s0, steps);
    var s := Run(s0, steps);
    ServedIsDenied(s, user);
    if p :| p in s.punishments && InForce(s.punishments[p], user, s.clock) && s.punishments[p].capability in {Account, capability} {
      assert s.punishments[p].capability in Denied(s.punishments, user, s.clock);
    }
  }
}
