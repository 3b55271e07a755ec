/** The moderation service and its repository, statement by statement, proved against the steps of
    `Moderation`.  The time of a call is a parameter. */
module ModerationService {
  import opened Support
  import opened Moderation

  class Service {
    var reports: map<Id, Report>
    var punishments: map<Id, Punishment>
    var appeals: map<Id, Appeal>
    var cache: map<Id, Entry>

    ghost function At(now: int): State
      reads this
    {
      State(now, reports, punishments, appeals, cache)
    }

    /** Every cached entry is right now and until it expires, if nothing is decided meanwhile. */
    ghost predicate Valid(now: int)
      reads this
    {
      Inv(At(now))
    }

    constructor (now: int)
      ensures Valid(now) && At(now) == State(now, map[], map[], map[], map[])
    {
      reports, punishments, appeals, cache := map[], map[], map[], map[];
    }

    /** The passing of time alone makes nothing wrong. */
    lemma TimePasses(now: int, later: int)
      requires Valid(now) && now <= later
      ensures Valid(later)
    {
      NextKeeps(At(now), Tick(later));
      assert Next(At(now), Tick(later)) == At(later);
    }

    // ---------- the cache ----------

    /** The query behind a cache miss; the rows come in no particular order. */
    method ActivePunishments(user: Id, now: int) returns (list: seq<Punishment>)
      ensures Lists(punishments, user, now, list)
    {
      list := [];
      var rest := set p | p in punishments && InForce(punishments[p], user, now);
      while rest != {}
        invariant forall p :: p in rest ==> p in punishments && InForce(punishments[p], user, now)
        invariant forall i :: 0 <= i < |list| ==> Holds(punishments, list[i]) && InForce(list[i], user, now)
        invariant forall p :: p in punishments && InForce(punishments[p], user, now) ==> p in rest || punishments[p] in list
        decreases |rest|
      {
        var p :| p in rest;
        list, rest := list + [punishments[p]], rest - {p};
      }
    }

    /** Answers what the table says at this moment.  Afterwards the answer is cached: the entry that was there,
        or a new one that lives for five minutes or until the first of its punishments ends. */
    method ActiveCapabilities(user: Id, now: int) returns (caps: set<Capability>)
      requires Valid(now)
      modifies this
      ensures Valid(now) && caps == Denied(punishments, user, now)
      ensures exists ttl :: At(now) == Next(old(At(now)), Fill(user, ttl))
      ensures Live(At(now), user) && cache[user].caps == caps
      ensures if Live(old(At(now)), user) then cache == old(cache)
              else FillTtl(old(At(now)), user, cache[user].expiresAt - now) && cache == old(cache)[user := cache[user]]
    {
      ghost var before := At(now);
      ServedIsDenied(before, user);
      if user in cache && now < cache[user].expiresAt {
        caps := cache[user].caps;
        assert At(now) == Next(before, Fill(user, 0));
        return;
      }
      var list := ActivePunishments(user, now);
      var ttl;
      caps, ttl := Summarise(list, now);
      assert ttl > 0;
      if ttl <= 0 {
        ttl := 1000;
      }
      ListedAreDenied(punishments, user, now, list, caps);
      cache := cache[user := Entry(caps, now + ttl)];
      NextKeeps(before, Fill(user, ttl));
      assert At(now) == Next(before, Fill(user, ttl));
    }

    method Invalidate(user: Id)
      modifies this`cache
      ensures cache == Without(old(cache), user)
    {
      cache := cache - {user};
    }

    /** The check refuses exactly when a punishment in force denies the capability or the whole account. */
    method Check(user: Id, capability: Capability, now: int) returns (denied: bool)
      requires Valid(now)
      modifies this
      ensures Valid(now)
      ensures denied <==> exists p :: p in punishments && InForce(punishments[p], user, now)
                                      && punishments[p].capability in {Account, capability}
    {
      var active := ActiveCapabilities(user, now);
      denied := Account in active || capability in active;
      if p :| p in punishments && InForce(punishments[p], user, now) && punishments[p].capability in {Account, capability} {
        assert punishments[p].capability in Denied(punishments, user, now);
      }
    }

    // ---------- decisions ----------

    method ClaimReport(id: Id, admin: Id, now: int) returns (ok: bool)
      requires Valid(now)
      modifies this
      ensures Valid(now) && At(now) == Next(old(At(now)), Claim(id, admin))
      ensures ok <==> old(id in reports && reports[id].status == ReportPending)
      ensures ok ==> id in reports && reports[id].status == ReportReviewing && reports[id].assignee == Some(admin)
      ensures forall r :: r in old(reports) && r != id ==> r in reports && reports[r] == old(reports)[r]
    {
      if id !in reports || reports[id].status != ReportPending { return false; }
      reports := reports[id := reports[id].(status := ReportReviewing, assignee := Some(admin))];
      return true;
    }

    /** The transaction: the reviewing administrator's report gets its final status and, if the decision
        is one, the punishment is inserted with it. */
    method CompleteReview(id: Id, admin: Id, status: ReportStatus, punishment: Option<(Id, Punishment)>) returns (ok: bool)
      modifies this`reports, this`punishments
      ensures ok <==> old(id in reports && reports[id].status == ReportReviewing && reports[id].assignee == Some(admin))
                      && (punishment.Some? ==> punishment.value.0 !in old(punishments))
      ensures reports == if ok then old(reports)[id := old(reports)[id].(status := status)] else old(reports)
      ensures punishments == if ok && punishment.Some? then old(punishments)[punishment.value.0 := punishment.value.1] else old(punishments)
    {
      if id !in reports || reports[id].status != ReportReviewing || reports[id].assignee != Some(admin) { return false; }
      var before := reports;
      reports := reports[id := reports[id].(status := status)];
      if punishment.Some? {
        if punishment.value.0 in punishments {
          reports := before;
          return false;
        }
        punishments := punishments[punishment.value.0 := punishment.value.1];
      }
      return true;
    }

    /** A review decided without a punishment: rejected, or acted upon by hiding the target. */
    method SettleReport(id: Id, admin: Id, rejected: bool, now: int) returns (ok: bool)
      requires Valid(now)
      modifies this
      ensures Valid(now) && At(now) == Next(old(At(now)), Settle(id, admin, rejected))
      ensures ok <==> Reviewing(old(At(now)), id, admin)
      ensures ok ==> id in reports && reports[id].status == if rejected then ReportRejected else ReportActioned
      ensures punishments == old(punishments) && cache == old(cache)
    {
      ok := CompleteReview(id, admin, if rejected then ReportRejected else ReportActioned, None);
    }

    /** A review decided by a punishment: it is in force from this moment (unless its length came out as
        zero or less), and a check made now sees it. */
    method PunishTarget(id: Id, admin: Id, p: Id, capability: Capability, minutes: Option<int>, length: int, now: int)
      returns (ok: bool)
      requires Valid(now)
      modifies this
      ensures Valid(now) && At(now) == Next(old(At(now)), Punish(id, admin, p, capability, minutes, length))
      ensures ok <==> Reviewing(old(At(now)), id, admin) && (minutes.Some? ==> minutes.value > 0) && p !in old(punishments)
      ensures ok ==> id in reports && reports[id].status == ReportActioned
      ensures ok ==> punishments == old(punishments)[p := Punishment(old(reports)[id].target, capability, true, now, EndsAt(minutes, length, now))]
      ensures ok && (minutes.Some? ==> length > 0) ==> capability in Denied(punishments, old(reports)[id].target, now)
    {
      ghost var before := At(now);
      if id !in reports || reports[id].status != ReportReviewing || reports[id].assignee != Some(admin) { return false; }
      if minutes.Some? && minutes.value <= 0 { return false; }
      var endsAt: Option<int> := None;
      if minutes.Some? { endsAt := Some(now + length); }
      var user := reports[id].target;
      var row := Punishment(user, capability, true, now, endsAt);
      ok := CompleteReview(id, admin, ReportActioned, Some((p, row)));
      if !ok { return; }
      Invalidate(user);
      NextKeeps(before, Punish(id, admin, p, capability, minutes, length));
      assert At(now) == Next(before, Punish(id, admin, p, capability, minutes, length));
      assert punishments[p] == row;
    }

    /** A revoked punishment no longer counts, from this moment on. */
    method RevokePunishment(p: Id, now: int) returns (ok: bool)
      requires Valid(now)
      modifies this
      ensures Valid(now) && At(now) == Next(old(At(now)), Revoke(p))
      ensures ok <==> old(p in punishments && punishments[p].active)
      ensures ok ==> p in punishments && !InForce(punishments[p], punishments[p].user, now)
      ensures forall q :: q in old(punishments) && q != p ==> q in punishments && punishments[q] == old(punishments)[q]
    {
      ghost var before := At(now);
      if p !in punishments || !punishments[p].active { return false; }
      punishments := punishments[p := punishments[p].(active := false)];
      Invalidate(punishments[p].user);
      NextKeeps(before, Revoke(p));
      assert At(now) == Next(before, Revoke(p));
      return true;
    }

    /** One appeal per punishment, by the punished user only. */
    method CreateAppeal(id: Id, user: Id, p: Id, now: int) returns (ok: bool)
      requires Valid(now)
      modifies this
      ensures Valid(now) && At(now) == Next(old(At(now)), FileAppeal(id, user, p))
      ensures ok <==> id !in old(appeals) && id in appeals
      ensures ok <==> MayAppeal(old(At(now)), id, user, p)
    {
      ghost var before := At(now);
      if p !in punishments || punishments[p].user != user { return false; }
      if id in appeals || exists a :: a in appeals && appeals[a].punishment == p { return false; }
      appeals := appeals[id := Appeal(p, user, AppealPending)];
      NextKeeps(before, FileAppeal(id, user, p));
      assert At(now) == Next(before, FileAppeal(id, user, p));
      return true;
    }

    /** An approved appeal lifts its punishment, and drops the entry of the right user: the punished one. */
    method DecideAppeal(id: Id, approved: bool, now: int) returns (ok: bool)
      requires Valid(now)
      modifies this
      ensures Valid(now) && At(now) == Next(old(At(now)), Step.DecideAppeal(id, approved))
      ensures ok <==> old(id in appeals && appeals[id].status == AppealPending)
      ensures ok ==> id in appeals && appeals[id].status == if approved then AppealApproved else AppealRejected
      ensures ok && !approved ==> punishments == old(punishments) && cache == old(cache)
      ensures ok && approved ==> var p := old(appeals)[id].punishment;
        p in punishments && !punishments[p].active && punishments[p].user !in cache
    {
      ghost var before := At(now);
      if id !in appeals || appeals[id].status != AppealPending { return false; }
      var appeal := appeals[id];
      assert AppealOk(punishments, appeal);
      appeals := appeals[id := appeal.(status := if approved then AppealApproved else AppealRejected)];
      if approved {
        if appeal.punishment in punishments && punishments[appeal.punishment].active {
          punishments := punishments[appeal.punishment := punishments[appeal.punishment].(active := false)];
        }
        Invalidate(appeal.user);
      }
      NextKeeps(before, Step.DecideAppeal(id, approved));
      assert At(now) == Next(before, Step.DecideAppeal(id, approved));
      return true;
    }
  }

  ghost function EndsAt(minutes: Option<int>, length: int, now: int): Option<int> {
    if minutes.Some? then Some(now + length) else None
  }

  /** The punished user appeals, for the first time. */
  ghost predicate MayAppeal(s: State, id: Id, user: Id, p: Id) {
    && p in s.punishments && s.punishments[p].user == user && id !in s.appeals
    && forall a :: a in s.appeals ==> s.appeals[a].punishment != p
  }

  /** The capabilities of a listing are the ones the table denies. */
  lemma ListedAreDenied(punishments: map<Id, Punishment>, user: Id, now: int, list: seq<Punishment>, caps: set<Capability>)
    requires Lists(punishments, user, now, list)
    requires forall c :: c in caps <==> exists i :: 0 <= i < |list| && list[i].capability == c
    ensures caps == Denied(punishments, user, now)
  {
    forall c
      ensures c in caps <==> c in Denied(punishments, user, now)
    {
      if i :| 0 <= i < |list| && list[i].capability == c {
        assert Holds(punishments, list[i]);
      }
      if p :| p in punishments && InForce(punishments[p], user, now) && punishments[p].capability == c {
        var i :| 0 <= i < |list| && list[i] == punishments[p];
      }
    }
  }
}
