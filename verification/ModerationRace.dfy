/** The cache fill taken apart: the punishments are read at one moment and the entry is written at a later
    one, with other operations and time in between. */
module ModerationRace {
  import opened Support
  import opened Moderation

  /** The late write: the answer read before, kept for as long as was computed then. */
  ghost function Store(s: State, user: Id, caps: set<Capability>, ttl: int): State {
    s.(cache := s.cache[user := Entry(caps, s.clock + ttl)])
  }

  /** A punishment in force denies the capability for the whole life of the entry. */
  ghost predicate Lasts(s: State, user: Id, c: Capability, ttl: int) {
    exists p :: p in s.punishments && LastsBy(s.punishments[p], user, c, s.clock, ttl)
  }

  ghost predicate LastsBy(p: Punishment, user: Id, c: Capability, now: int, ttl: int) {
    InForce(p, user, now) && p.capability == c && (p.endsAt.None? || p.endsAt.value >= now + ttl)
  }

  /** What the writer would have to check in the table: the answer is still the table's, and none of it
      runs out while the entry lives. */
  ghost predicate StillRight(s: State, user: Id, caps: set<Capability>, ttl: int) {
    caps == Denied(s.punishments, user, s.clock) && forall c :: c in caps ==> Lasts(s, user, c, ttl)
  }

  /** A right entry lasts: look at the last moment of its life. */
  lemma RightEntryLasts(s: State, user: Id, caps: set<Capability>, ttl: int, c: Capability)
    requires Started(s.punishments, s.clock) && ttl > 0 && c in caps
    requires EntryOk(s.punishments, user, Entry(caps, s.clock + ttl), s.clock)
    ensures Lasts(s, user, c, ttl)
  {
    var end := s.clock + ttl - 1;
    assert caps == Denied(s.punishments, user, end);
    var p :| p in s.punishments && InForce(s.punishments[p], user, end) && s.punishments[p].capability == c;
    assert LastsBy(s.punishments[p], user, c, s.clock, ttl);
  }

  lemma LastingEntryIsRight(s: State, user: Id, caps: set<Capability>, ttl: int, time: int)
    requires Started(s.punishments, s.clock) && StillRight(s, user, caps, ttl) && s.clock <= time < s.clock + ttl
    ensures caps == Denied(s.punishments, user, time)
  {
    forall c
      ensures c in caps <==> c in Denied(s.punishments, user, time)
    {
      if c in caps {
        assert Lasts(s, user, c, ttl);
        var p :| p in s.punishments && LastsBy(s.punishments[p], user, c, s.clock, ttl);
        assert InForce(s.punishments[p], user, time);
      }
      if p :| p in s.punishments && InForce(s.punishments[p], user, time) && s.punishments[p].capability == c {
        assert InForce(s.punishments[p], user, s.clock);
      }
    }
  }

  lemma EntryRightIff(s: State, user: Id, caps: set<Capability>, ttl: int)
    requires Started(s.punishments, s.clock) && ttl > 0
    ensures EntryOk(s.punishments, user, Entry(caps, s.clock + ttl), s.clock) <==> StillRight(s, user, caps, ttl)
  {
    if EntryOk(s.punishments, user, Entry(caps, s.clock + ttl), s.clock) {
      assert caps == Denied(s.punishments, user, s.clock);
      forall c | c in caps
        ensures Lasts(s, user, c, ttl)
      {
        RightEntryLasts(s, user, caps, ttl, c);
      }
    }
    if StillRight(s, user, caps, ttl) {
      forall time | s.clock <= time < s.clock + ttl
        ensures caps == Denied(s.punishments, user, time)
      {
        LastingEntryIsRight(s, user, caps, ttl, time);
      }
    }
  }

  lemma FillTtlPositive(s: State, user: Id, ttl: int)
    requires FillTtl(s, user, ttl)
    ensures ttl > 0
  {
    var list: seq<Punishment> :| Lists(s.punishments, user, s.clock, list) && TtlOk(list, s.clock, ttl);
    if ttl != CACHE_TTL {
      var i :| 0 <= i < |list| && list[i].endsAt.Some? && ttl == list[i].endsAt.value - s.clock;
      assert InForce(list[i], user, s.clock);
    }
  }

  /** Read, let anything happen, write: the state stays right exactly when at the time of the write the
      answer is still the table's and none of it runs out within the life computed at the read. */
  lemma SplitFillSafeIff(s: State, steps: seq<Step>, user: Id, ttl: int)
    requires Inv(s) && FillTtl(s, user, ttl)
    ensures var caps := Denied(s.punishments, user, s.clock);
      Inv(Store(Run(s, steps), user, caps, ttl)) <==> StillRight(Run(s, steps), user, caps, ttl)
  {
    var caps, t := Denied(s.punishments, user, s.clock), Run(s, steps);
    RunKeeps(s, steps);
    FillTtlPositive(s, user, ttl);
    EntryRightIff(t, user, caps, ttl);
    var t' := Store(t, user, caps, ttl);
    assert CacheOk(t') <==> EntryOk(t.punishments, user, Entry(caps, t.clock + ttl), t.clock) by {
      assert t'.cache[user] == Entry(caps, t.clock + ttl);
      assert forall u :: u in t.cache && u != user ==> t'.cache[u] == t.cache[u];
    }
    assert AppealsOk(t');
  }

  // ---------- two runs that go wrong ----------

  const REPORTED: State := State(0, map[Id(1) := Report(Id(2), Id(3), ReportReviewing, Some(Id(4)))], map[], map[], map[])

  const SANCTION: Punishment := Punishment(Id(3), Account, true, 0, Some(60_000))

  const SANCTIONED: State := REPORTED.(
    reports := map[Id(1) := Report(Id(2), Id(3), ReportActioned, Some(Id(4)))], punishments := map[Id(5) := SANCTION])

  /** One minute, by a report filed and claimed. */
  const PUNISH: Step := Punish(Id(1), Id(4), Id(5), Account, Some(1), 60_000)

  const START: State := State(0, map[], map[], map[], map[])

  const OPENING: seq<Step> := [FileReport(Id(1), Id(2), Id(3)), Claim(Id(1), Id(4))]

  lemma BothReached()
    ensures Run(START, OPENING) == REPORTED && Run(START, OPENING + [PUNISH]) == SANCTIONED
  {
    assert OPENING[..1][..0] == [] && OPENING[..1] == [OPENING[0]];
    assert Run(START, []) == START;
    assert Run(START, OPENING[..1]) == START.(reports := map[Id(1) := Report(Id(2), Id(3), ReportPending, None)]);
    PunishLeads();
    assert (OPENING + [PUNISH])[..2] == OPENING;
  }

  lemma PunishLeads()
    ensures Next(REPORTED, PUNISH) == SANCTIONED
  {
    assert Without(REPORTED.cache, Id(3)) == map[];
  }

  /** Nothing is denied at the read; the user is punished; the write then serves "nothing denied". */
  lemma DecisionInBetween()
    ensures FillTtl(Run(START, OPENING), Id(3), CACHE_TTL)
    ensures var s := Run(START, OPENING);
      var t := Store(Run(s, [PUNISH]), Id(3), Denied(s.punishments, Id(3), s.clock), CACHE_TTL);
      Served(t, Id(3)) == {} && Denied(t.punishments, Id(3), t.clock) == {Account}
  {
    BothReached();
    var none: seq<Punishment> := [];
    assert Lists(REPORTED.punishments, Id(3), 0, none) && TtlOk(none, 0, CACHE_TTL);
    PunishLeads();
    assert [PUNISH][..0] == [] && Run(REPORTED, []) == REPORTED;
    assert Run(REPORTED, [PUNISH]) == SANCTIONED;
    assert InForce(SANCTIONED.punishments[Id(5)], Id(3), 0);
    assert Denied(REPORTED.punishments, Id(3), 0) == {};
  }

  /** No decision at all: the write comes a millisecond after the read, so the entry outlives the
      punishment by a millisecond. */
  lemma DelayInBetween()
    ensures FillTtl(Run(START, OPENING + [PUNISH]), Id(3), 60_000)
    ensures var s := Run(START, OPENING + [PUNISH]);
      var t := Run(Store(Run(s, [Tick(1)]), Id(3), Denied(s.punishments, Id(3), s.clock), 60_000), [Tick(60_000)]);
      Served(t, Id(3)) == {Account} && Denied(t.punishments, Id(3), t.clock) == {}
  {
    BothReached();
    var list := [SANCTION];
    assert SANCTIONED.punishments[Id(5)] == SANCTION && list[0] == SANCTION;
    assert Lists(SANCTIONED.punishments, Id(3), 0, list) && TtlOk(list, 0, 60_000);
    assert InForce(SANCTION, Id(3), 0) && !InForce(SANCTION, Id(3), 60_000);
    assert Denied(SANCTIONED.punishments, Id(3), 0) == {Account};
    assert Denied(SANCTIONED.punishments, Id(3), 60_000) == {};
    assert [Tick(1)][..0] == [] && [Tick(60_000)][..0] == [];
    var late := SANCTIONED.(clock := 1);
    assert Run(SANCTIONED, []) == SANCTIONED && Run(SANCTIONED, [Tick(1)]) == late;
    var stored := Store(late, Id(3), {Account}, 60_000);
    assert Run(stored, []) == stored && Run(stored, [Tick(60_000)]) == stored.(clock := 60_000);
  }
}
