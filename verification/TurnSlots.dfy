/** The compare-and-swap loop that bounds the turns of one websocket session, under every interleaving
    of its loads, swaps and decrements.  `inflight` is a 32-bit counter. */
module TurnSlots {
  import opened Support

  const MAX_INT32: int := 0x7fff_ffff

  /** Go's conversion to int32 keeps the low 32 bits, read as two's complement. */
  function Int32(n: int): (r: int)
    ensures -MAX_INT32 - 1 <= r <= MAX_INT32
    ensures -MAX_INT32 - 1 <= n <= MAX_INT32 ==> r == n
  {
    (n + 0x8000_0000) % 0x1_0000_0000 - 0x8000_0000
  }

  /** A limit of zero or less counts as one. */
  function Effective(limit: int): int {
    if limit <= 0 then 1 else limit
  }

  function MaxInflight(limit: int): int {
    Int32(Effective(limit))
  }

  datatype Attempt =
    | Trying                   // about to load
    | Loaded(current: int)     // about to swap
    | Turned                   // refused
    | Running
    | Finished

  datatype State = State(inflight: int, attempts: map<Id, Attempt>)

  datatype Step = Try(t: Id) | Load(t: Id) | Swap(t: Id) | Finish(t: Id)

  function Next(limit: int, s: State, step: Step): State {
    var t := step.t;
    if step.Try? then
      if t in s.attempts then s else s.(attempts := s.attempts[t := Trying])
    else if t !in s.attempts then s
    else
      match step
      case Try(_) => s
      case Load(_) =>
        if s.attempts[t] != Trying then s
        else if s.inflight >= MaxInflight(limit) then s.(attempts := s.attempts[t := Turned])
        else s.(attempts := s.attempts[t := Loaded(s.inflight)])
      case Swap(_) =>
        if !s.attempts[t].Loaded? then s
        else if s.inflight == s.attempts[t].current then
          State(Int32(s.attempts[t].current + 1), s.attempts[t := Running])
        else s.(attempts := s.attempts[t := Trying])
      case Finish(_) =>
        if s.attempts[t] != Running then s
        else State(Int32(s.inflight - 1), s.attempts[t := Finished])
  }

  function Run(limit: int, s: State, steps: seq<Step>): State
    decreases |steps|
  {
    if steps == [] then s else Next(limit, Run(limit, s, steps[..|steps| - 1]), steps[|steps| - 1])
  }

  function RunningTurns(s: State): set<Id> {
    set t | t in s.attempts && s.attempts[t] == Running
  }

  /** A load only ever hands a value below the limit to a swap. */
  ghost predicate LoadsOk(limit: int, s: State) {
    forall t :: t in s.attempts && s.attempts[t].Loaded? ==> s.attempts[t].current < MaxInflight(limit)
  }

  ghost predicate Inv(limit: int, s: State) {
    && s.inflight == |RunningTurns(s)|
    && (s.inflight == 0 || s.inflight <= MaxInflight(limit))
    && LoadsOk(limit, s)
  }

  lemma NextKeeps(limit: int, s: State, step: Step)
    requires Inv(limit, s)
    ensures Inv(limit, Next(limit, s, step))
  {
    var after := Next(limit, s, step);
    if after != s {
      OneMember(RunningTurns(s), RunningTurns(after), step.t);
    }
  }

  const IDLE: State := State(0, map[])

  /** Over every interleaving: `inflight` is the number of running turns, it never wraps round, and it
      is never above the limit the caller gave. */
  lemma {:induction false} InflightIsExact(limit: int, steps: seq<Step>)
    ensures var s := Run(limit, IDLE, steps);
      Inv(limit, s) && s.inflight == |RunningTurns(s)| && 0 <= s.inflight <= Effective(limit)
    decreases |steps|
  {
    if steps == [] {
      assert RunningTurns(IDLE) == {};
    } else {
      InflightIsExact(limit, steps[..|steps| - 1]);
      NextKeeps(limit, Run(limit, IDLE, steps[..|steps| - 1]), steps[|steps| - 1]);
    }
  }

  /** An attempt that loads, and swaps before anyone else changes the counter, starts its turn exactly
      when fewer turns are running than the converted limit. */
  lemma UndisturbedAttempt(limit: int, steps: seq<Step>, t: Id)
    requires t !in Run(limit, IDLE, steps).attempts
    ensures var s := Run(limit, IDLE, steps);
      var after := Next(limit, Next(limit, Next(limit, s, Try(t)), Load(t)), Swap(t));
      t in RunningTurns(after) <==> |RunningTurns(s)| < MaxInflight(limit)
  {
    InflightIsExact(limit, steps);
  }

  /** An idle session does not always let a turn start: the conversion to 32 bits can turn a positive
      limit into one that admits nothing.  It lets a turn start exactly when the low 32 bits of the
      limit, read as a signed number, are positive. */
  lemma IdleSessionAdmitsIff(limit: int, t: Id)
    ensures var after := Next(limit, Next(limit, Next(limit, IDLE, Try(t)), Load(t)), Swap(t));
      t in RunningTurns(after) <==> limit <= 0 || 1 <= limit % 0x1_0000_0000 <= MAX_INT32
  {
    assert RunningTurns(IDLE) == {};
    UndisturbedAttempt(limit, [], t);
  }

  /** Under such a limit, two to the 31 for one, no turn ever runs. */
  lemma WrappedLimitAdmitsNothing(limit: int, steps: seq<Step>)
    requires MaxInflight(limit) <= 0
    ensures |RunningTurns(Run(limit, IDLE, steps))| == 0
    ensures MaxInflight(0x8000_0000) <= 0
  {
    InflightIsExact(limit, steps);
  }
}
