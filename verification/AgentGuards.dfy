/** The Redis counters that bound concurrent agent turns, under every interleaving of the turns'
    Redis calls.  Redis answers every call and no key expires while it counts something. */
module AgentGuards {
  import opened Support

  /** The three counters a turn passes: its user's rate in one minute, its user's turns, its
      conversation's turns. */
  datatype Key = RateKey(root: Id, minute: string) | UserKey(root: Id) | ConversationKey(session: string)

  function KeyName(key: Key): string {
    match key
    case RateKey(root, minute) => "campus:agent:rate:" + (Decimal(root) + (":" + minute))
    case UserKey(root) => "campus:agent:active:user:" + Decimal(root)
    case ConversationKey(session) => "campus:agent:active:conversation:" + session
  }

  datatype Phase =
    | Arrived
    | RateRefused              // counted against the rate, over it, not yet undone
    | TurnedAway               // undone, for good
    | Admitted                 // within the rate
    | UserRefused              // counted for the user, over the limit, not yet undone
    | UserHeld
    | ConversationRefused      // counted for the conversation, over the limit, not yet undone
    | Running                  // holds both guards
    | Leaving                  // holds the user's guard only, about to give it back
    | Gone

  datatype Turn = Turn(root: Id, session: string, minute: string, phase: Phase)

  datatype Limits = Limits(rate: int, user: int, conversation: int)

  datatype State = State(counters: map<Key, int>, turns: map<Id, Turn>)

  datatype Step =
    | Arrive(t: Id, root: Id, session: string, minute: string)
    | CountRate(t: Id)
    | UndoRate(t: Id)
    | CountUser(t: Id)
    | UndoUser(t: Id)
    | CountConversation(t: Id)
    | UndoConversation(t: Id)
    | ReleaseConversation(t: Id)
    | ReleaseUser(t: Id)

  function Limit(l: Limits, key: Key): int {
    match key
    case RateKey(_, _) => l.rate
    case UserKey(_) => l.user
    case ConversationKey(_) => l.conversation
  }

  function Counter(s: State, key: Key): int {
    if key in s.counters then s.counters[key] else 0
  }

  /** The key a step counts up or down. */
  function StepKey(turn: Turn, step: Step): Key {
    match step
    case CountRate(_) => RateKey(turn.root, turn.minute)
    case UndoRate(_) => RateKey(turn.root, turn.minute)
    case CountConversation(_) => ConversationKey(turn.session)
    case UndoConversation(_) => ConversationKey(turn.session)
    case ReleaseConversation(_) => ConversationKey(turn.session)
    case _ => UserKey(turn.root)
  }

  /** When a step of a turn can happen. */
  predicate Ready(turn: Turn, step: Step) {
    match step
    case Arrive(_, _, _, _) => false
    case CountRate(_) => turn.phase == Arrived
    case UndoRate(_) => turn.phase == RateRefused
    case CountUser(_) => turn.phase == Admitted
    case UndoUser(_) => turn.phase == UserRefused
    case CountConversation(_) => turn.phase == UserHeld
    case UndoConversation(_) => turn.phase == ConversationRefused
    case ReleaseConversation(_) => turn.phase == Running
    case ReleaseUser(_) => turn.phase == Leaving
  }

  predicate CountsUp(step: Step) {
    step.CountRate? || step.CountUser? || step.CountConversation?
  }

  /** Where the step leaves its turn; `granted` is the outcome of comparing the count with the limit. */
  function After(step: Step, granted: bool): Phase {
    match step
    case Arrive(_, _, _, _) => Arrived
    case CountRate(_) => if granted then Admitted else RateRefused
    case UndoRate(_) => TurnedAway
    case CountUser(_) => if granted then UserHeld else UserRefused
    case UndoUser(_) => Gone
    case CountConversation(_) => if granted then Running else ConversationRefused
    case UndoConversation(_) => Leaving
    case ReleaseConversation(_) => Leaving
    case ReleaseUser(_) => Gone
  }

  /** One Redis call and the turn's reaction to its answer. */
  function Next(l: Limits, s: State, step: Step): State {
    if step.Arrive? then
      if step.t in s.turns then s
      else s.(turns := s.turns[step.t := Turn(step.root, step.session, step.minute, Arrived)])
    else if step.t !in s.turns || !Ready(s.turns[step.t], step) then s
    else
      var turn := s.turns[step.t];
      var key := StepKey(turn, step);
      var count := Counter(s, key) + (if CountsUp(step) then 1 else -1);
      State(s.counters[key := count], s.turns[step.t := turn.(phase := After(step, count <= Limit(l, key)))])
  }

  function Run(l: Limits, s: State, steps: seq<Step>): State
    decreases |steps|
  {
    if steps == [] then s else Next(l, Run(l, s, steps[..|steps| - 1]), steps[|steps| - 1])
  }

  // ---------- holders and refused attempts ----------

  /** The turn was granted the key and has not given it back (the rate is never given back). */
  predicate Holds(turn: Turn, key: Key) {
    match key
    case RateKey(root, minute) =>
      turn.root == root && turn.minute == minute && turn.phase !in {Arrived, RateRefused, TurnedAway}
    case UserKey(root) => turn.root == root && turn.phase in {UserHeld, ConversationRefused, Running, Leaving}
    case ConversationKey(session) => turn.session == session && turn.phase == Running
  }

  /** The turn was refused the key and has not yet undone its count. */
  predicate Owes(turn: Turn, key: Key) {
    match key
    case RateKey(root, minute) => turn.root == root && turn.minute == minute && turn.phase == RateRefused
    case UserKey(root) => turn.root == root && turn.phase == UserRefused
    case ConversationKey(session) => turn.session == session && turn.phase == ConversationRefused
  }

  function Holders(s: State, key: Key): set<Id> {
    set t | t in s.turns && Holds(s.turns[t], key)
  }

  function Debtors(s: State, key: Key): set<Id> {
    set t | t in s.turns && Owes(s.turns[t], key)
  }

  ghost predicate KeyOk(l: Limits, s: State, key: Key) {
    Counter(s, key) == |Holders(s, key)| + |Debtors(s, key)| && |Holders(s, key)| <= Limit(l, key)
  }

  ghost predicate Inv(l: Limits, s: State) {
    forall key :: KeyOk(l, s, key)
  }

  /** How one step moves a turn with respect to a key. */
  lemma TurnMoves(turn: Turn, step: Step, granted: bool, key: Key)
    requires Ready(turn, step)
    ensures var after := turn.(phase := After(step, granted));
      if key != StepKey(turn, step) then
        (Holds(after, key) <==> Holds(turn, key)) && (Owes(after, key) <==> Owes(turn, key))
      else if CountsUp(step) then
        !Holds(turn, key) && !Owes(turn, key) && (Holds(after, key) <==> granted) && (Owes(after, key) <==> !granted)
      else
        !Holds(after, key) && !Owes(after, key) && (Holds(turn, key) <==> !Owes(turn, key))
  {
  }

  lemma StepKeepsKey(l: Limits, s: State, step: Step, key: Key)
    requires KeyOk(l, s, key) && !step.Arrive? && step.t in s.turns && Ready(s.turns[step.t], step)
    ensures KeyOk(l, Next(l, s, step), key)
  {
    var turn, after := s.turns[step.t], Next(l, s, step);
    var moved := StepKey(turn, step);
    var count := Counter(s, moved) + (if CountsUp(step) then 1 else -1);
    TurnMoves(turn, step, count <= Limit(l, moved), key);
    OneMember(Holders(s, key), Holders(after, key), step.t);
    OneMember(Debtors(s, key), Debtors(after, key), step.t);
  }

  lemma NextKeeps(l: Limits, s: State, step: Step)
    requires Inv(l, s)
    ensures Inv(l, Next(l, s, step))
  {
    forall key
      ensures KeyOk(l, Next(l, s, step), key)
    {
      assert KeyOk(l, s, key);
      if step.Arrive? {
        if step.t !in s.turns {
          OneMember(Holders(s, key), Holders(Next(l, s, step), key), step.t);
          OneMember(Debtors(s, key), Debtors(Next(l, s, step), key), step.t);
        }
      } else if step.t in s.turns && Ready(s.turns[step.t], step) {
        StepKeepsKey(l, s, step, key);
      }
    }
  }

  const IDLE: State := State(map[], map[])

  /** Over every interleaving: each counter is its holders plus the refused attempts not yet undone,
      and the holders never exceed the limit. */
  lemma {:induction false} CountersAreExact(l: Limits, steps: seq<Step>)
    requires l.rate >= 0 && l.user >= 0 && l.conversation >= 0
    ensures Inv(l, Run(l, IDLE, steps))
    decreases |steps|
  {
    if steps == [] {
      forall key
        ensures KeyOk(l, IDLE, key)
      {
        assert Holders(IDLE, key) == {} && Debtors(IDLE, key) == {};
      }
    } else {
      CountersAreExact(l, steps[..|steps| - 1]);
      NextKeeps(l, Run(l, IDLE, steps[..|steps| - 1]), steps[|steps| - 1]);
    }
  }

  function RunningFor(s: State, root: Id): set<Id> {
    set t | t in s.turns && s.turns[t].phase == Running && s.turns[t].root == root
  }

  function RunningIn(s: State, session: string): set<Id> {
    set t | t in s.turns && s.turns[t].phase == Running && s.turns[t].session == session
  }

  lemma SubsetSmaller(a: set<Id>, b: set<Id>)
    requires a <= b
    ensures |a| <= |b|
  {
    assert b == a + (b - a);
  }

  /** What the guards are for: never more running turns than allowed, for a user or a conversation. */
  lemma RunningIsBounded(l: Limits, steps: seq<Step>, root: Id, session: string)
    requires l.rate >= 0 && l.user >= 0 && l.conversation >= 0
    ensures var s := Run(l, IDLE, steps); |RunningFor(s, root)| <= l.user && |RunningIn(s, session)| <= l.conversation
  {
    var s := Run(l, IDLE, steps);
    CountersAreExact(l, steps);
    assert KeyOk(l, s, UserKey(root)) && KeyOk(l, s, ConversationKey(session));
    SubsetSmaller(RunningFor(s, root), Holders(s, UserKey(root)));
    assert RunningIn(s, session) == Holders(s, ConversationKey(session));
  }

  /** The turn waits outside the guards or is over. */
  predicate AtRest(turn: Turn) {
    turn.phase in {Arrived, RateRefused, TurnedAway, Admitted, Gone}
  }

  ghost predicate Quiet(s: State) {
    forall t :: t in s.turns ==> AtRest(s.turns[t])
  }

  /** Nothing leaks: once no turn is under way, whatever mixture of grants, refusals and partial
      acquisitions led there, every user and conversation counter is back at zero. */
  lemma NothingLeaks(l: Limits, steps: seq<Step>, key: Key)
    requires l.rate >= 0 && l.user >= 0 && l.conversation >= 0
    requires Quiet(Run(l, IDLE, steps))
    ensures !key.RateKey? ==> Counter(Run(l, IDLE, steps), key) == 0
  {
    var s := Run(l, IDLE, steps);
    CountersAreExact(l, steps);
    assert KeyOk(l, s, key);
    if !key.RateKey? {
      assert forall t :: t in s.turns ==> AtRest(s.turns[t]) && !Holds(s.turns[t], key) && !Owes(s.turns[t], key);
      assert Holders(s, key) == {} && Debtors(s, key) == {};
    }
  }

  /** A turn is refused a guard exactly when its holders and the refusals still to be undone fill the
      limit; so with no undo pending, exactly when the guard is fully held. */
  lemma RefusedIff(l: Limits, steps: seq<Step>, step: Step)
    requires l.rate >= 0 && l.user >= 0 && l.conversation >= 0
    requires var s := Run(l, IDLE, steps); CountsUp(step) && step.t in s.turns && Ready(s.turns[step.t], step)
    ensures var s := Run(l, IDLE, steps);
      var key := StepKey(s.turns[step.t], step);
      && (Owes(Next(l, s, step).turns[step.t], key) <==> |Holders(s, key)| + |Debtors(s, key)| >= Limit(l, key))
      && (Debtors(s, key) == {} ==> (Owes(Next(l, s, step).turns[step.t], key) <==> |Holders(s, key)| == Limit(l, key)))
  {
    var s := Run(l, IDLE, steps);
    CountersAreExact(l, steps);
    var key := StepKey(s.turns[step.t], step);
    assert KeyOk(l, s, key);
    TurnMoves(s.turns[step.t], step, Counter(s, key) + 1 <= Limit(l, key), key);
  }

  // ---------- key names ----------

  /** Where key names of different kinds differ. */
  lemma NameShape(key: Key)
    ensures var name := KeyName(key);
      && |name| > 13 && (name[13] == 'r' <==> key.RateKey?)
      && (key.RateKey? ==> name[18..] == Decimal(key.root) + (":" + key.minute))
      && (key.UserKey? ==> |name| > 20 && name[20] == 'u' && name[25..] == Decimal(key.root))
      && (key.ConversationKey? ==> |name| > 20 && name[20] == 'c' && name[33..] == key.session)
  {
    match key
    case RateKey(root, minute) =>
      assert KeyName(key)[13] == 'r';
      assert KeyName(key)[18..] == Decimal(root) + (":" + minute);
    case UserKey(root) => assert KeyName(key)[25..] == Decimal(root);
    case ConversationKey(session) => assert KeyName(key)[33..] == session;
  }

  /** Different counters have different Redis keys.  A minute is written in twelve digits. */
  lemma KeyNamesDiffer(a: Key, b: Key)
    requires KeyName(a) == KeyName(b)
    requires (a.RateKey? ==> |a.minute| == 12) && (b.RateKey? ==> |b.minute| == 12)
    ensures a == b
  {
    NameShape(a);
    NameShape(b);
    if a.UserKey? && b.UserKey? {
      DecimalInjective(a.root, b.root);
    } else if a.RateKey? && b.RateKey? {
      var tail := Decimal(a.root) + (":" + a.minute);
      assert tail == Decimal(b.root) + (":" + b.minute);
      assert Decimal(a.root) == tail[..|tail| - 13] == Decimal(b.root);
      assert a.minute == tail[|tail| - 12..] == b.minute;
      DecimalInjective(a.root, b.root);
    }
  }
}
