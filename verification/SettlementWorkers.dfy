/** Settlement workers: any number of them, running `processSettlement` at once with each other and
    with every other marketplace transaction.  A worker finds the row, calls the payment gateway,
    then updates the row; other steps may happen in between. */
module SettlementWorkers {
  import opened Support
  import opened Market
  import opened MarketInvariant
  import opened MarketResolution
  import MarketRuns

  /** Where a worker stands.  `outcome` is the gateway's answer: an id, or an error. */
  datatype Worker =
    | Found(id: Id, row: Settlement)
    | Called(id: Id, row: Settlement, outcome: Option<string>)
    | Lost(id: Id)
    | Done(id: Id, ok: bool)

  /** A settle call made to the gateway, and its answer. */
  datatype Call = Call(order: Id, requestID: string, amount: int, outcome: Option<string>)

  datatype Sys = Sys(db: Tables, workers: map<Id, Worker>, calls: set<Call>)

  const START := Sys(EMPTY, map[], {})

  datatype Step =
    | Other(op: Op)
    | Find(w: Id, id: Id)
    | Settle(w: Id, outcome: Option<string>)
    | Update(w: Id)
    | FindAgain(w: Id)

  ghost function After(s: Sys, w: Id, worker: Worker): Sys {
    s.(workers := s.workers[w := worker])
  }

  /** One atomic step of the system. */
  ghost function Next(s: Sys, step: Step): Sys {
    match step
    case Other(op) =>
      if op.DoUpdateSettlement? then s else s.(db := Apply(s.db, op))
    case Find(w, id) =>
      if w in s.workers then s
      else if id !in s.db.settlements then After(s, w, Done(id, false))
      else if s.db.settlements[id].status == RecordSucceeded then After(s, w, Done(id, true))
      else After(s, w, Found(id, s.db.settlements[id]))
    case Settle(w, outcome) =>
      if w !in s.workers || !s.workers[w].Found? then s else
        var Found(id, row) := s.workers[w];
        After(s, w, Called(id, row, outcome)).(calls := s.calls + {Call(row.order, row.requestID, row.amount, outcome)})
    case Update(w) =>
      if w !in s.workers || !s.workers[w].Called? then s else Written(s, w, s.workers[w].id, s.workers[w].outcome)
    case FindAgain(w) =>
      if w !in s.workers || !s.workers[w].Lost? then s else
        var id := s.workers[w].id;
        After(s, w, Done(id, id in s.db.settlements && s.db.settlements[id].status == RecordSucceeded))
  }

  /** The database update after the gateway answered. */
  ghost function Written(s: Sys, w: Id, id: Id, outcome: Option<string>): Sys {
    match outcome
    case None =>
      After(s, w, Done(id, false)).(db := UpdateSettlement(s.db, id, false, "").After(s.db))
    case Some(g) =>
      match UpdateSettlement(s.db, id, true, g)
      case Abort(_) => After(s, w, Done(id, false))
      case Commit(db, changed) => After(s, w, if changed then Done(id, true) else Lost(id)).(db := db)
  }

  ghost function Steps(s: Sys, steps: seq<Step>): Sys
    decreases |steps|
  {
    if steps == [] then s else Next(Steps(s, steps[..|steps| - 1]), steps[|steps| - 1])
  }

  // ---------- what settlement rows keep ----------

  /** A settlement row never goes away, keeps order, request id and amount, and freezes on success. */
  ghost predicate RowKept(t: Tables, t': Tables, id: Id) {
    id in t.settlements ==>
      && id in t'.settlements
      && t'.settlements[id] == t.settlements[id].(status := t'.settlements[id].status, gatewayID := t'.settlements[id].gatewayID)
      && (t.settlements[id].status == RecordSucceeded ==> t'.settlements[id] == t.settlements[id])
  }

  ghost predicate RowsKept(t: Tables, t': Tables) {
    forall id :: RowKept(t, t', id)
  }

  lemma CompletionAddsRow(t: Tables, op: Op)
    requires op.DoConfirmReceived? || op.DoAutoComplete?
    ensures forall s :: s in t.settlements ==> s in Apply(t, op).settlements && Apply(t, op).settlements[s] == t.settlements[s]
    ensures forall s :: s in Apply(t, op).settlements && s !in t.settlements ==>
      Apply(t, op).settlements[s].status == RecordPending
  {}

  /** Only workers change settlement rows; other transactions at most add pending ones. */
  lemma OtherKeepsRows(t: Tables, op: Op)
    requires !op.DoUpdateSettlement?
    ensures forall s :: s in t.settlements ==> s in Apply(t, op).settlements && Apply(t, op).settlements[s] == t.settlements[s]
    ensures forall s :: s in Apply(t, op).settlements && s !in t.settlements ==>
      Apply(t, op).settlements[s].status == RecordPending
  {
    if ShopOp(op) {
      ShopFrame(t, op);
    } else if PaymentOp(op) {
      PaymentFrame(t, op);
    } else if ResolutionOp(op) {
      ResolutionFrame(t, op);
    } else {
      CompletionAddsRow(t, op);
    }
  }

  // ---------- the invariant ----------

  /** The worker's snapshot is still the row's order, request id and amount. */
  ghost predicate Snapshot(t: Tables, id: Id, row: Settlement) {
    && id in t.settlements
    && t.settlements[id].order == row.order && t.settlements[id].requestID == row.requestID
    && t.settlements[id].amount == row.amount
  }

  ghost predicate WorkerOk(t: Tables, calls: set<Call>, w: Worker) {
    match w
    case Found(id, row) => Snapshot(t, id, row) && row.status != RecordSucceeded
    case Called(id, row, outcome) =>
      Snapshot(t, id, row) && row.status != RecordSucceeded && Call(row.order, row.requestID, row.amount, outcome) in calls
    case Lost(id) => id in t.settlements
    case Done(id, ok) => ok ==> id in t.settlements && t.settlements[id].status == RecordSucceeded
  }

  /** Every gateway call is for a completed order, under that order's one request id, for its net. */
  ghost predicate CallOk(orders: map<Id, Order>, c: Call) {
    && c.order in orders && orders[c.order].status == OrderCompleted
    && c.requestID == SettlementRequestID(c.order)
    && c.amount == orders[c.order].net
  }

  /** A row marked succeeded was accepted by the gateway, under the id it carries. */
  ghost predicate Accepted(row: Settlement, calls: set<Call>) {
    row.status == RecordSucceeded ==>
      exists g :: Call(row.order, row.requestID, row.amount, Some(g)) in calls && (g == "" || row.gatewayID == Some(g))
  }

  ghost predicate WorkersOk(t: Tables, calls: set<Call>, workers: map<Id, Worker>) {
    forall w :: w in workers ==> WorkerOk(t, calls, workers[w])
  }

  ghost predicate CallsOk(orders: map<Id, Order>, calls: set<Call>) {
    forall c :: c in calls ==> CallOk(orders, c)
  }

  ghost predicate AllAccepted(settlements: map<Id, Settlement>, calls: set<Call>) {
    forall id :: id in settlements ==> Accepted(settlements[id], calls)
  }

  ghost predicate SysInv(s: Sys) {
    Inv(s.db) && WorkersOk(s.db, s.calls, s.workers) && CallsOk(s.db.orders, s.calls) && AllAccepted(s.db.settlements, s.calls)
  }

  lemma WorkersStay(t: Tables, t': Tables, calls: set<Call>, workers: map<Id, Worker>)
    requires WorkersOk(t, calls, workers) && RowsKept(t, t')
    ensures WorkersOk(t', calls, workers)
  {
    forall w | w in workers
      ensures WorkerOk(t', calls, workers[w])
    {
      assert WorkerOk(t, calls, workers[w]) && RowKept(t, t', workers[w].id);
    }
  }

  lemma WorkerMoves(t: Tables, calls: set<Call>, workers: map<Id, Worker>, w: Id, worker: Worker)
    requires WorkersOk(t, calls, workers) && WorkerOk(t, calls, worker)
    ensures WorkersOk(t, calls, workers[w := worker])
  {}

  lemma CallsStay(t: Tables, op: Op, calls: set<Call>)
    requires Inv(t) && CallsOk(t.orders, calls)
    ensures CallsOk(Apply(t, op).orders, calls)
  {
    forall c | c in calls
      ensures CallOk(Apply(t, op).orders, c)
    {
      MarketRuns.ApplyMovesRow(t, op, c.order);
    }
  }

  lemma OtherRowsKept(t: Tables, op: Op, calls: set<Call>)
    requires !op.DoUpdateSettlement? && AllAccepted(t.settlements, calls)
    ensures RowsKept(t, Apply(t, op)) && AllAccepted(Apply(t, op).settlements, calls)
  {
    OtherKeepsRows(t, op);
  }

  lemma OtherKeeps(s: Sys, op: Op)
    requires SysInv(s) && !op.DoUpdateSettlement?
    ensures SysInv(s.(db := Apply(s.db, op))) && RowsKept(s.db, Apply(s.db, op))
  {
    ApplyKeeps(s.db, op);
    OtherRowsKept(s.db, op, s.calls);
    WorkersStay(s.db, Apply(s.db, op), s.calls, s.workers);
    CallsStay(s.db, op, s.calls);
  }

  /** The update writes at most its own row, and only while that row is pending or failed. */
  lemma UpdateWritesOneRow(t: Tables, id: Id, succeeded: bool, gatewayID: string)
    ensures var r := UpdateSettlement(t, id, succeeded, gatewayID); var t' := r.After(t);
      && t'.orders == t.orders
      && RowsKept(t, t')
      && (forall k :: k in t'.settlements ==> k in t.settlements && (k != id ==> t'.settlements[k] == t.settlements[k]))
      && (r.Commit? && r.value ==> id in t.settlements && t'.settlements[id] == t.settlements[id].(
            status := if succeeded then RecordSucceeded else RecordFailed,
            gatewayID := if gatewayID != "" then Some(gatewayID) else t.settlements[id].gatewayID))
      && (r.Commit? && !r.value ==> t' == t)
  {}

  lemma UpdateAccepted(t: Tables, calls: set<Call>, id: Id, row: Settlement, outcome: Option<string>)
    requires AllAccepted(t.settlements, calls)
    requires Snapshot(t, id, row) && Call(row.order, row.requestID, row.amount, outcome) in calls
    ensures var t' := UpdateSettlement(t, id, outcome.Some?, if outcome.Some? then outcome.value else "").After(t);
      AllAccepted(t'.settlements, calls)
  {
    UpdateWritesOneRow(t, id, outcome.Some?, if outcome.Some? then outcome.value else "");
  }

  /** What a worker becomes after the update is true of the tables after the update. */
  lemma UpdateMoves(s: Sys, w: Id, id: Id, outcome: Option<string>)
    requires id in s.db.settlements
    ensures var s' := Written(s, w, id, outcome);
      && s'.db == UpdateSettlement(s.db, id, outcome.Some?, if outcome.Some? then outcome.value else "").After(s.db)
      && s'.calls == s.calls && w in s'.workers && s'.workers == s.workers[w := s'.workers[w]]
      && WorkerOk(s'.db, s.calls, s'.workers[w])
  {
    UpdateWritesOneRow(s.db, id, outcome.Some?, if outcome.Some? then outcome.value else "");
  }

  lemma UpdateKeepsRest(s: Sys, w: Id, op: Op)
    requires WorkersOk(s.db, s.calls, s.workers) && CallsOk(s.db.orders, s.calls) && AllAccepted(s.db.settlements, s.calls)
    requires w in s.workers && s.workers[w].Called?
    requires var outcome := s.workers[w].outcome;
      op == DoUpdateSettlement(s.workers[w].id, outcome.Some?, if outcome.Some? then outcome.value else "")
    ensures var s' := Next(s, Update(w));
      && s'.db == Apply(s.db, op) && RowsKept(s.db, s'.db)
      && WorkersOk(s'.db, s'.calls, s'.workers) && CallsOk(s'.db.orders, s'.calls) && AllAccepted(s'.db.settlements, s'.calls)
  {
    var Called(id, row, outcome) := s.workers[w];
    assert WorkerOk(s.db, s.calls, s.workers[w]);
    UpdateWritesOneRow(s.db, op.id, op.succeeded, op.gatewayID);
    UpdateAccepted(s.db, s.calls, id, row, outcome);
    UpdateMoves(s, w, id, outcome);
    var s' := Next(s, Update(w));
    WorkersStay(s.db, s'.db, s.calls, s.workers);
    WorkerMoves(s'.db, s.calls, s.workers, w, s'.workers[w]);
  }

  lemma UpdateKeeps(s: Sys, w: Id)
    requires SysInv(s) && w in s.workers && s.workers[w].Called?
    ensures SysInv(Next(s, Update(w))) && RowsKept(s.db, Next(s, Update(w)).db)
  {
    var Called(id, row, outcome) := s.workers[w];
    var op := DoUpdateSettlement(id, outcome.Some?, if outcome.Some? then outcome.value else "");
    UpdateKeepsRest(s, w, op);
    ApplyKeeps(s.db, op);
  }

  lemma CallAdds(t: Tables, calls: set<Call>, workers: map<Id, Worker>, c: Call)
    requires WorkersOk(t, calls, workers) && CallsOk(t.orders, calls) && AllAccepted(t.settlements, calls) && CallOk(t.orders, c)
    ensures WorkersOk(t, calls + {c}, workers) && CallsOk(t.orders, calls + {c}) && AllAccepted(t.settlements, calls + {c})
  {
    forall id | id in t.settlements
      ensures Accepted(t.settlements[id], calls + {c})
    {
      assert Accepted(t.settlements[id], calls);
    }
  }

  lemma SettleKeeps(s: Sys, w: Id, outcome: Option<string>)
    requires SysInv(s) && w in s.workers && s.workers[w].Found?
    ensures SysInv(Next(s, Settle(w, outcome)))
  {
    var Found(id, row) := s.workers[w];
    assert WorkerOk(s.db, s.calls, s.workers[w]);
    assert RowSettled(s.db.orders, s.db.settlements, id);
    var c := Call(row.order, row.requestID, row.amount, outcome);
    CallAdds(s.db, s.calls, s.workers, c);
    WorkerMoves(s.db, s.calls + {c}, s.workers, w, Called(id, row, outcome));
  }

  lemma FindMoves(s: Sys, step: Step)
    requires WorkersOk(s.db, s.calls, s.workers) && (step.Find? || step.FindAgain?)
    ensures Next(s, step) == s.(workers := Next(s, step).workers)
    ensures WorkersOk(s.db, s.calls, Next(s, step).workers)
  {}

  lemma FindKeeps(s: Sys, step: Step)
    requires SysInv(s) && (step.Find? || step.FindAgain?)
    ensures SysInv(Next(s, step)) && Next(s, step).db == s.db
  {
    FindMoves(s, step);
  }

  lemma RowsKeptRefl(t: Tables)
    ensures RowsKept(t, t)
  {}

  /** Every step keeps the invariant and every settlement row. */
  lemma NextKeeps(s: Sys, step: Step)
    requires SysInv(s)
    ensures SysInv(Next(s, step)) && RowsKept(s.db, Next(s, step).db)
  {
    RowsKeptRefl(s.db);
    match step
    case Other(op) => if !op.DoUpdateSettlement? { OtherKeeps(s, op); }
    case Find(_, _) => FindKeeps(s, step);
    case FindAgain(_) => FindKeeps(s, step);
    case Settle(w, outcome) => if w in s.workers && s.workers[w].Found? { SettleKeeps(s, w, outcome); }
    case Update(w) => if w in s.workers && s.workers[w].Called? { UpdateKeeps(s, w); }
  }

  /** Over every interleaving: succeeded is never left and its row, gateway id included, never
      overwritten. */
  lemma {:induction false} StepsKeep(s: Sys, steps: seq<Step>)
    requires SysInv(s)
    ensures SysInv(Steps(s, steps)) && RowsKept(s.db, Steps(s, steps).db)
    decreases |steps|
  {
    if steps == [] {
      RowsKeptRefl(s.db);
    } else {
      var before := Steps(s, steps[..|steps| - 1]);
      StepsKeep(s, steps[..|steps| - 1]);
      NextKeeps(before, steps[|steps| - 1]);
      forall id
        ensures RowKept(s.db, Steps(s, steps).db, id)
      {
        assert RowKept(s.db, before.db, id) && RowKept(before.db, Steps(s, steps).db, id);
      }
    }
  }

  /** From the empty database: a worker that returned success did settle its record, every gateway
      call was for a completed order under its own request id and for the seller's net, and two
      calls that share a request id are for the same order and amount. */
  lemma WorkersAreSafe(steps: seq<Step>, w: Id, c: Call, d: Call)
    ensures var s := Steps(START, steps);
      && (w in s.workers && s.workers[w].Done? && s.workers[w].ok ==>
            s.workers[w].id in s.db.settlements && s.db.settlements[s.workers[w].id].status == RecordSucceeded)
      && (c in s.calls ==> CallOk(s.db.orders, c))
      && (c in s.calls && d in s.calls && c.requestID == d.requestID ==> c.order == d.order && c.amount == d.amount)
  {
    StepsKeep(START, steps);
    var s := Steps(START, steps);
    if c in s.calls && d in s.calls && c.requestID == d.requestID {
      assert CallOk(s.db.orders, c) && CallOk(s.db.orders, d);
      SettlementRequestsDiffer(c.order, d.order);
    }
    if w in s.workers {
      assert WorkerOk(s.db, s.calls, s.workers[w]);
    }
  }

  // ---------- what each step answers ----------

  /** A worker starts on an open record only: a missing one is a failure, a succeeded one a success, and
      neither reaches the gateway. */
  lemma FindAnswers(s: Sys, w: Id, id: Id)
    requires w !in s.workers
    ensures var s' := Next(s, Find(w, id));
      && s'.db == s.db && s'.calls == s.calls
      && s'.workers == s.workers[w :=
           if id !in s.db.settlements then Done(id, false)
           else if s.db.settlements[id].status == RecordSucceeded then Done(id, true)
           else Found(id, s.db.settlements[id])]
  {}

  /** A gateway call is made by a worker that found an open record, with that record's order, request id and
      amount; no other step makes one. */
  lemma CallsByFinders(s: Sys, step: Step, c: Call)
    requires WorkersOk(s.db, s.calls, s.workers) && c in Next(s, step).calls && c !in s.calls
    ensures step.Settle? && step.w in s.workers && s.workers[step.w].Found?
    ensures c == Call(s.workers[step.w].row.order, s.workers[step.w].row.requestID, s.workers[step.w].row.amount, step.outcome)
    ensures s.workers[step.w].row.status != RecordSucceeded
  {
    assert step.Settle?;
    assert WorkerOk(s.db, s.calls, s.workers[step.w]);
  }

  /** A worker that has its answer works on an existing record, which is open or succeeded. */
  lemma CalledRow(s: Sys, w: Id)
    requires WorkersOk(s.db, s.calls, s.workers) && Settled(s.db.orders, s.db.settlements) && w in s.workers && s.workers[w].Called?
    ensures s.workers[w].id in s.db.settlements && s.db.settlements[s.workers[w].id].status != RecordRejected
    ensures Next(s, Update(w)) == Written(s, w, s.workers[w].id, s.workers[w].outcome)
  {
    assert WorkerOk(s.db, s.calls, s.workers[w]) && RowSettled(s.db.orders, s.db.settlements, s.workers[w].id);
  }

  ghost predicate OpenRow(t: Tables, id: Id) {
    id in t.settlements && t.settlements[id].status in {RecordPending, RecordFailed}
  }

  /** After a refusal the open record is failed, and the worker returns failure. */
  lemma RefusalAnswers(s: Sys, w: Id, id: Id)
    requires OpenRow(s.db, id)
    ensures var s' := Written(s, w, id, None);
      s'.workers[w] == Done(id, false) && id in s'.db.settlements && s'.db.settlements[id] == s.db.settlements[id].(status := RecordFailed)
  {}

  /** After an acceptance under a new id the open record is succeeded under that id, and the worker returns
      success. */
  lemma AcceptanceAnswers(s: Sys, w: Id, id: Id, g: string)
    requires OpenRow(s.db, id) && !GatewaySettlementTaken(s.db, g, id)
    ensures var s' := Written(s, w, id, Some(g));
      && s'.workers[w] == Done(id, true) && id in s'.db.settlements && s'.db.settlements[id].status == RecordSucceeded
      && (g != "" ==> s'.db.settlements[id].gatewayID == Some(g))
  {}

  /** A record that another worker settled meanwhile is not written, and a second look returns success. */
  lemma LateAnswers(s: Sys, w: Id, id: Id, g: string)
    requires id in s.db.settlements && s.db.settlements[id].status == RecordSucceeded
    ensures var s' := Written(s, w, id, Some(g));
      s'.db == s.db && s'.workers[w] == Lost(id) && Next(s', FindAgain(w)).workers[w] == Done(id, true)
    ensures Written(s, w, id, None).db == s.db && Written(s, w, id, None).workers[w] == Done(id, false)
  {}
}
