/** What every run of the task protocol satisfies, whatever the models answer, whatever the workers
    report, however late or however often, and whenever the sweeps and the operators come in. */
module Runs {
  import opened Tables
  import opened Transactions
  import opened Invariant
  import opened RowOperations
  import opened Preservation
  import opened Forward
  import opened Delegation

  datatype Run = Run(states: seq<Db>, txs: seq<Tx>)

  /** An installation before its first session: only schedules, none of which has spent anything. */
  predicate Initial(db: Db) {
    && db.tasks == [] && db.sessions == [] && db.calls == [] && db.approvals == [] && db.logs == []
    && forall k :: 0 <= k < |db.schedules| ==>
         db.schedules[k].spent == 0.0 && (db.schedules[k].maxCost.Some? ==> db.schedules[k].maxCost.value > 0.0)
  }

  ghost predicate IsRun(cfg: Config, run: Run) {
    && |run.states| == |run.txs| + 1
    && Initial(run.states[0])
    && forall i :: 0 <= i < |run.txs| ==> run.states[i + 1] == Apply(cfg, run.states[i], run.txs[i])
  }

  lemma {:induction false} RunInvariant(cfg: Config, run: Run, i: nat)
    requires IsRun(cfg, run) && i < |run.states|
    ensures Inv(cfg, run.states[i])
  {
    if i > 0 {
      RunInvariant(cfg, run, i - 1);
      ApplyKeeps(cfg, run.states[i - 1], run.txs[i - 1]);
    } else {
      forall a | a in cfg ensures Count(run.states[0].tasks, OccupiesSlotOf(a)) == 0 { }
    }
  }

  // ---------------------------------------------------------------------------------------------
  // Calls
  // ---------------------------------------------------------------------------------------------

  function PendingOf(t: TaskId): Call -> bool {
    (c: Call) => c.task == t && Pending(c)
  }

  lemma {:induction false} CountNone(calls: seq<Call>, t: TaskId)
    requires !HasPending(calls, t)
    ensures Count(calls, PendingOf(t)) == 0
  {
    if calls != [] {
      var n := |calls| - 1;
      assert !HasPending(calls[..n], t);
      CountNone(calls[..n], t);
    }
  }

  lemma {:induction false} CountAtMostOne(calls: seq<Call>, t: TaskId)
    requires OnePending(calls)
    ensures Count(calls, PendingOf(t)) <= 1
  {
    if calls != [] {
      var n := |calls| - 1;
      CountAtMostOne(calls[..n], t);
      if calls[n].task == t && Pending(calls[n]) {
        assert !HasPending(calls[..n], t);
        CountNone(calls[..n], t);
      }
    }
  }

  /** At every moment a task has at most one call queued or in flight, counted over all four
      queues together. */
  lemma OneCallOutstanding(cfg: Config, run: Run, i: nat, t: TaskId)
    requires IsRun(cfg, run) && i < |run.states|
    ensures Count(run.states[i].calls, PendingOf(t)) <= 1
  {
    RunInvariant(cfg, run, i);
    CountAtMostOne(run.states[i].calls, t);
  }

  /** What a dispatch queues is only for tasks that had nothing outstanding when it began. */
  lemma {:induction false} DispatchesOnlyIdle(cfg: Config, w: World, db: Db, rows: seq<DispatchRow>, n: nat)
    requires Inv(cfg, db) && n <= |rows|
    ensures var d := DispatchRows(cfg, w, db, rows, n);
            && d.Some? && |db.calls| <= |d.value.db.calls|
            && (forall c :: 0 <= c < |db.calls| ==> d.value.db.calls[c] == db.calls[c])
            && (forall c :: |db.calls| <= c < |d.value.db.calls| ==> !HasPending(db.calls, d.value.db.calls[c].task))
  {
    hide Inv, DispatchOne, HasPending;
    DispatchRowsKeeps(cfg, w, db, rows, n);
    if n > 0 {
      DispatchesOnlyIdle(cfg, w, db, rows, n - 1);
      DispatchRowsKeeps(cfg, w, db, rows, n - 1);
      var sofar := DispatchRows(cfg, w, db, rows, n - 1).value;
      if sofar.sent < DISPATCH_LIMIT && FirstTime(rows, n - 1) && Dispatchable(db, rows[n - 1].task) {
        assert Dispatchable(sofar.db, rows[n - 1].task);
        DispatchOneKeeps(cfg, w, sofar.db, rows[n - 1]);
      }
    }
  }

  /** So the next model turn of a task is never dispatched while the result of an earlier one is
      outstanding. */
  lemma NextTurnWaitsForTheLast(cfg: Config, run: Run, i: nat, w: World, rows: seq<DispatchRow>, c: CallId)
    requires IsRun(cfg, run) && i < |run.states|
    requires var next := Apply(cfg, run.states[i], Tx(w, Dispatched(rows)));
             |run.states[i].calls| <= c < |next.calls|
    ensures var next := Apply(cfg, run.states[i], Tx(w, Dispatched(rows)));
            !HasPending(run.states[i].calls, next.calls[c].task)
  {
    RunInvariant(cfg, run, i);
    DispatchesOnlyIdle(cfg, w, run.states[i], rows, |rows|);
  }

  lemma {:induction false} RunForward(cfg: Config, run: Run, i: nat, j: nat)
    requires IsRun(cfg, run) && i <= j < |run.states|
    ensures RowsForward(run.states[i], run.states[j], -1)
    decreases j - i
  {
    hide RowsForward, Apply, Initial;
    if i == j {
      SameIsForward(run.states[i]);
      assert ForwardTo(run.states[i], run.states[i]);
    } else {
      RunForward(cfg, run, i, j - 1);
      ApplyForward(cfg, run.states[j - 1], run.txs[j - 1]);
      RowsTransitive(run.states[i], run.states[j - 1], run.states[j], -1);
    }
  }

  /** A call's status only moves forward, and a settled call's row never changes again. */
  lemma CallsMoveForward(cfg: Config, run: Run, i: nat, j: nat, c: CallId)
    requires IsRun(cfg, run) && i <= j < |run.states| && c < |run.states[i].calls|
    ensures c < |run.states[j].calls|
    ensures !run.states[i].calls[c].status.Waiting? ==> !run.states[j].calls[c].status.Waiting?
    ensures !Pending(run.states[i].calls[c]) ==> run.states[j].calls[c] == run.states[i].calls[c]
  {
    RunForward(cfg, run, i, j);
    assert CallForward(run.states[i].calls[c], run.states[j].calls[c], true);
  }

  /** A completion that arrives after its call was harvested or lost, at any later time and with any
      content, changes nothing. */
  lemma LateCompletionIsIgnored(cfg: Config, run: Run, i: nat, j: nat, c: CallId, w: World, reply: Reply)
    requires IsRun(cfg, run) && i <= j < |run.states| && c < |run.states[i].calls| && !Pending(run.states[i].calls[c])
    ensures Apply(cfg, run.states[j], Tx(w, CompletedBy(c, reply))) == run.states[j]
  {
    CallsMoveForward(cfg, run, i, j, c);
  }

  /** However often its completion is delivered and however the watchdog races it, a call reaches
      `fn_submit_result` at most once, and not before it is settled. */
  lemma SubmittedAtMostOnce(cfg: Config, run: Run, i: nat, c: CallId)
    requires IsRun(cfg, run) && i < |run.states| && c < |run.states[i].calls|
    ensures run.states[i].calls[c].submits <= 1
    ensures Pending(run.states[i].calls[c]) ==> run.states[i].calls[c].submits == 0
  {
    RunInvariant(cfg, run, i);
    assert CallOk(run.states[i].calls[c]);
  }

  /** A schedule has spent exactly the cost of the harvested calls of its sessions, each counted once. */
  lemma SpendIsConserved(cfg: Config, run: Run, i: nat, k: ScheduleId)
    requires IsRun(cfg, run) && i < |run.states| && k < |run.states[i].schedules|
    ensures var db := run.states[i];
            db.schedules[k].spent == Sum(db.calls, CostTo(db.tasks, db.sessions, k))
    ensures forall c :: 0 <= c < |run.states[i].calls| && run.states[i].calls[c].cost.Some? ==>
              run.states[i].calls[c].status.Harvested? && run.states[i].calls[c].kind.Llm?
  {
    RunInvariant(cfg, run, i);
    forall c | 0 <= c < |run.states[i].calls| && run.states[i].calls[c].cost.Some?
      ensures run.states[i].calls[c].status.Harvested? && run.states[i].calls[c].kind.Llm?
    {
      assert CallOk(run.states[i].calls[c]);
    }
  }

  /** A schedule that has spent its budget is off. */
  predicate Thrifty(s: Schedule) {
    s.active ==> !OverBudget(s)
  }

  /** The edit does not leave the schedule switched on with a budget it has already spent. */
  predicate Affordable(s: Schedule, edit: Edit) {
    var on := if edit.active.Some? then edit.active.value else s.active;
    var limit := if edit.clearMaxCost then None else if edit.maxCost.Some? then edit.maxCost else s.maxCost;
    on && limit.Some? ==> s.spent < limit.value
  }

  predicate EditsWell(db: Db, tx: Tx, k: ScheduleId)
    requires k < |db.schedules|
  {
    tx.event.ScheduleSet? && tx.event.schedule == k && SetSchedule(db, k, tx.event.edit).Some? ==>
      Affordable(db.schedules[k], tx.event.edit)
  }

  /** One transaction keeps a schedule off past its budget exactly unless it is such an edit. */
  lemma ThriftyStep(cfg: Config, db: Db, tx: Tx, k: ScheduleId)
    requires k < |db.schedules| && Thrifty(db.schedules[k])
    ensures var next := Apply(cfg, db, tx);
            k < |next.schedules| && (Thrifty(next.schedules[k]) <==> EditsWell(db, tx, k))
  {
    if !tx.event.ScheduleSet? {
      hide Apply;
      ApplyForward(cfg, db, tx);
      assert ScheduleForward(db.schedules[k], Apply(cfg, db, tx).schedules[k]);
    }
  }

  lemma {:induction false} SchedulesStay(cfg: Config, run: Run, i: nat)
    requires IsRun(cfg, run) && i < |run.states|
    ensures |run.states[i].schedules| == |run.states[0].schedules|
  {
    RunForward(cfg, run, 0, i);
  }

  lemma {:induction false} ThriftySoFar(cfg: Config, run: Run, k: ScheduleId, i: nat)
    requires IsRun(cfg, run) && k < |run.states[0].schedules| && i < |run.states|
    requires forall n :: 0 <= n < i ==> k < |run.states[n].schedules| && EditsWell(run.states[n], run.txs[n], k)
    ensures k < |run.states[i].schedules| && Thrifty(run.states[i].schedules[k])
  {
    if i > 0 {
      ThriftySoFar(cfg, run, k, i - 1);
      hide Apply;
      ThriftyStep(cfg, run.states[i - 1], run.txs[i - 1], k);
    }
  }

  /** A schedule is off from the moment it has spent its budget, all along the run, exactly when no edit
      of an operator ever left it on with a budget it had already spent. */
  lemma BudgetStopsExactly(cfg: Config, run: Run, k: ScheduleId)
    requires IsRun(cfg, run) && k < |run.states[0].schedules|
    ensures forall n :: 0 <= n < |run.states| ==> k < |run.states[n].schedules|
    ensures (forall n :: 0 <= n < |run.states| ==> Thrifty(run.states[n].schedules[k]))
            <==> (forall n :: 0 <= n < |run.txs| ==> EditsWell(run.states[n], run.txs[n], k))
  {
    hide Apply, EditsWell, Thrifty;
    forall n | 0 <= n < |run.states| ensures k < |run.states[n].schedules| {
      SchedulesStay(cfg, run, n);
    }
    if forall n :: 0 <= n < |run.states| ==> Thrifty(run.states[n].schedules[k]) {
      forall n | 0 <= n < |run.txs| ensures EditsWell(run.states[n], run.txs[n], k) {
        ThriftyStep(cfg, run.states[n], run.txs[n], k);
        assert Thrifty(run.states[n + 1].schedules[k]);
      }
    }
    if forall n :: 0 <= n < |run.txs| ==> EditsWell(run.states[n], run.txs[n], k) {
      forall n | 0 <= n < |run.states| ensures Thrifty(run.states[n].schedules[k]) {
        ThriftySoFar(cfg, run, k, n);
      }
    }
  }

  /** Even a schedule left on past its budget starts nothing: whatever the transaction, a schedule that
      gets a new session was on and within its budget just before. */
  lemma FiresWithinBudget(cfg: Config, run: Run, n: nat, s: SessionId, k: ScheduleId)
    requires IsRun(cfg, run) && n < |run.txs|
    requires |run.states[n].sessions| <= s < |run.states[n + 1].sessions|
    requires run.states[n + 1].sessions[s].schedule == Some(k)
    ensures k < |run.states[n].schedules|
    ensures run.states[n].schedules[k].active && !OverBudget(run.states[n].schedules[k])
  {
    var tx := run.txs[n];
    ApplyForward(cfg, run.states[n], tx);
    if tx.event.Fired? {
      var e := tx.event;
      FireForward(cfg, tx.world, run.states[n], e.agent, e.schedule, e.stopped, e.last, e.forced);
      hide Fire;
    }
  }

  // ---------------------------------------------------------------------------------------------
  // Steps of the log
  // ---------------------------------------------------------------------------------------------

  /** In every state the result of a function is logged at a step its task has reached. */
  lemma {:induction false} ResultsAreReached(cfg: Config, run: Run, i: nat, l: nat)
    requires IsRun(cfg, run) && i < |run.states| && l < |run.states[i].logs| && run.states[i].logs[l].role.FunctionRole?
    ensures var db := run.states[i];
            db.logs[l].task < |db.tasks| && db.logs[l].step <= db.tasks[db.logs[l].task].steps
  {
    hide Apply;
    RunForward(cfg, run, 0, i);
  }

  // ---------------------------------------------------------------------------------------------
  // Budgets
  // ---------------------------------------------------------------------------------------------

  /** `step_count` never exceeds `max_steps + 2` plus one for each decision an operator took on the
      task, and stays below `max_steps` while a model call is outstanding. */
  lemma StepBudget(cfg: Config, run: Run, i: nat, t: TaskId)
    requires IsRun(cfg, run) && i < |run.states| && t < |run.states[i].tasks|
    ensures var db := run.states[i];
            var row := db.tasks[t];
            && row.agent in cfg
            && row.steps <= cfg[row.agent].maxSteps + 2 + row.decisions
            && (Live(row.status) ==> row.steps <= cfg[row.agent].maxSteps + 1 + row.decisions)
            && (Live(row.status) && HasPending(db.calls, t) ==> row.steps <= cfg[row.agent].maxSteps + row.decisions)
            && (Live(row.status) ==>
                  forall c :: 0 <= c < |db.calls| && db.calls[c].task == t && Pending(db.calls[c]) && db.calls[c].kind.Llm? ==>
                    row.steps < cfg[row.agent].maxSteps)
  {
    RunInvariant(cfg, run, i);
    var db := run.states[i];
    assert RowOk(cfg, db.tasks[t]);
    forall c | 0 <= c < |db.calls| && db.calls[c].task == t && Pending(db.calls[c]) ensures PendingOk(cfg, db.tasks[t], db.calls[c]) {
    }
  }

  lemma {:induction false} Undecided(cfg: Config, run: Run, i: nat, t: TaskId)
    requires IsRun(cfg, run) && i < |run.states| && t < |run.states[i].tasks|
    requires forall j :: 0 <= j < |run.txs| ==> !run.txs[j].event.Decided?
    ensures run.states[i].tasks[t].decisions == 0
  {
    if i > 0 {
      ApplyForward(cfg, run.states[i - 1], run.txs[i - 1]);
      if t < |run.states[i - 1].tasks| {
        Undecided(cfg, run, i - 1, t);
      }
    }
  }

  /** Without operator decisions the bound is `max_steps + 2`. */
  lemma StepBudgetUndecided(cfg: Config, run: Run, i: nat, t: TaskId)
    requires IsRun(cfg, run) && i < |run.states| && t < |run.states[i].tasks|
    requires forall j :: 0 <= j < |run.txs| ==> !run.txs[j].event.Decided?
    ensures run.states[i].tasks[t].agent in cfg
    ensures run.states[i].tasks[t].steps <= cfg[run.states[i].tasks[t].agent].maxSteps + 2
  {
    StepBudget(cfg, run, i, t);
    Undecided(cfg, run, i, t);
  }

  /** A task never gets more model calls than `max_steps`, except for calls whose outcome was rolled
      back when it was submitted. */
  lemma ModelCallBudget(cfg: Config, run: Run, i: nat, t: TaskId)
    requires IsRun(cfg, run) && i < |run.states| && t < |run.states[i].tasks|
    ensures var db := run.states[i];
            && db.tasks[t].agent in cfg
            && Count(db.calls, LlmOf(t)) <= cfg[db.tasks[t].agent].maxSteps + Count(db.calls, RolledBackLlmOf(t))
  {
    RunInvariant(cfg, run, i);
    assert BudgetOk(cfg, run.states[i].tasks[t], t, run.states[i].calls, NOBODY);
  }

  // ---------------------------------------------------------------------------------------------
  // Sessions and slots
  // ---------------------------------------------------------------------------------------------

  /** A session is open exactly when some task in it is queued, running or waiting. */
  lemma OpenExactlyWhenLive(cfg: Config, run: Run, i: nat, s: SessionId)
    requires IsRun(cfg, run) && i < |run.states| && s < |run.states[i].sessions|
    ensures run.states[i].sessions[s].status.Open? <==> HasLive(run.states[i].tasks, s)
  {
    RunInvariant(cfg, run, i);
  }

  /** An agent's running and waiting tasks never exceed `max_concurrent_tasks`. */
  lemma SlotsRespected(cfg: Config, run: Run, i: nat, a: AgentId)
    requires IsRun(cfg, run) && i < |run.states| && a in cfg
    ensures Count(run.states[i].tasks, OccupiesSlotOf(a)) <= cfg[a].maxConcurrent
  {
    RunInvariant(cfg, run, i);
  }

  /** So the dispatcher never skips the next turn of a task that already holds its slot. */
  lemma RunningTaskIsNotCapped(cfg: Config, run: Run, i: nat, t: TaskId)
    requires IsRun(cfg, run) && i < |run.states| && IsRunning(run.states[i], t)
    ensures !CapReached(cfg, run.states[i].tasks, t)
  {
    RunInvariant(cfg, run, i);
    var tasks := run.states[i].tasks;
    assert RowOk(cfg, tasks[t]);
    CountSplit(tasks, t, OccupiesSlotOf(tasks[t].agent));
  }

  /** No dispatch ever aborts: an exception while preparing one task's turn stays with that task. */
  lemma DispatchNeverAborts(cfg: Config, run: Run, i: nat, w: World, rows: seq<DispatchRow>)
    requires IsRun(cfg, run) && i < |run.states|
    ensures DispatchRows(cfg, w, run.states[i], rows, |rows|).Some?
  {
    RunInvariant(cfg, run, i);
    DispatchRowsKeeps(cfg, w, run.states[i], rows, |rows|);
  }

  // ---------------------------------------------------------------------------------------------
  // Approvals
  // ---------------------------------------------------------------------------------------------

  /** A task that waits for a human has exactly one approval to be decided. */
  lemma OneApprovalAsked(cfg: Config, run: Run, i: nat, t: TaskId) returns (a: ApprovalId)
    requires IsRun(cfg, run) && i < |run.states| && t < |run.states[i].tasks| && run.states[i].tasks[t].status.WaitingHuman?
    ensures var asked := run.states[i].approvals;
            && a < |asked| && asked[a].task == t && asked[a].status.Undecided?
            && (forall b :: 0 <= b < |asked| && asked[b].task == t && asked[b].status.Undecided? ==> b == a)
  {
    RunInvariant(cfg, run, i);
    var asked := run.states[i].approvals;
    assert Asked(asked, t);
    a :| 0 <= a < |asked| && asked[a].task == t && asked[a].status.Undecided?;
  }

  /** Approving an execution request resumes that same queued request and no other. */
  lemma ApprovalResumesItsRequest(cfg: Config, run: Run, i: nat, w: World, a: ApprovalId)
    requires IsRun(cfg, run) && i < |run.states| && a < |run.states[i].approvals|
    requires var asked := run.states[i].approvals[a];
             && asked.status.Undecided? && asked.expiresAt > w.now && asked.call.Some?
             && asked.task < |run.states[i].tasks| && run.states[i].tasks[asked.task].status.WaitingHuman?
    ensures var asked := run.states[i].approvals[a];
            var next := Apply(cfg, run.states[i], Tx(w, Decided(a, true)));
            && next.calls == run.states[i].calls
            && IsRunning(next, asked.task)
            && asked.call.value < |next.calls|
            && next.calls[asked.call.value].task == asked.task && next.calls[asked.call.value].status.Waiting?
            && (forall c :: 0 <= c < |next.calls| && next.calls[c].task == asked.task && Pending(next.calls[c]) ==> c == asked.call.value)
  {
    RunInvariant(cfg, run, i);
    var db := run.states[i];
    assert ApprovalOk(db.tasks, db.calls, db.approvals[a]);
    forall c | 0 <= c < |db.calls| && db.calls[c].task == db.approvals[a].task && Pending(db.calls[c])
      ensures c == db.approvals[a].call.value
    {
      assert Holds(db.tasks, db.approvals[a], c, db.calls[c]);
    }
  }

  /** A queued call of a live task is never stranded: a worker can claim it, or an undecided approval
      holds it back. */
  lemma QueuedCallIsNotStranded(cfg: Config, run: Run, i: nat, c: CallId)
    requires IsRun(cfg, run) && i < |run.states| && c < |run.states[i].calls| && run.states[i].calls[c].status.Waiting?
    ensures var db := run.states[i];
            var t := db.calls[c].task;
            && t < |db.tasks|
            && (Terminal(db.tasks[t].status)
                || Claimable(db, QueueOf(db.calls[c].kind), c)
                || (db.tasks[t].status.WaitingHuman? &&
                    exists a :: 0 <= a < |db.approvals| && db.approvals[a].status.Undecided?
                                && db.approvals[a].task == t && db.approvals[a].call == Some(c)))
  {
    RunInvariant(cfg, run, i);
    var db := run.states[i];
    var t := db.calls[c].task;
    assert PendingOk(cfg, db.tasks[t], db.calls[c]);
    if db.tasks[t].status.WaitingHuman? {
      assert Asked(db.approvals, t);
      var a :| 0 <= a < |db.approvals| && db.approvals[a].task == t && db.approvals[a].status.Undecided?;
      assert Holds(db.tasks, db.approvals[a], c, db.calls[c]);
    }
  }

  // ---------------------------------------------------------------------------------------------
  // Delegation
  // ---------------------------------------------------------------------------------------------

  /** In every reachable state the depth column counts the hops to the root, no agent occurs twice on
      a chain, and so no chain is as long as there are agents. */
  lemma DelegationBounded(cfg: Config, run: Run, i: nat, t: TaskId)
    requires IsRun(cfg, run) && i < |run.states| && t < |run.states[i].tasks|
    ensures var tasks := run.states[i].tasks;
            var chain := Ancestors(tasks, t);
            && |chain| == tasks[t].depth + 1
            && tasks[t].depth < |cfg|
            && (forall k :: 0 <= k < |chain| ==> chain[k] < |tasks|)
            && (forall k :: 0 <= k < |chain| - 1 ==> tasks[chain[k]].parent == Some(chain[k + 1]))
            && (forall k, l :: 0 <= k < l < |chain| ==> tasks[chain[k]].agent != tasks[chain[l]].agent)
            && (tasks[t].parent.Some? ==>
                  var p := tasks[t].parent.value;
                  && p < t && tasks[p].agent in cfg && tasks[t].depth <= cfg[tasks[p].agent].maxDepth
                  && Count(tasks[..t], InSession(tasks[t].session)) < cfg[tasks[p].agent].maxSessionTasks)
  {
    RunInvariant(cfg, run, i);
    AncestorLinks(cfg, run.states[i].tasks, t);
    ChainDistinct(cfg, run.states[i].tasks, t);
    DepthBounded(cfg, run.states[i].tasks, t);
    assert ForestRow(cfg, run.states[i].tasks, t);
  }

  /** In every reachable state every live task has below it, along tasks that wait for their
      children, a task that something else can move. */
  lemma NoCircularWait(cfg: Config, run: Run, i: nat, t: TaskId) returns (path: seq<TaskId>)
    requires IsRun(cfg, run) && i < |run.states| && t < |run.states[i].tasks| && Live(run.states[i].tasks[t].status)
    ensures |path| > 0 && path[0] == t
    ensures forall k :: 0 <= k < |path| - 1 ==> WaitsFor(run.states[i].tasks, path[k], path[k + 1])
    ensures Movable(run.states[i].tasks, path[|path| - 1])
  {
    RunInvariant(cfg, run, i);
    path := WaitingIsGrounded(cfg, run.states[i].tasks, t);
  }
}
