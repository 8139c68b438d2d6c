/** What an operator's transactions do, in the columns of the tables, and what a decision is worth over a
    whole run: a rejected request never runs, and a task that waits for a human waits for a decision. */
module OperatorEffects {
  import opened Tables
  import opened Transactions
  import opened Invariant
  import opened RowOperations
  import opened Preservation
  import opened Forward
  import opened Runs
  import opened Authorization
  import opened Effects
  import opened SweepEffects

  // ---------------------------------------------------------------------------------------------
  // Decisions
  // ---------------------------------------------------------------------------------------------

  /** The decision comes in time and is the first. */
  predicate Decidable(w: World, db: Db, a: ApprovalId) {
    a < |db.approvals| && db.approvals[a].status.Undecided? && w.now < db.approvals[a].expiresAt
  }

  /** The decision is recorded as it was taken, and a waiting task goes on with its held call, goes back to
      the queue, or fails, one step later. */
  ghost predicate DecisionTaken(w: World, db: Db, next: Db, a: ApprovalId, accept: bool)
    requires a < |db.approvals| && db.approvals[a].task < |db.tasks|
  {
    var t := db.approvals[a].task;
    var row := db.tasks[t].(steps := db.tasks[t].steps + 1, decisions := db.tasks[t].decisions + 1, updatedAt := w.now);
    && next.approvals == db.approvals[a := db.approvals[a].(status := if accept then Approved else Rejected)]
    && (if db.tasks[t].status.WaitingHuman?
        then
          && next.logs == db.logs + [Log(t, db.tasks[t].steps + 1, OperatorRole, Text)]
          && next.tasks == db.tasks[t := if !accept then row.(status := Failed, error := Some("human_rejected"))
                                         else if db.approvals[a].call.Some? then row.(status := Running)
                                         else row.(status := Queued)]
        else next.tasks == db.tasks && next.logs == db.logs)
  }

  /** A decision that comes too late or a second time changes nothing. */
  lemma DecisionOutcome(cfg: Config, w: World, db: Db, a: ApprovalId, accept: bool)
    requires Inv(cfg, db)
    ensures var next := Apply(cfg, db, Tx(w, Decided(a, accept)));
            && next.calls == db.calls
            && (!Decidable(w, db, a) ==> next == db)
            && (Decidable(w, db, a) ==> db.approvals[a].task < |db.tasks| && DecisionTaken(w, db, next, a, accept))
  {
    hide HasLive, HasFailed, LatestRoot, Inv;
    if a < |db.approvals| {
      ApprovalHasTask(cfg, db, a);
    }
  }

  lemma ApprovalHasTask(cfg: Config, db: Db, a: ApprovalId)
    requires Inv(cfg, db) && a < |db.approvals|
    ensures db.approvals[a].task < |db.tasks|
  {
    assert ApprovalOk(db.tasks, db.calls, db.approvals[a]);
  }

  /** And the session of a rejected task is closed if nothing else in it is live. */
  lemma RejectionCloses(cfg: Config, w: World, db: Db, a: ApprovalId)
    requires Inv(cfg, db) && Decidable(w, db, a)
    ensures var t := db.approvals[a].task;
            var next := Apply(cfg, db, Tx(w, Decided(a, false)));
            && t < |db.tasks| && db.tasks[t].session < |next.sessions|
            && (next.sessions[db.tasks[t].session].status.Open? <==> HasLive(next.tasks, db.tasks[t].session))
  {
    assert ApprovalOk(db.tasks, db.calls, db.approvals[a]);
    hide Inv, Apply, HasLive;
    ClosedWithoutLive(cfg, db, Tx(w, Decided(a, false)), db.approvals[a].task);
  }

  // ---------------------------------------------------------------------------------------------
  // A rejected request never runs
  // ---------------------------------------------------------------------------------------------

  /** A call that an undecided approval holds back is not in flight, whatever became of its task. */
  ghost predicate HeldBack(db: Db) {
    forall a, c :: 0 <= a < |db.approvals| && db.approvals[a].status.Undecided? && db.approvals[a].call == Some(c) && c < |db.calls| ==>
      !db.calls[c].status.InFlight?
  }

  lemma UnclaimedHeldBack(db: Db, next: Db)
    requires HeldBack(db) && Authorization.Unclaimed(db, next) && RowsForward(db, next, -1)
    ensures HeldBack(next)
  {
    forall a, c | 0 <= a < |next.approvals| && next.approvals[a].status.Undecided? && next.approvals[a].call == Some(c) && c < |next.calls|
      ensures !next.calls[c].status.InFlight?
    {
      assert a < |db.approvals| && ApprovalForward(db.approvals[a], next.approvals[a]);
    }
  }

  /** A claim starts only calls of running tasks, and no approval of such a task is undecided. */
  lemma ClaimOneHeldBack(cfg: Config, w: World, db: Db, row: ClaimRow)
    requires Inv(cfg, db) && HeldBack(db)
    ensures HeldBack(ClaimOne(cfg, w, db, row))
    ensures var next := ClaimOne(cfg, w, db, row);
            |next.calls| == |db.calls| &&
            forall c :: 0 <= c < |db.calls| && next.calls[c].status.InFlight? && !db.calls[c].status.InFlight? ==>
              IsRunning(db, db.calls[c].task)
  {
    hide Inv, LatestApproval, HasLive, HasFailed, LatestRoot;
    if Guardable(db, row.call) {
      NothingUndecided(cfg, db, row.call);
    }
  }

  /** No approval of a queued call of a running task is undecided. */
  lemma NothingUndecided(cfg: Config, db: Db, c: CallId)
    requires Inv(cfg, db) && Guardable(db, c)
    ensures forall a :: 0 <= a < |db.approvals| && db.approvals[a].call == Some(c) ==> !db.approvals[a].status.Undecided?
  {
    forall a | 0 <= a < |db.approvals| && db.approvals[a].call == Some(c) ensures !db.approvals[a].status.Undecided? {
      assert ApprovalOk(db.tasks, db.calls, db.approvals[a]);
    }
  }

  lemma {:induction false} ClaimRowsHeldBack(cfg: Config, w: World, db: Db, q: Queue, limit: int, rows: seq<ClaimRow>, n: nat)
    requires Inv(cfg, db) && HeldBack(db) && n <= |rows|
    ensures var next := ClaimRows(cfg, w, db, q, limit, rows, n).db;
            && HeldBack(next) && |next.calls| == |db.calls|
            && forall c :: 0 <= c < |db.calls| && next.calls[c].status.InFlight? && !db.calls[c].status.InFlight? ==>
                 db.calls[c].task < |db.tasks| && Live(db.tasks[db.calls[c].task].status)
  {
    hide Inv, ClaimOne, HeldBack, Claimable;
    if n > 0 {
      var sofar := ClaimRows(cfg, w, db, q, limit, rows, n - 1).db;
      ClaimRowsHeldBack(cfg, w, db, q, limit, rows, n - 1);
      ClaimRowsKeeps(cfg, w, db, q, limit, rows, n - 1);
      ClaimRowsForward(cfg, w, db, q, limit, rows, n - 1);
      ClaimOneHeldBack(cfg, w, sofar, rows[n - 1]);
      CallsHaveTasks(cfg, db);
      forall c | 0 <= c < |db.calls| && IsRunning(sofar, sofar.calls[c].task)
        ensures db.calls[c].task < |db.tasks| && Live(db.tasks[db.calls[c].task].status)
      {
        assert CallForward(db.calls[c], sofar.calls[c], true);
        assert TaskForward(db.tasks[db.calls[c].task], sofar.tasks[db.calls[c].task]);
      }
    }
  }

  lemma CallsHaveTasks(cfg: Config, db: Db)
    requires Inv(cfg, db)
    ensures forall c :: 0 <= c < |db.calls| ==> db.calls[c].task < |db.tasks|
  {
  }

  /** Nothing but a claim starts a call. */
  lemma StepUnclaimed(cfg: Config, db: Db, tx: Tx)
    requires !tx.event.ClaimedBy?
    ensures Authorization.Unclaimed(db, Apply(cfg, db, tx))
  {
    hide DispatchRows, Complete, Watchdog, Decide, CancelSession;
    var w := tx.world;
    match tx.event
    case Created(a) =>
    case Fired(a, k, stopped, last, forced) =>
    case ScheduleSet(k, edit) =>
    case Continued(s) =>
    case Dispatched(rows) => DispatchRowsUnclaimed(cfg, w, db, rows, |rows|);
    case CompletedBy(c, reply) => CompleteUnclaimed(cfg, w, db, c, reply);
    case Swept(timeout, faults) => WatchdogUnclaimed(cfg, w, db, timeout, faults);
    case Decided(a, accept) => DecideUnclaimed(w, db, a, accept);
    case CancelledBy(s) => CancelUnclaimed(w, db, s);
  }

  /** One transaction never starts a held call, nor one of a finished task. */
  lemma StepHeldBack(cfg: Config, db: Db, tx: Tx)
    requires Inv(cfg, db) && HeldBack(db)
    ensures var next := Apply(cfg, db, tx);
            && HeldBack(next) && |db.calls| <= |next.calls|
            && forall c :: 0 <= c < |db.calls| && next.calls[c].status.InFlight? && !db.calls[c].status.InFlight? ==>
                 db.calls[c].task < |db.tasks| && Live(db.tasks[db.calls[c].task].status)
  {
    hide Inv, HeldBack, RowsForward, Apply, ClaimRows;
    if tx.event.ClaimedBy? {
      assert Apply(cfg, db, tx) == ClaimRows(cfg, tx.world, db, tx.event.queue, tx.event.limit, tx.event.claims, |tx.event.claims|).db by {
        ClaimIsRows(cfg, db, tx);
      }
      ClaimRowsHeldBack(cfg, tx.world, db, tx.event.queue, tx.event.limit, tx.event.claims, |tx.event.claims|);
    } else {
      StepUnclaimed(cfg, db, tx);
      ApplyForward(cfg, db, tx);
      UnclaimedHeldBack(db, Apply(cfg, db, tx));
    }
  }

  lemma ClaimIsRows(cfg: Config, db: Db, tx: Tx)
    requires tx.event.ClaimedBy?
    ensures Apply(cfg, db, tx) == ClaimRows(cfg, tx.world, db, tx.event.queue, tx.event.limit, tx.event.claims, |tx.event.claims|).db
  {
    hide ClaimRows;
  }

  lemma {:induction false} RunHeldBack(cfg: Config, run: Run, i: nat)
    requires IsRun(cfg, run) && i < |run.states|
    ensures HeldBack(run.states[i])
  {
    hide Inv, Apply;
    if i > 0 {
      RunHeldBack(cfg, run, i - 1);
      RunInvariant(cfg, run, i - 1);
      hide HeldBack;
      StepHeldBack(cfg, run.states[i - 1], run.txs[i - 1]);
    }
  }

  /** After a rejection the task is finished, so its call stays where it is. */
  lemma {:induction false} FinishedStaysUnsent(cfg: Config, run: Run, i: nat, j: nat, c: CallId)
    requires IsRun(cfg, run) && i <= j < |run.states| && c < |run.states[i].calls|
    requires run.states[i].calls[c].task < |run.states[i].tasks| && Terminal(run.states[i].tasks[run.states[i].calls[c].task].status)
    requires !run.states[i].calls[c].status.InFlight?
    ensures c < |run.states[j].calls| && !run.states[j].calls[c].status.InFlight?
    decreases j
  {
    hide Inv, Apply, HeldBack;
    if i < j {
      FinishedStaysUnsent(cfg, run, i, j - 1, c);
      RunInvariant(cfg, run, j - 1);
      RunHeldBack(cfg, run, j - 1);
      RunForward(cfg, run, i, j - 1);
      StepHeldBack(cfg, run.states[j - 1], run.txs[j - 1]);
      var t := run.states[i].calls[c].task;
      assert CallForward(run.states[i].calls[c], run.states[j - 1].calls[c], true);
      assert TaskForward(run.states[i].tasks[t], run.states[j - 1].tasks[t]);
    }
  }

  /** In every run, a request that an operator rejected is never in flight afterwards. */
  lemma RejectedNeverRuns(cfg: Config, run: Run, i: nat, j: nat, a: ApprovalId, c: CallId)
    requires IsRun(cfg, run) && i < |run.txs| && i < j < |run.states|
    requires run.txs[i].event == Decided(a, false) && Decidable(run.txs[i].world, run.states[i], a)
    requires run.states[i].approvals[a].call == Some(c)
    ensures c < |run.states[j].calls| && !run.states[j].calls[c].status.InFlight?
  {
    var db, w := run.states[i], run.txs[i].world;
    RunInvariant(cfg, run, i);
    RunHeldBack(cfg, run, i);
    DecisionOutcome(cfg, w, db, a, false);
    assert ApprovalOk(db.tasks, db.calls, db.approvals[a]);
    assert run.states[i + 1] == Apply(cfg, db, Tx(w, Decided(a, false)));
    hide Inv, Apply;
    FinishedStaysUnsent(cfg, run, i + 1, j, c);
  }

  // ---------------------------------------------------------------------------------------------
  // A task that waits for a human waits for a decision
  // ---------------------------------------------------------------------------------------------

  /** A transaction that resumes a waiting task is an operator's acceptance. */
  lemma OnlyAcceptanceResumes(cfg: Config, db: Db, tx: Tx, t: TaskId)
    requires Inv(cfg, db) && t < |db.tasks| && db.tasks[t].status.WaitingHuman?
    ensures var next := Apply(cfg, db, tx);
            && t < |next.tasks|
            && (next.tasks[t].status.WaitingHuman? || Terminal(next.tasks[t].status)
                || (tx.event.Decided? && tx.event.accept && Decidable(tx.world, db, tx.event.approval)
                    && db.approvals[tx.event.approval].task == t))
  {
    hide Inv, Apply;
    ApplyForward(cfg, db, tx);
    if tx.event.Decided? {
      DecisionOutcome(cfg, tx.world, db, tx.event.approval, tx.event.accept);
    } else {
      assert NotResumed(db.tasks[t], Apply(cfg, db, tx).tasks[t]);
    }
  }

  /** Transaction `m` of the run is an operator's acceptance, in time, of an approval of task `t`. */
  ghost predicate AcceptedAt(run: Run, m: nat, t: TaskId)
    requires m < |run.states| && m < |run.txs|
  {
    var e := run.txs[m].event;
    e.Decided? && e.accept && Decidable(run.txs[m].world, run.states[m], e.approval) && run.states[m].approvals[e.approval].task == t
  }

  /** In every run, between a state in which a task waits for a human and one in which it is queued, running
      or waiting for its children, an operator has accepted an approval of it. */
  lemma {:induction false} WaitsForDecision(cfg: Config, run: Run, i: nat, j: nat, t: TaskId)
    requires IsRun(cfg, run) && i <= j < |run.states| && t < |run.states[i].tasks| && run.states[i].tasks[t].status.WaitingHuman?
    ensures t < |run.states[j].tasks|
    ensures run.states[j].tasks[t].status.WaitingHuman? || Terminal(run.states[j].tasks[t].status)
            || exists m :: i <= m < j && AcceptedAt(run, m, t)
    decreases j
  {
    hide Inv, Apply;
    if i < j {
      WaitsForDecision(cfg, run, i, j - 1, t);
      RunInvariant(cfg, run, j - 1);
      var db := run.states[j - 1];
      ApplyForward(cfg, db, run.txs[j - 1]);
      assert TaskForward(db.tasks[t], run.states[j].tasks[t]);
      if db.tasks[t].status.WaitingHuman? {
        OnlyAcceptanceResumes(cfg, db, run.txs[j - 1], t);
        assert run.states[j].tasks[t].status.WaitingHuman? || Terminal(run.states[j].tasks[t].status) || AcceptedAt(run, j - 1, t);
      }
    }
  }

  /** The result of a call is unknown: its worker could not say, or a sweep gave it up. */
  predicate LeftUnknown(tx: Tx, db: Db, c: CallId)
    requires c < |db.calls|
  {
    match tx.event
    case CompletedBy(d, reply) => d == c && Effects.Unknown(db.calls[c], reply)
    case Swept(timeout, _) => Mutating(db.calls[c].kind) && Overdue(db.calls[c], tx.world.now, timeout)
    case _ => false
  }

  /** In every run, when the result of a mutating request is left unknown, its task is not queued or running
      again before an operator has accepted it: the model cannot repeat the request on its own. */
  lemma UnknownWaitsForDecision(cfg: Config, run: Run, i: nat, j: nat, c: CallId)
    requires IsRun(cfg, run) && i < |run.txs| && i < j < |run.states|
    requires c < |run.states[i].calls| && run.states[i].calls[c].status.InFlight? && LeftUnknown(run.txs[i], run.states[i], c)
    requires IsRunning(run.states[i], run.states[i].calls[c].task)
    ensures var t := run.states[i].calls[c].task;
            && t < |run.states[j].tasks|
            && (run.states[j].tasks[t].status.WaitingHuman? || Terminal(run.states[j].tasks[t].status)
                || exists m :: i < m < j && AcceptedAt(run, m, t))
  {
    var db, tx := run.states[i], run.txs[i];
    var t := db.calls[c].task;
    RunInvariant(cfg, run, i);
    assert run.states[i + 1] == Apply(cfg, db, tx);
    hide Inv, Apply, Overdue, AcceptedAt;
    if tx.event.CompletedBy? {
      UnknownOutcome(cfg, tx.world, db, c, tx.event.reply);
    } else {
      SweepTells(cfg, tx.world, db, tx.event.timeout, tx.event.faults, c);
    }
    var next := run.states[i + 1];
    assert next.tasks[t].status.WaitingHuman? || Terminal(next.tasks[t].status);
    if next.tasks[t].status.WaitingHuman? {
      WaitsForDecision(cfg, run, i + 1, j, t);
    } else {
      RunForward(cfg, run, i + 1, j);
      assert TaskForward(next.tasks[t], run.states[j].tasks[t]);
    }
  }

  // ---------------------------------------------------------------------------------------------
  // Cancelling, continuing, firing
  // ---------------------------------------------------------------------------------------------

  function CancelledTask(w: World, row: Task, mine: bool): Task {
    if mine && Live(row.status)
    then row.(status := Cancelled, error := Some("operator_cancelled"), steps := row.steps + 1, updatedAt := w.now)
    else row
  }

  function CancelledCall(w: World, call: Call, mine: bool): Call {
    if mine && Pending(call) && LostWithItsTurn(call.kind) then call.(status := Lost, updatedAt := w.now) else call
  }

  function CancelledApproval(a: Approval, mine: bool): Approval {
    if mine && a.status.Undecided? then a.(status := Rejected) else a
  }

  predicate TaskIn(db: Db, t: TaskId, s: SessionId) {
    t < |db.tasks| && db.tasks[t].session == s
  }

  /** The first `n` tasks of a session that is being cancelled. */
  lemma {:induction false} CancelledTasks(w: World, db: Db, s: SessionId, n: nat)
    requires n <= |db.tasks|
    ensures var next := CancelTasks(w, db, s, n);
            && next.calls == db.calls && next.approvals == db.approvals && next.sessions == db.sessions && next.schedules == db.schedules
            && |next.tasks| == |db.tasks|
            && forall t :: 0 <= t < |db.tasks| ==> next.tasks[t] == CancelledTask(w, db.tasks[t], t < n && TaskIn(db, t, s))
  {
    if n > 0 {
      CancelledTasks(w, db, s, n - 1);
    }
  }

  /** Cancelling a session cancels exactly its live tasks, gives up their queued and running model, HTTP,
      MCP, search and SQL calls and no others, and rejects what was still to be decided for them. */
  lemma CancelOutcome(cfg: Config, w: World, db: Db, s: SessionId)
    requires s < |db.sessions|
    ensures var next := Apply(cfg, db, Tx(w, CancelledBy(s)));
            && |next.tasks| == |db.tasks| && |next.calls| == |db.calls| && |next.approvals| == |db.approvals|
            && (forall t :: 0 <= t < |db.tasks| ==> next.tasks[t] == CancelledTask(w, db.tasks[t], TaskIn(db, t, s)))
            && (forall c :: 0 <= c < |db.calls| ==> next.calls[c] == CancelledCall(w, db.calls[c], TaskIn(db, db.calls[c].task, s)))
            && (forall a :: 0 <= a < |db.approvals| ==>
                  next.approvals[a] == CancelledApproval(db.approvals[a], TaskIn(db, db.approvals[a].task, s)))
            && next.sessions == db.sessions[s := db.sessions[s].(status := if db.sessions[s].status.Open? then Stopped else db.sessions[s].status)]
  {
    hide CancelTasks;
    CancelledTasks(w, db, s, |db.tasks|);
  }

  /** A follow-up is refused exactly when the agent is not active or a root task of the session is still
      live; otherwise the session is open again, with a new root task. */
  lemma ContinueOutcome(cfg: Config, w: World, db: Db, s: SessionId)
    requires s < |db.sessions|
    ensures var a := db.sessions[s].agent;
            var next := Apply(cfg, db, Tx(w, Continued(s)));
            if a !in w.active || a !in cfg
               || exists t :: 0 <= t < |db.tasks| && db.tasks[t].session == s && db.tasks[t].parent.None? && Live(db.tasks[t].status)
            then next == db
            else
              && next.sessions == db.sessions[s := db.sessions[s].(status := Open)]
              && next.tasks == db.tasks + [Task(s, a, None, 0, Queued, 0, None, w.now, None, None, 0)]
              && next.logs == db.logs + [Log(|db.tasks|, 0, UserRole, Text)]
              && next.calls == db.calls && next.approvals == db.approvals && next.schedules == db.schedules
  {
  }

  /** A schedule that fires opens a session with one root task, and goes on unless this was the last
      time; past its budget, or stopped, it is switched off by the sweep and refused to an operator. */
  lemma FiringOutcome(cfg: Config, w: World, db: Db, a: AgentId, k: ScheduleId, stopped: bool, last: bool, forced: bool)
    requires k < |db.schedules|
    ensures var s := db.schedules[k];
            var over := stopped || (s.maxCost.Some? && s.spent >= s.maxCost.value);
            var next := Apply(cfg, db, Tx(w, Fired(a, k, stopped, last, forced)));
            if s.active && !over && a in w.active && a in cfg then
              && next.sessions == db.sessions + [Session(a, Some(k), Open, None)]
              && next.tasks == db.tasks + [Task(|db.sessions|, a, None, 0, Queued, 0, None, w.now, None, None, 0)]
              && next.logs == db.logs + [Log(|db.tasks|, 0, UserRole, Text)]
              && next.schedules == db.schedules[k := s.(active := !last)]
            else
              && next.sessions == db.sessions && next.tasks == db.tasks && next.logs == db.logs
              && next.schedules == db.schedules[k := s.(active := s.active && (forced || !over))]
  {
  }

  /** A new session is refused exactly when its agent is not active. */
  lemma CreationOutcome(cfg: Config, w: World, db: Db, a: AgentId)
    ensures var next := Apply(cfg, db, Tx(w, Created(a)));
            if a in w.active && a in cfg then
              && next.sessions == db.sessions + [Session(a, None, Open, None)]
              && next.tasks == db.tasks + [Task(|db.sessions|, a, None, 0, Queued, 0, None, w.now, None, None, 0)]
              && next.logs == db.logs + [Log(|db.tasks|, 0, UserRole, Text)]
              && next.calls == db.calls && next.approvals == db.approvals && next.schedules == db.schedules
            else next == db
  {
  }

  /** An edit with a budget that is not positive is refused; any other sets what it names, and a cleared
      budget goes before a new one. */
  lemma EditOutcome(cfg: Config, w: World, db: Db, k: ScheduleId, edit: Edit)
    requires k < |db.schedules|
    ensures var s := db.schedules[k];
            var next := Apply(cfg, db, Tx(w, ScheduleSet(k, edit)));
            if edit.maxCost.Some? && edit.maxCost.value <= 0.0 then next == db
            else
              && next == db.(schedules := next.schedules) && |next.schedules| == |db.schedules|
              && (forall j :: 0 <= j < |db.schedules| && j != k ==> next.schedules[j] == db.schedules[j])
              && next.schedules[k].spent == s.spent
              && (edit.active.Some? ==> next.schedules[k].active == edit.active.value)
              && (edit.active.None? ==> next.schedules[k].active == s.active)
              && (edit.clearMaxCost ==> next.schedules[k].maxCost.None?)
              && (!edit.clearMaxCost ==> next.schedules[k].maxCost == if edit.maxCost.Some? then edit.maxCost else s.maxCost)
  {
  }
}
