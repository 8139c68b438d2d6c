/** What one sweep does to the calls in flight and to the tasks that wait for them: exactly the overdue
    calls are given up, and each running task is told, or waits for a human. */
module SweepEffects {
  import opened Tables
  import opened Transactions
  import opened Invariant
  import opened Preservation
  import opened Forward
  import opened Effects
  import opened Waking

  function Larger(a: int, b: int): int {
    if a < b then b else a
  }

  /** A call in flight is given up after `timeout` seconds, but never before 15, a procedure's never
      before 150. */
  predicate Overdue(call: Call, now: int, timeout: int) {
    var limit := match call.kind
                 case ToolCall(Procedure) => Larger(150, timeout)
                 case _ => Larger(15, timeout);
    call.updatedAt < now - limit
  }

  /** The task has been at it for longer than its agent's `max_turn_seconds`. */
  predicate TurnOver(cfg: Config, now: int, row: Task) {
    && (row.status.Running? || row.status.WaitingHuman? || row.status.WaitingChildren?)
    && row.agent in cfg && row.startedAt.Some? && cfg[row.agent].maxTurnSeconds.Some?
    && row.startedAt.value < now - cfg[row.agent].maxTurnSeconds.value
  }

  /** The tables of model, HTTP, MCP and search requests, and of SQL statements. */
  predicate LostWithItsTurn(kind: CallKind) {
    kind != ToolCall(PlFunction) && kind != ToolCall(Procedure)
  }

  // ---------------------------------------------------------------------------------------------
  // The reclaim loops
  // ---------------------------------------------------------------------------------------------

  /** Neither the call nor its task has changed, and nothing is asked about it. */
  ghost predicate Untouched(db: Db, next: Db, c: CallId)
    requires c < |db.calls|
  {
    && |next.calls| == |db.calls| && next.calls[c] == db.calls[c]
    && |next.tasks| == |db.tasks|
    && (db.calls[c].task < |db.tasks| ==> next.tasks[db.calls[c].task] == db.tasks[db.calls[c].task])
  }

  /** Giving up a call touches only that call and its task. */
  lemma ReclaimTouches(cfg: Config, w: World, db: Db, q: Queue, timeout: int, d: CallId, fault: bool)
    ensures var next := Reclaim(cfg, w, db, q, timeout, d, fault);
            && |next.calls| == |db.calls| && |next.tasks| == |db.tasks|
            && (forall c :: 0 <= c < |db.calls| && c != d ==> next.calls[c] == db.calls[c])
            && (d < |db.calls| ==> forall u :: 0 <= u < |db.tasks| && u != db.calls[d].task ==> next.tasks[u] == db.tasks[u])
  {
    hide SubmitResult, TimeoutMessage;
    if d < |db.calls| && db.calls[d].task < |db.tasks| {
      var lost := SetCall(db, d, db.calls[d].(status := Lost, updatedAt := w.now));
      var noted := SetCall(lost, d, lost.calls[d].(submits := lost.calls[d].submits + 1));
      var message := TimeoutMessage(db.calls[d].kind);
      SubmitConcerns(cfg, w, noted, db.calls[d].task, Failure(message));
      ErrorAddsNothing(cfg, w, noted, db.calls[d].task, message);
    }
  }

  /** Reporting an error adds no task and no call. */
  lemma ErrorAddsNothing(cfg: Config, w: World, db: Db, t: TaskId, message: string)
    ensures var r := SubmitResult(cfg, w, db, t, Failure(message));
            r.Some? ==> |r.value.tasks| == |db.tasks| && |r.value.calls| == |db.calls|
  {
    hide HasLive, HasFailed, LatestRoot, Count;
  }

  lemma ReclaimOther(cfg: Config, w: World, db: Db, q: Queue, timeout: int, d: CallId, fault: bool, c: CallId)
    requires Inv(cfg, db) && c < |db.calls| && db.calls[c].status.InFlight? && c != d
    ensures Untouched(db, Reclaim(cfg, w, db, q, timeout, d, fault), c)
  {
    hide ForestOk, RowsOk, CallsOk, ApprovalsOk, WaitersAsked, BudgetsOk, SpendOk, SessionsOk, SlotsOk, Deliver, PauseAmbiguous;
    ReclaimTouches(cfg, w, db, q, timeout, d, fault);
  }

  lemma ReclaimSelf(cfg: Config, w: World, db: Db, q: Queue, timeout: int, c: CallId, fault: bool)
    requires c < |db.calls| && db.calls[c].status.InFlight?
    ensures var next := Reclaim(cfg, w, db, q, timeout, c, fault);
            if QueueOf(db.calls[c].kind) == q && Overdue(db.calls[c], w.now, timeout)
            then c < |next.calls| && next.calls[c].status.Lost?
            else next == db
  {
    hide HasLive, HasFailed, LatestRoot, Count, TimeoutMessage;
  }

  /** What has become of call `c` when the loop over its queue has passed it. */
  ghost predicate GivenUp(db: Db, next: Db, c: CallId, lost: bool)
    requires c < |db.calls|
  {
    |next.calls| == |db.calls| && if lost then next.calls[c].status.Lost? else Untouched(db, next, c)
  }

  lemma {:induction false} ReclaimCallsExactly(cfg: Config, w: World, db: Db, q: Queue, timeout: int, faults: set<CallId>, n: nat, c: CallId)
    requires Inv(cfg, db) && c < |db.calls| && db.calls[c].status.InFlight?
    ensures GivenUp(db, ReclaimCalls(cfg, w, db, q, timeout, faults, n), c,
                    c < n && QueueOf(db.calls[c].kind) == q && Overdue(db.calls[c], w.now, timeout))
  {
    hide Inv, Reclaim, Overdue;
    if n > 0 {
      var sofar := ReclaimCalls(cfg, w, db, q, timeout, faults, n - 1);
      var next := ReclaimCalls(cfg, w, db, q, timeout, faults, n);
      ReclaimCallsExactly(cfg, w, db, q, timeout, faults, n - 1, c);
      ReclaimCallsKeeps(cfg, w, db, q, timeout, faults, n - 1);
      ReclaimTouches(cfg, w, sofar, q, timeout, n - 1, n - 1 in faults);
      ReclaimForward(cfg, w, sofar, q, timeout, n - 1, n - 1 in faults);
      if sofar.calls[c].status.Lost? {
        LostStays(sofar, next, c);
      } else if c == n - 1 {
        ReclaimSelf(cfg, w, sofar, q, timeout, c, c in faults);
      } else {
        ReclaimOther(cfg, w, sofar, q, timeout, n - 1, n - 1 in faults, c);
      }
    }
  }

  lemma LostStays(db: Db, next: Db, c: CallId)
    requires RowsForward(db, next, -1) && c < |db.calls| && db.calls[c].status.Lost?
    ensures c < |next.calls| && next.calls[c] == db.calls[c]
  {
    assert CallForward(db.calls[c], next.calls[c], true);
  }

  /** One of the four loops, when the call was untouched or lost before. */
  lemma LoopExactly(cfg: Config, w: World, db: Db, sofar: Db, q: Queue, timeout: int, faults: set<CallId>, c: CallId, lost: bool)
    requires Inv(cfg, sofar) && c < |db.calls| && db.calls[c].status.InFlight? && GivenUp(db, sofar, c, lost)
    ensures GivenUp(db, ReclaimCalls(cfg, w, sofar, q, timeout, faults, |sofar.calls|), c,
                    lost || (QueueOf(db.calls[c].kind) == q && Overdue(db.calls[c], w.now, timeout)))
    ensures Inv(cfg, ReclaimCalls(cfg, w, sofar, q, timeout, faults, |sofar.calls|))
  {
    hide Inv, ReclaimCalls, Overdue;
    var next := ReclaimCalls(cfg, w, sofar, q, timeout, faults, |sofar.calls|);
    ReclaimCallsKeeps(cfg, w, sofar, q, timeout, faults, |sofar.calls|);
    ReclaimCallsForward(cfg, w, sofar, q, timeout, faults, |sofar.calls|);
    SameSize(cfg, w, sofar, q, timeout, faults, |sofar.calls|);
    if lost {
      LostStays(sofar, next, c);
    } else {
      ReclaimCallsExactly(cfg, w, sofar, q, timeout, faults, |sofar.calls|, c);
    }
  }

  lemma {:induction false} SameSize(cfg: Config, w: World, db: Db, q: Queue, timeout: int, faults: set<CallId>, n: nat)
    ensures |ReclaimCalls(cfg, w, db, q, timeout, faults, n).calls| == |db.calls|
  {
    hide Reclaim;
    if n > 0 {
      SameSize(cfg, w, db, q, timeout, faults, n - 1);
      ReclaimTouches(cfg, w, ReclaimCalls(cfg, w, db, q, timeout, faults, n - 1), q, timeout, n - 1, n - 1 in faults);
    }
  }

  lemma ReclaimAllExactly(cfg: Config, w: World, db: Db, timeout: int, faults: set<CallId>, c: CallId)
    requires Inv(cfg, db) && c < |db.calls| && db.calls[c].status.InFlight?
    ensures GivenUp(db, ReclaimAll(cfg, w, db, timeout, faults), c, Overdue(db.calls[c], w.now, timeout))
    ensures Inv(cfg, ReclaimAll(cfg, w, db, timeout, faults))
  {
    hide Inv, ReclaimCalls, Overdue;
    var a := ReclaimCalls(cfg, w, db, Outbound, timeout, faults, |db.calls|);
    var b := ReclaimCalls(cfg, w, a, SqlCalls, timeout, faults, |a.calls|);
    var d := ReclaimCalls(cfg, w, b, FunctionCalls, timeout, faults, |b.calls|);
    var over := Overdue(db.calls[c], w.now, timeout);
    var q := QueueOf(db.calls[c].kind);
    LoopExactly(cfg, w, db, db, Outbound, timeout, faults, c, false);
    LoopExactly(cfg, w, db, a, SqlCalls, timeout, faults, c, q.Outbound? && over);
    LoopExactly(cfg, w, db, b, FunctionCalls, timeout, faults, c, (q.Outbound? || q.SqlCalls?) && over);
    LoopExactly(cfg, w, db, d, ProcedureCalls, timeout, faults, c, !q.ProcedureCalls? && over);
  }

  // ---------------------------------------------------------------------------------------------
  // The rest of the sweep
  // ---------------------------------------------------------------------------------------------

  /** Expiring approvals concerns only tasks that wait for them. */
  lemma {:induction false} ApprovalsTouch(w: World, db: Db, n: nat)
    ensures var next := ExpireApprovals(w, db, n);
            && next.calls == db.calls && |next.tasks| == |db.tasks|
            && forall t :: 0 <= t < |db.tasks| && !db.tasks[t].status.WaitingHuman? ==> next.tasks[t] == db.tasks[t]
  {
    hide ExpireApproval;
    if n > 0 {
      ApprovalsTouch(w, db, n - 1);
      ApprovalTouches(w, ExpireApprovals(w, db, n - 1), n - 1);
    }
  }

  lemma ApprovalTouches(w: World, db: Db, a: ApprovalId)
    ensures var next := ExpireApproval(w, db, a);
            && next.calls == db.calls && |next.tasks| == |db.tasks|
            && forall t :: 0 <= t < |db.tasks| && !db.tasks[t].status.WaitingHuman? ==> next.tasks[t] == db.tasks[t]
  {
    hide HasLive, HasFailed, LatestRoot;
  }

  lemma TurnTouches(cfg: Config, w: World, db: Db, u: TaskId)
    ensures var next := ExpireTurn(cfg, w, db, u);
            && |next.calls| == |db.calls| && |next.tasks| == |db.tasks|
            && (forall t :: 0 <= t < |db.tasks| && t != u ==> next.tasks[t] == db.tasks[t])
            && (forall c :: 0 <= c < |db.calls| && db.calls[c].task != u ==> next.calls[c] == db.calls[c])
            && (u < |db.tasks| && TurnOver(cfg, w.now, db.tasks[u]) ==>
                  && next.tasks[u].status.Failed? && next.tasks[u].error == Some("turn_timeout")
                  && next.tasks[u].steps == db.tasks[u].steps + 1
                  && forall c :: 0 <= c < |db.calls| && db.calls[c].task == u && Pending(db.calls[c]) ==>
                       if LostWithItsTurn(db.calls[c].kind) then next.calls[c].status.Lost? else next.calls[c] == db.calls[c])
            && (!(u < |db.tasks| && TurnOver(cfg, w.now, db.tasks[u])) ==> next == db)
  {
    hide HasLive, HasFailed, LatestRoot;
  }

  /** The turn timeouts of the first `n` tasks. */
  lemma {:induction false} TurnsExactly(cfg: Config, w: World, db: Db, n: nat, c: CallId)
    requires c < |db.calls| && Pending(db.calls[c]) && db.calls[c].task < |db.tasks|
    ensures var t := db.calls[c].task;
            var next := ExpireTurns(cfg, w, db, n);
            && |next.calls| == |db.calls| && |next.tasks| == |db.tasks|
            && (if t < n && TurnOver(cfg, w.now, db.tasks[t])
                then next.tasks[t].status.Failed? && if LostWithItsTurn(db.calls[c].kind) then next.calls[c].status.Lost? else next.calls[c] == db.calls[c]
                else next.tasks[t] == db.tasks[t] && next.calls[c] == db.calls[c])
  {
    hide ExpireTurn;
    if n > 0 {
      var sofar := ExpireTurns(cfg, w, db, n - 1);
      TurnsExactly(cfg, w, db, n - 1, c);
      TurnTouches(cfg, w, sofar, n - 1);
      if sofar.calls[c].status.Lost? {
        ExpireTurnForward(cfg, w, sofar, n - 1);
        LostStays(sofar, ExpireTurns(cfg, w, db, n), c);
      }
    }
  }

  lemma {:induction false} WakingKeepsCalls(w: World, db: Db, n: nat)
    ensures WakeTasks(w, db, n).calls == db.calls
  {
    hide HasLiveChild, ChildResults;
    if n > 0 {
      WakingKeepsCalls(w, db, n - 1);
    }
  }

  // ---------------------------------------------------------------------------------------------
  // The whole sweep
  // ---------------------------------------------------------------------------------------------

  /** The task of a call in flight is running, or finished. */
  lemma InFlightTask(cfg: Config, db: Db, c: CallId)
    requires Inv(cfg, db) && c < |db.calls| && db.calls[c].status.InFlight?
    ensures db.calls[c].task < |db.tasks|
    ensures var s := db.tasks[db.calls[c].task].status; s.Running? || Terminal(s)
  {
    assert PendingOk(cfg, db.tasks[db.calls[c].task], db.calls[c]);
  }

  /** Exactly the calls that are overdue are given up, and with them the model, HTTP, MCP, search and SQL
      calls of a task whose turn is over. Any other call in flight is left as it is. */
  lemma SweepReclaimsExactly(cfg: Config, w: World, db: Db, timeout: int, faults: set<CallId>, c: CallId)
    requires Inv(cfg, db) && c < |db.calls| && db.calls[c].status.InFlight?
    ensures db.calls[c].task < |db.tasks|
    ensures var next := Apply(cfg, db, Tx(w, Swept(timeout, faults)));
            && c < |next.calls|
            && (if Overdue(db.calls[c], w.now, timeout)
                   || (TurnOver(cfg, w.now, db.tasks[db.calls[c].task]) && LostWithItsTurn(db.calls[c].kind))
                then next.calls[c].status.Lost?
                else next.calls[c] == db.calls[c])
  {
    hide Inv, ReclaimAll, ExpireApprovals, ExpireTurns, WakeTasks, Overdue, TurnOver, LostWithItsTurn;
    var reclaimed := ReclaimAll(cfg, w, db, timeout, faults);
    var decided := ExpireApprovals(w, reclaimed, |reclaimed.approvals|);
    var expired := ExpireTurns(cfg, w, decided, |decided.tasks|);
    InFlightTask(cfg, db, c);
    ReclaimAllExactly(cfg, w, db, timeout, faults, c);
    ApprovalsTouch(w, reclaimed, |reclaimed.approvals|);
    ExpireTurnsForward(cfg, w, decided, |decided.tasks|);
    WakingKeepsCalls(w, expired, |expired.tasks|);
    if Overdue(db.calls[c], w.now, timeout) {
      LostStays(decided, expired, c);
    } else {
      TurnsExactly(cfg, w, decided, |decided.tasks|, c);
    }
  }

  // ---------------------------------------------------------------------------------------------
  // What the task is told
  // ---------------------------------------------------------------------------------------------

  /** The error a task is told when a call of its is given up. */
  function GivenUpMessage(kind: CallKind): string {
    match kind
    case ToolCall(Sql) => "sql execution timeout"
    case ToolCall(PlFunction) => "function execution timeout"
    case ToolCall(Procedure) => "procedure execution timeout"
    case _ => "outbound timeout"
  }

  /** A request that may have changed something outside. */
  predicate Mutating(kind: CallKind) {
    kind == ToolCall(Mcp) || kind == ToolCall(HttpFunction(true))
  }

  /** What the running task of a call that is given up becomes: it waits for a human if the request may have
      changed something outside; otherwise the loss counts as an error. */
  predicate Told(cfg: Config, w: World, row: Task, next: Task, kind: CallKind, fault: bool, errors: nat)
    requires row.agent in cfg
  {
    if Mutating(kind) then next == row.(status := WaitingHuman, updatedAt := w.now)
    else if fault then next == row
    else if row.agent !in w.active then next == row.(status := Failed, error := Some("agent_inactive"), updatedAt := w.now)
    else if errors + 1 > cfg[row.agent].maxRetries
    then next == row.(status := Failed, error := Some(GivenUpMessage(kind)), steps := row.steps + 1, updatedAt := w.now)
    else next == row.(steps := row.steps + 1, updatedAt := w.now)
  }

  /** Giving up a call writes only to the log of its task. */
  lemma ReclaimLogs(cfg: Config, w: World, db: Db, q: Queue, timeout: int, d: CallId, fault: bool)
    ensures var next := Reclaim(cfg, w, db, q, timeout, d, fault);
            && db.logs <= next.logs
            && (d < |db.calls| ==> forall l :: |db.logs| <= l < |next.logs| ==> next.logs[l].task == db.calls[d].task)
            && (d >= |db.calls| || !db.calls[d].status.InFlight? ==> next == db)
  {
    hide HasLive, HasFailed, LatestRoot, Count, TimeoutMessage;
  }

  lemma ReclaimTells(cfg: Config, w: World, db: Db, timeout: int, c: CallId, fault: bool)
    requires c < |db.calls| && db.calls[c].status.InFlight? && Overdue(db.calls[c], w.now, timeout)
    requires IsRunning(db, db.calls[c].task) && db.tasks[db.calls[c].task].agent in cfg
    ensures var t := db.calls[c].task;
            var next := Reclaim(cfg, w, db, QueueOf(db.calls[c].kind), timeout, c, fault);
            && t < |next.tasks| && Told(cfg, w, db.tasks[t], next.tasks[t], db.calls[c].kind, fault, |Errors(db.logs, t)|)
            && c < |next.calls| && next.calls[c].status.Lost?
            && (Mutating(db.calls[c].kind) ==>
                  next.calls[c].submits == db.calls[c].submits
                  && next.approvals == db.approvals + [Approval(t, None, Undecided, w.now + 24 * 60 * 60)])
  {
    hide SubmitResult, Errors, TimeoutMessage;
    var t := db.calls[c].task;
    var call := db.calls[c];
    SameMessage(call.kind);
    if !Mutating(call.kind) {
      var lost := SetCall(db, c, call.(status := Lost, updatedAt := w.now));
      var noted := SetCall(lost, c, lost.calls[c].(submits := lost.calls[c].submits + 1));
      ErrorRow(cfg, w, noted, t, GivenUpMessage(call.kind));
      SubmitConcerns(cfg, w, noted, t, Failure(GivenUpMessage(call.kind)));
    }
  }

  lemma SameMessage(kind: CallKind)
    ensures TimeoutMessage(kind) == GivenUpMessage(kind)
    ensures Ambiguous(kind) <==> Mutating(kind)
  {
  }

  /** What an error makes of the row of a running task. */
  lemma ErrorRow(cfg: Config, w: World, db: Db, t: TaskId, message: string)
    requires IsRunning(db, t) && db.tasks[t].agent in cfg
    ensures var next := SubmitResult(cfg, w, db, t, Failure(message));
            && next.Some? && t < |next.value.tasks|
            && next.value.tasks[t] ==
               if db.tasks[t].agent !in w.active then db.tasks[t].(status := Failed, error := Some("agent_inactive"), updatedAt := w.now)
               else if |Errors(db.logs, t)| + 1 > cfg[db.tasks[t].agent].maxRetries
               then db.tasks[t].(status := Failed, error := Some(message), steps := db.tasks[t].steps + 1, updatedAt := w.now)
               else db.tasks[t].(steps := db.tasks[t].steps + 1, updatedAt := w.now)
  {
    hide HasLive, HasFailed, LatestRoot, Count, Errors;
    CountIsSize(db.logs + [Log(t, db.tasks[t].steps + 1, ErrorRole, Text)], t);
    OneMoreError(db.logs, t, db.tasks[t].steps + 1);
  }

  /** Where the loops have left the task of call `c`: as it was, or told. */
  ghost predicate Reached(cfg: Config, w: World, db: Db, next: Db, c: CallId, fault: bool, told: bool)
    requires c < |db.calls| && db.calls[c].task < |db.tasks| && db.tasks[db.calls[c].task].agent in cfg
  {
    var t := db.calls[c].task;
    && |next.calls| == |db.calls| && |next.tasks| == |db.tasks| && RowsForward(db, next, -1)
    && (told ==>
          && Told(cfg, w, db.tasks[t], next.tasks[t], db.calls[c].kind, fault, |Errors(db.logs, t)|)
          && next.calls[c].status.Lost?
          && (Mutating(db.calls[c].kind) ==> next.calls[c].submits == db.calls[c].submits && Fresh(next.approvals, t, w.now)))
    && (!told ==> next.calls[c] == db.calls[c] && next.tasks[t] == db.tasks[t] && Errors(next.logs, t) == Errors(db.logs, t))
  }

  /** A decision is asked for that cannot have expired yet. */
  ghost predicate Fresh(approvals: seq<Approval>, t: TaskId, now: int) {
    exists a :: 0 <= a < |approvals| && approvals[a] == Approval(t, None, Undecided, now + 24 * 60 * 60)
  }

  /** No other call of the task is in flight. */
  lemma NoOtherInFlight(cfg: Config, db: Db, sofar: Db, c: CallId, d: CallId)
    requires Inv(cfg, db) && c < |db.calls| && db.calls[c].status.InFlight? && RowsForward(db, sofar, -1)
    requires d < |sofar.calls| == |db.calls| && d != c && sofar.calls[d].status.InFlight?
    ensures sofar.calls[d].task != db.calls[c].task
  {
    assert CallForward(db.calls[d], sofar.calls[d], true);
  }

  lemma ReclaimReached(cfg: Config, w: World, db: Db, sofar: Db, q: Queue, timeout: int, d: CallId, fault: bool, c: CallId, told: bool, mine: bool)
    requires Inv(cfg, db) && c < |db.calls| && db.calls[c].status.InFlight? && IsRunning(db, db.calls[c].task)
    requires db.tasks[db.calls[c].task].agent in cfg && Overdue(db.calls[c], w.now, timeout)
    requires Reached(cfg, w, db, sofar, c, mine, told) && (d == c ==> fault == mine)
    ensures Reached(cfg, w, db, Reclaim(cfg, w, sofar, q, timeout, d, fault), c, mine, told || (d == c && QueueOf(db.calls[c].kind) == q))
  {
    hide Inv, Told, Overdue, RowsForward, Errors;
    var t := db.calls[c].task;
    var next := Reclaim(cfg, w, sofar, q, timeout, d, fault);
    ReclaimTouches(cfg, w, sofar, q, timeout, d, fault);
    ReclaimLogs(cfg, w, sofar, q, timeout, d, fault);
    ReclaimForward(cfg, w, sofar, q, timeout, d, fault);
    RowsTransitive(db, sofar, next, -1);
    ApprovalsGrow(cfg, w, sofar, q, timeout, d, fault);
    if d == c && !told {
      if QueueOf(db.calls[c].kind) == q {
        ReclaimTells(cfg, w, sofar, timeout, c, fault);
        if Mutating(db.calls[c].kind) {
          assert next.approvals[|sofar.approvals|] == Approval(t, None, Undecided, w.now + 24 * 60 * 60);
        }
      } else {
        ReclaimElsewhere(cfg, w, sofar, q, timeout, c, fault);
      }
    } else if d != c && d < |sofar.calls| && sofar.calls[d].status.InFlight? {
      NoOtherInFlight(cfg, db, sofar, c, d);
      ErrorsFrame(sofar.logs, next.logs, t);
    }
    if told && Mutating(db.calls[c].kind) {
      FreshStays(sofar.approvals, next.approvals, t, w.now);
    }
  }

  lemma ReclaimElsewhere(cfg: Config, w: World, db: Db, q: Queue, timeout: int, c: CallId, fault: bool)
    requires c < |db.calls| && QueueOf(db.calls[c].kind) != q
    ensures Reclaim(cfg, w, db, q, timeout, c, fault) == db
  {
  }

  lemma ApprovalsGrow(cfg: Config, w: World, db: Db, q: Queue, timeout: int, d: CallId, fault: bool)
    ensures db.approvals <= Reclaim(cfg, w, db, q, timeout, d, fault).approvals
  {
    hide HasLive, HasFailed, LatestRoot, Count, TimeoutMessage;
  }

  lemma FreshStays(approvals: seq<Approval>, later: seq<Approval>, t: TaskId, now: int)
    requires approvals <= later && Fresh(approvals, t, now)
    ensures Fresh(later, t, now)
  {
    var a :| 0 <= a < |approvals| && approvals[a] == Approval(t, None, Undecided, now + 24 * 60 * 60);
    assert later[a] == approvals[a];
  }

  lemma {:induction false} LoopReached(cfg: Config, w: World, db: Db, start: Db, q: Queue, timeout: int, faults: set<CallId>, n: nat, c: CallId, told: bool)
    requires Inv(cfg, db) && c < |db.calls| && db.calls[c].status.InFlight? && IsRunning(db, db.calls[c].task)
    requires db.tasks[db.calls[c].task].agent in cfg && Overdue(db.calls[c], w.now, timeout)
    requires Reached(cfg, w, db, start, c, c in faults, told)
    ensures Reached(cfg, w, db, ReclaimCalls(cfg, w, start, q, timeout, faults, n), c, c in faults,
                    told || (c < n && QueueOf(db.calls[c].kind) == q))
    decreases n
  {
    hide Inv, Reclaim, Reached, Overdue;
    if n > 0 {
      LoopReached(cfg, w, db, start, q, timeout, faults, n - 1, c, told);
      var sofar := ReclaimCalls(cfg, w, start, q, timeout, faults, n - 1);
      ReclaimReached(cfg, w, db, sofar, q, timeout, n - 1, n - 1 in faults, c,
                     told || (c < n - 1 && QueueOf(db.calls[c].kind) == q), c in faults);
    }
  }

  lemma ReachedStart(cfg: Config, w: World, db: Db, c: CallId, fault: bool)
    requires c < |db.calls| && db.calls[c].task < |db.tasks| && db.tasks[db.calls[c].task].agent in cfg
    ensures Reached(cfg, w, db, db, c, fault, false)
  {
    SameIsForward(db);
  }

  lemma AllReached(cfg: Config, w: World, db: Db, timeout: int, faults: set<CallId>, c: CallId)
    requires Inv(cfg, db) && c < |db.calls| && db.calls[c].status.InFlight? && IsRunning(db, db.calls[c].task)
    requires db.tasks[db.calls[c].task].agent in cfg && Overdue(db.calls[c], w.now, timeout)
    ensures Reached(cfg, w, db, ReclaimAll(cfg, w, db, timeout, faults), c, c in faults, true)
  {
    hide Inv, ReclaimCalls, Reached, Overdue;
    var a := ReclaimCalls(cfg, w, db, Outbound, timeout, faults, |db.calls|);
    var b := ReclaimCalls(cfg, w, a, SqlCalls, timeout, faults, |a.calls|);
    var d := ReclaimCalls(cfg, w, b, FunctionCalls, timeout, faults, |b.calls|);
    var q := QueueOf(db.calls[c].kind);
    SameSize(cfg, w, db, Outbound, timeout, faults, |db.calls|);
    SameSize(cfg, w, a, SqlCalls, timeout, faults, |a.calls|);
    SameSize(cfg, w, b, FunctionCalls, timeout, faults, |b.calls|);
    ReachedStart(cfg, w, db, c, c in faults);
    LoopReached(cfg, w, db, db, Outbound, timeout, faults, |db.calls|, c, false);
    LoopReached(cfg, w, db, a, SqlCalls, timeout, faults, |a.calls|, c, q.Outbound?);
    LoopReached(cfg, w, db, b, FunctionCalls, timeout, faults, |b.calls|, c, q.Outbound? || q.SqlCalls?);
    LoopReached(cfg, w, db, d, ProcedureCalls, timeout, faults, |d.calls|, c, !q.ProcedureCalls?);
  }

  /** A task whose open decisions are not due is left alone when approvals expire. */
  lemma {:induction false} ApprovalsLeave(w: World, db: Db, n: nat, t: TaskId)
    requires t < |db.tasks| && forall a :: 0 <= a < |db.approvals| && db.approvals[a].task == t && db.approvals[a].status.Undecided? ==> db.approvals[a].expiresAt >= w.now
    ensures var next := ExpireApprovals(w, db, n);
            |next.tasks| == |db.tasks| && next.tasks[t] == db.tasks[t] && RowsForward(db, next, -1)
  {
    hide ExpireApproval;
    if n == 0 {
      SameIsForward(db);
    } else {
      var sofar := ExpireApprovals(w, db, n - 1);
      ApprovalsLeave(w, db, n - 1, t);
      ExpireApprovalForward(w, sofar, n - 1);
      RowsTransitive(db, sofar, ExpireApprovals(w, db, n), -1);
      if n - 1 < |sofar.approvals| && sofar.approvals[n - 1].task == t && sofar.approvals[n - 1].status.Undecided? {
        ApprovalWasThere(w, db, n - 1);
        assert ApprovalForward(db.approvals[n - 1], sofar.approvals[n - 1]);
      }
      ApprovalOfOther(w, sofar, n - 1, t);
    }
  }

  lemma {:induction false} ApprovalWasThere(w: World, db: Db, n: nat)
    ensures |ExpireApprovals(w, db, n).approvals| == |db.approvals|
  {
    hide HasLive, HasFailed, LatestRoot;
    if n > 0 {
      ApprovalWasThere(w, db, n - 1);
    }
  }

  lemma ApprovalOfOther(w: World, db: Db, a: ApprovalId, t: TaskId)
    requires t < |db.tasks|
    requires a < |db.approvals| && db.approvals[a].task == t && db.approvals[a].status.Undecided? ==> db.approvals[a].expiresAt >= w.now
    ensures var next := ExpireApproval(w, db, a); |next.tasks| == |db.tasks| && next.tasks[t] == db.tasks[t]
  {
    hide HasLive, HasFailed, LatestRoot;
  }

  /** The turn timeouts again, for a task. */
  lemma {:induction false} TurnsOfTask(cfg: Config, w: World, db: Db, n: nat, t: TaskId)
    requires t < |db.tasks|
    ensures var next := ExpireTurns(cfg, w, db, n);
            && |next.tasks| == |db.tasks|
            && (if t < n && TurnOver(cfg, w.now, db.tasks[t])
                then next.tasks[t].status.Failed? && next.tasks[t].error == Some("turn_timeout") && next.tasks[t].steps == db.tasks[t].steps + 1
                else next.tasks[t] == db.tasks[t])
  {
    hide ExpireTurn;
    if n > 0 {
      TurnsOfTask(cfg, w, db, n - 1, t);
      TurnTouches(cfg, w, ExpireTurns(cfg, w, db, n - 1), n - 1);
    }
  }

  lemma {:induction false} WakingLeaves(w: World, db: Db, n: nat, t: TaskId)
    requires t < |db.tasks| && !db.tasks[t].status.WaitingChildren?
    ensures |WakeTasks(w, db, n).tasks| == |db.tasks| && WakeTasks(w, db, n).tasks[t] == db.tasks[t]
  {
    hide HasLiveChild, ChildResults;
    if n > 0 {
      WakingLeaves(w, db, n - 1, t);
    }
  }

  /** After the loops the task waits for no decision that could expire. */
  lemma NothingDue(cfg: Config, w: World, db: Db, reclaimed: Db, c: CallId, fault: bool)
    requires Inv(cfg, reclaimed) && c < |db.calls| && IsRunning(db, db.calls[c].task) && db.tasks[db.calls[c].task].agent in cfg
    requires Reached(cfg, w, db, reclaimed, c, fault, true) && !Terminal(reclaimed.tasks[db.calls[c].task].status)
    ensures forall a :: 0 <= a < |reclaimed.approvals| && reclaimed.approvals[a].task == db.calls[c].task && reclaimed.approvals[a].status.Undecided? ==>
              reclaimed.approvals[a].expiresAt >= w.now
  {
    hide ForestOk, RowsOk, CallsOk, OnePending, WaitersAsked, BudgetsOk, SpendOk, SessionsOk, SlotsOk, Errors, RowsForward;
    var t := db.calls[c].task;
    forall a | 0 <= a < |reclaimed.approvals| && reclaimed.approvals[a].task == t && reclaimed.approvals[a].status.Undecided?
      ensures reclaimed.approvals[a].expiresAt >= w.now
    {
      assert ApprovalOk(reclaimed.tasks, reclaimed.calls, reclaimed.approvals[a]);
      var b :| 0 <= b < |reclaimed.approvals| && reclaimed.approvals[b] == Approval(t, None, Undecided, w.now + 24 * 60 * 60);
      if a != b {
        assert if a < b then Distinct(reclaimed.tasks, reclaimed.approvals[a], reclaimed.approvals[b])
                        else Distinct(reclaimed.tasks, reclaimed.approvals[b], reclaimed.approvals[a]);
      }
    }
  }

  /** The running task of an overdue call after the sweep: told, and failed if its turn is over. */
  lemma SweepTells(cfg: Config, w: World, db: Db, timeout: int, faults: set<CallId>, c: CallId)
    requires Inv(cfg, db) && c < |db.calls| && db.calls[c].status.InFlight? && Overdue(db.calls[c], w.now, timeout)
    requires IsRunning(db, db.calls[c].task)
    ensures var t := db.calls[c].task;
            var next := Apply(cfg, db, Tx(w, Swept(timeout, faults)));
            && t < |next.tasks| && db.tasks[t].agent in cfg
            && (if TurnOver(cfg, w.now, db.tasks[t]) then next.tasks[t].status.Failed?
                else Told(cfg, w, db.tasks[t], next.tasks[t], db.calls[c].kind, c in faults, |Errors(db.logs, t)|))
  {
    hide Inv, ReclaimAll, ExpireApprovals, ExpireTurns, WakeTasks, Overdue, Reached, RowsForward, Errors;
    var t := db.calls[c].task;
    var reclaimed := ReclaimAll(cfg, w, db, timeout, faults);
    var decided := ExpireApprovals(w, reclaimed, |reclaimed.approvals|);
    var expired := ExpireTurns(cfg, w, decided, |decided.tasks|);
    TaskKnown(cfg, db, t);
    ReclaimAllExactly(cfg, w, db, timeout, faults, c);
    AllReached(cfg, w, db, timeout, faults, c);
    ToldRow(cfg, w, db, reclaimed, c, c in faults);
    if !Terminal(reclaimed.tasks[t].status) {
      NothingDue(cfg, w, db, reclaimed, c, c in faults);
      ApprovalsLeave(w, reclaimed, |reclaimed.approvals|, t);
    } else {
      ApprovalsTouch(w, reclaimed, |reclaimed.approvals|);
    }
    TurnsOfTask(cfg, w, decided, |decided.tasks|, t);
    WakingLeaves(w, expired, |expired.tasks|, t);
  }

  lemma TaskKnown(cfg: Config, db: Db, t: TaskId)
    requires Inv(cfg, db) && t < |db.tasks|
    ensures db.tasks[t].agent in cfg
  {
    assert RowOk(cfg, db.tasks[t]);
  }

  lemma ToldRow(cfg: Config, w: World, db: Db, next: Db, c: CallId, fault: bool)
    requires c < |db.calls| && IsRunning(db, db.calls[c].task) && db.tasks[db.calls[c].task].agent in cfg
    requires Reached(cfg, w, db, next, c, fault, true)
    ensures var t := db.calls[c].task;
            && |next.tasks| == |db.tasks| && Told(cfg, w, db.tasks[t], next.tasks[t], db.calls[c].kind, fault, |Errors(db.logs, t)|)
            && next.tasks[t].startedAt == db.tasks[t].startedAt && next.tasks[t].agent == db.tasks[t].agent
            && (next.tasks[t].status.Running? || next.tasks[t].status.WaitingHuman? || next.tasks[t].status.Failed?)
  {
    hide Errors, RowsForward;
  }

  // ---------------------------------------------------------------------------------------------
  // Approvals, and the tasks nothing was reclaimed from
  // ---------------------------------------------------------------------------------------------

  predicate Due(a: Approval, now: int) {
    a.status.Undecided? && a.expiresAt < now
  }

  lemma {:induction false} LoopKeepsApprovals(cfg: Config, w: World, db: Db, q: Queue, timeout: int, faults: set<CallId>, n: nat)
    ensures db.approvals <= ReclaimCalls(cfg, w, db, q, timeout, faults, n).approvals
  {
    hide Reclaim;
    if n > 0 {
      LoopKeepsApprovals(cfg, w, db, q, timeout, faults, n - 1);
      ApprovalsGrow(cfg, w, ReclaimCalls(cfg, w, db, q, timeout, faults, n - 1), q, timeout, n - 1, n - 1 in faults);
    }
  }

  lemma AllKeepApprovals(cfg: Config, w: World, db: Db, timeout: int, faults: set<CallId>)
    ensures db.approvals <= ReclaimAll(cfg, w, db, timeout, faults).approvals
  {
    hide ReclaimCalls;
    var a := ReclaimCalls(cfg, w, db, Outbound, timeout, faults, |db.calls|);
    var b := ReclaimCalls(cfg, w, a, SqlCalls, timeout, faults, |a.calls|);
    var d := ReclaimCalls(cfg, w, b, FunctionCalls, timeout, faults, |b.calls|);
    LoopKeepsApprovals(cfg, w, db, Outbound, timeout, faults, |db.calls|);
    LoopKeepsApprovals(cfg, w, a, SqlCalls, timeout, faults, |a.calls|);
    LoopKeepsApprovals(cfg, w, b, FunctionCalls, timeout, faults, |b.calls|);
    LoopKeepsApprovals(cfg, w, d, ProcedureCalls, timeout, faults, |d.calls|);
  }

  lemma {:induction false} ApprovalsExactly(w: World, db: Db, n: nat)
    requires n <= |db.approvals|
    ensures var next := ExpireApprovals(w, db, n);
            && |next.approvals| == |db.approvals|
            && forall a :: 0 <= a < |db.approvals| ==>
                 next.approvals[a] == if a < n && Due(db.approvals[a], w.now) then db.approvals[a].(status := Rejected) else db.approvals[a]
  {
    hide HasLive, HasFailed, LatestRoot;
    if n > 0 {
      ApprovalsExactly(w, db, n - 1);
    }
  }

  lemma {:induction false} TurnsKeepApprovals(cfg: Config, w: World, db: Db, n: nat)
    ensures ExpireTurns(cfg, w, db, n).approvals == db.approvals
  {
    hide HasLive, HasFailed, LatestRoot, LoseCalls;
    if n > 0 {
      TurnsKeepApprovals(cfg, w, db, n - 1);
    }
  }

  lemma {:induction false} WakingKeepsApprovals(w: World, db: Db, n: nat)
    ensures WakeTasks(w, db, n).approvals == db.approvals
  {
    hide HasLiveChild, ChildResults;
    if n > 0 {
      WakingKeepsApprovals(w, db, n - 1);
    }
  }

  /** A sweep rejects exactly the undecided approvals whose time is over. */
  lemma SweepExpiresExactly(cfg: Config, w: World, db: Db, timeout: int, faults: set<CallId>, a: ApprovalId)
    requires a < |db.approvals|
    ensures var next := Apply(cfg, db, Tx(w, Swept(timeout, faults)));
            && a < |next.approvals|
            && next.approvals[a] == if Due(db.approvals[a], w.now) then db.approvals[a].(status := Rejected) else db.approvals[a]
  {
    hide ReclaimAll, ExpireApprovals, ExpireTurns, WakeTasks;
    var reclaimed := ReclaimAll(cfg, w, db, timeout, faults);
    var decided := ExpireApprovals(w, reclaimed, |reclaimed.approvals|);
    var expired := ExpireTurns(cfg, w, decided, |decided.tasks|);
    AllKeepApprovals(cfg, w, db, timeout, faults);
    ApprovalsExactly(w, reclaimed, |reclaimed.approvals|);
    TurnsKeepApprovals(cfg, w, decided, |decided.tasks|);
    WakingKeepsApprovals(w, expired, |expired.tasks|);
  }

  /** No call of the task is in flight and overdue. */
  ghost predicate NothingOverdue(db: Db, t: TaskId, now: int, timeout: int) {
    forall c :: 0 <= c < |db.calls| && db.calls[c].task == t && db.calls[c].status.InFlight? ==> !Overdue(db.calls[c], now, timeout)
  }

  /** The loops leave such a task, its approvals and the age of its calls alone. */
  ghost predicate Spared(db: Db, next: Db, t: TaskId, now: int, timeout: int)
    requires t < |db.tasks|
  {
    && |next.tasks| == |db.tasks| && next.tasks[t] == db.tasks[t]
    && db.approvals <= next.approvals
    && (forall a :: |db.approvals| <= a < |next.approvals| ==> next.approvals[a].task != t)
    && NothingOverdue(next, t, now, timeout)
    && |next.calls| == |db.calls| && forall c :: 0 <= c < |db.calls| ==> next.calls[c].task == db.calls[c].task
  }

  lemma ReclaimSpares(cfg: Config, w: World, db: Db, q: Queue, timeout: int, d: CallId, fault: bool, t: TaskId)
    requires t < |db.tasks| && NothingOverdue(db, t, w.now, timeout)
    ensures Spared(db, Reclaim(cfg, w, db, q, timeout, d, fault), t, w.now, timeout)
  {
    hide Overdue;
    ReclaimTouches(cfg, w, db, q, timeout, d, fault);
    ReclaimApprovals(cfg, w, db, q, timeout, d, fault);
    ReclaimForward(cfg, w, db, q, timeout, d, fault);
    if d < |db.calls| && db.calls[d].status.InFlight? {
      ReclaimSelf(cfg, w, db, q, timeout, d, fault);
    } else {
      ReclaimLogs(cfg, w, db, q, timeout, d, fault);
    }
    var next := Reclaim(cfg, w, db, q, timeout, d, fault);
    hide Reclaim;
    forall c | 0 <= c < |db.calls| ensures next.calls[c].task == db.calls[c].task {
      assert CallForward(db.calls[c], next.calls[c], true);
    }
  }

  lemma ReclaimApprovals(cfg: Config, w: World, db: Db, q: Queue, timeout: int, d: CallId, fault: bool)
    ensures var next := Reclaim(cfg, w, db, q, timeout, d, fault);
            && db.approvals <= next.approvals
            && (d < |db.calls| ==> forall a :: |db.approvals| <= a < |next.approvals| ==> next.approvals[a].task == db.calls[d].task)
  {
    hide HasLive, HasFailed, LatestRoot, Count, TimeoutMessage;
  }

  lemma SparedTransitive(a: Db, b: Db, d: Db, t: TaskId, now: int, timeout: int)
    requires t < |a.tasks| && Spared(a, b, t, now, timeout) && Spared(b, d, t, now, timeout)
    ensures Spared(a, d, t, now, timeout)
  {
    hide NothingOverdue;
  }

  lemma {:induction false} LoopSpares(cfg: Config, w: World, db: Db, q: Queue, timeout: int, faults: set<CallId>, n: nat, t: TaskId)
    requires t < |db.tasks| && NothingOverdue(db, t, w.now, timeout)
    ensures Spared(db, ReclaimCalls(cfg, w, db, q, timeout, faults, n), t, w.now, timeout)
  {
    hide Reclaim, NothingOverdue;
    if n > 0 {
      LoopSpares(cfg, w, db, q, timeout, faults, n - 1, t);
      var sofar := ReclaimCalls(cfg, w, db, q, timeout, faults, n - 1);
      ReclaimSpares(cfg, w, sofar, q, timeout, n - 1, n - 1 in faults, t);
      SparedTransitive(db, sofar, ReclaimCalls(cfg, w, db, q, timeout, faults, n), t, w.now, timeout);
    }
  }

  lemma AllSpare(cfg: Config, w: World, db: Db, timeout: int, faults: set<CallId>, t: TaskId)
    requires t < |db.tasks| && NothingOverdue(db, t, w.now, timeout)
    ensures Spared(db, ReclaimAll(cfg, w, db, timeout, faults), t, w.now, timeout)
  {
    hide ReclaimCalls, NothingOverdue;
    var a := ReclaimCalls(cfg, w, db, Outbound, timeout, faults, |db.calls|);
    var b := ReclaimCalls(cfg, w, a, SqlCalls, timeout, faults, |a.calls|);
    var d := ReclaimCalls(cfg, w, b, FunctionCalls, timeout, faults, |b.calls|);
    LoopSpares(cfg, w, db, Outbound, timeout, faults, |db.calls|, t);
    LoopSpares(cfg, w, a, SqlCalls, timeout, faults, |a.calls|, t);
    LoopSpares(cfg, w, b, FunctionCalls, timeout, faults, |b.calls|, t);
    LoopSpares(cfg, w, d, ProcedureCalls, timeout, faults, |d.calls|, t);
    SparedTransitive(db, a, b, t, w.now, timeout);
    SparedTransitive(db, b, d, t, w.now, timeout);
    SparedTransitive(db, d, ReclaimAll(cfg, w, db, timeout, faults), t, w.now, timeout);
  }

  /** The decision the task waits for can no longer come. */
  ghost predicate DecisionOverdue(db: Db, t: TaskId, now: int)
    requires t < |db.tasks|
  {
    db.tasks[t].status.WaitingHuman? && exists a :: 0 <= a < |db.approvals| && db.approvals[a].task == t && Due(db.approvals[a], now)
  }

  lemma {:induction false} ApprovalsFail(w: World, db: Db, n: nat, t: TaskId)
    requires n <= |db.approvals| && t < |db.tasks|
    ensures var next := ExpireApprovals(w, db, n);
            var hit := db.tasks[t].status.WaitingHuman? && exists a :: 0 <= a < n && db.approvals[a].task == t && Due(db.approvals[a], w.now);
            && |next.tasks| == |db.tasks|
            && next.tasks[t] == if hit then db.tasks[t].(status := Failed, error := Some("approval_timeout"), steps := db.tasks[t].steps + 1, updatedAt := w.now)
                                else db.tasks[t]
  {
    hide ExpireApproval;
    if n > 0 {
      ApprovalsFail(w, db, n - 1, t);
      ApprovalsExactly(w, db, n - 1);
      var sofar := ExpireApprovals(w, db, n - 1);
      ApprovalFails(w, sofar, n - 1, t);
      assert sofar.approvals[n - 1] == db.approvals[n - 1];
      assert ExpireApprovals(w, db, n) == ExpireApproval(w, sofar, n - 1);
    }
  }

  lemma ApprovalFails(w: World, db: Db, a: ApprovalId, t: TaskId)
    requires a < |db.approvals| && t < |db.tasks|
    ensures var next := ExpireApproval(w, db, a);
            && |next.tasks| == |db.tasks|
            && next.tasks[t] == if db.tasks[t].status.WaitingHuman? && db.approvals[a].task == t && Due(db.approvals[a], w.now)
                                then db.tasks[t].(status := Failed, error := Some("approval_timeout"), steps := db.tasks[t].steps + 1, updatedAt := w.now)
                                else db.tasks[t]
  {
    hide HasLive, HasFailed, LatestRoot;
  }

  lemma {:induction false} TurnsFail(cfg: Config, w: World, db: Db, n: nat, t: TaskId)
    requires t < |db.tasks|
    ensures var next := ExpireTurns(cfg, w, db, n);
            && |next.tasks| == |db.tasks|
            && next.tasks[t] == if t < n && TurnOver(cfg, w.now, db.tasks[t])
                                then db.tasks[t].(status := Failed, error := Some("turn_timeout"), steps := db.tasks[t].steps + 1, updatedAt := w.now)
                                else db.tasks[t]
  {
    hide ExpireTurn;
    if n > 0 {
      TurnsFail(cfg, w, db, n - 1, t);
      TurnFails(cfg, w, ExpireTurns(cfg, w, db, n - 1), n - 1, t);
    }
  }

  lemma TurnFails(cfg: Config, w: World, db: Db, u: TaskId, t: TaskId)
    requires t < |db.tasks|
    ensures var next := ExpireTurn(cfg, w, db, u);
            && |next.tasks| == |db.tasks|
            && next.tasks[t] == if t == u && TurnOver(cfg, w.now, db.tasks[t])
                                then db.tasks[t].(status := Failed, error := Some("turn_timeout"), steps := db.tasks[t].steps + 1, updatedAt := w.now)
                                else db.tasks[t]
  {
    hide HasLive, HasFailed, LatestRoot, LoseCalls;
  }

  lemma {:induction false} WakesExactly(w: World, db: Db, n: nat, t: TaskId)
    requires n <= |db.tasks| && t < |db.tasks|
    ensures var next := WakeTasks(w, db, n);
            && |next.tasks| == |db.tasks|
            && next.tasks[t] == if t < n && db.tasks[t].status.WaitingChildren? && !HasLiveChild(db.tasks, t)
                                then db.tasks[t].(status := Queued, steps := db.tasks[t].steps + 1, updatedAt := w.now)
                                else db.tasks[t]
  {
    hide ChildResults, HasLiveChild;
    if n > 0 {
      WakesExactly(w, db, n - 1, t);
      WakePass(w, db, n - 1);
      SameLiveChildren(db.tasks, WakeTasks(w, db, n - 1).tasks, n - 1);
      SameLiveChildren(WakeTasks(w, db, n - 1).tasks, db.tasks, n - 1);
    }
  }

  /** What a sweep makes of a task none of whose calls it gives up: it fails if its decision can no longer
      come, or else if its turn is over; it goes back to the queue if it waited for children that are all
      done; and in every other case it is left as it is. */
  lemma SweepOtherTasks(cfg: Config, w: World, db: Db, timeout: int, faults: set<CallId>, t: TaskId)
    requires Inv(cfg, db) && t < |db.tasks| && NothingOverdue(db, t, w.now, timeout)
    ensures var row := db.tasks[t];
            var next := Apply(cfg, db, Tx(w, Swept(timeout, faults)));
            && t < |next.tasks|
            && next.tasks[t] ==
               if DecisionOverdue(db, t, w.now)
               then row.(status := Failed, error := Some("approval_timeout"), steps := row.steps + 1, updatedAt := w.now)
               else if TurnOver(cfg, w.now, row)
               then row.(status := Failed, error := Some("turn_timeout"), steps := row.steps + 1, updatedAt := w.now)
               else if row.status.WaitingChildren? && !HasLiveChild(next.tasks, t)
               then row.(status := Queued, steps := row.steps + 1, updatedAt := w.now)
               else row
  {
    hide Inv, ReclaimAll, ExpireApprovals, ExpireTurns, WakeTasks, TurnOver, HasLiveChild, NothingOverdue;
    var reclaimed := ReclaimAll(cfg, w, db, timeout, faults);
    var decided := ExpireApprovals(w, reclaimed, |reclaimed.approvals|);
    var expired := ExpireTurns(cfg, w, decided, |decided.tasks|);
    var next := WakeTasks(w, expired, |expired.tasks|);
    AllSpare(cfg, w, db, timeout, faults, t);
    ApprovalsFail(w, reclaimed, |reclaimed.approvals|, t);
    SameDue(db, reclaimed, t, w.now);
    TurnsFail(cfg, w, decided, |decided.tasks|, t);
    FailedIsNotOver(cfg, w.now, decided.tasks[t]);
    WakesExactly(w, expired, |expired.tasks|, t);
    WakePass(w, expired, |expired.tasks|);
    SameLiveChildren(expired.tasks, next.tasks, t);
    SameLiveChildren(next.tasks, expired.tasks, t);
  }

  lemma FailedIsNotOver(cfg: Config, now: int, row: Task)
    ensures row.status.Failed? ==> !TurnOver(cfg, now, row)
  {
  }

  lemma SameDue(db: Db, next: Db, t: TaskId, now: int)
    requires t < |db.tasks| <= |next.tasks| && db.approvals <= next.approvals
    requires forall a :: |db.approvals| <= a < |next.approvals| ==> next.approvals[a].task != t
    ensures (exists a :: 0 <= a < |next.approvals| && next.approvals[a].task == t && Due(next.approvals[a], now))
            <==> (exists a :: 0 <= a < |db.approvals| && db.approvals[a].task == t && Due(db.approvals[a], now))
  {
    if a :| 0 <= a < |db.approvals| && db.approvals[a].task == t && Due(db.approvals[a], now) {
      assert next.approvals[a] == db.approvals[a];
    }
  }
}
