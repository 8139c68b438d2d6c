/** Every transaction keeps the invariant. */
module Preservation {
  import opened Tables
  import opened Transactions
  import opened Invariant
  import opened RowOperations

  // ---------------------------------------------------------------------------------------------
  // fn_submit_result
  // ---------------------------------------------------------------------------------------------

  /** A model response is paid for from the step budget it was dispatched under; the outcome of a
      tool call may take one step more. */
  predicate Affords(cfg: Config, row: Task, payload: Payload) {
    && row.agent in cfg
    && row.steps <= cfg[row.agent].maxSteps + row.decisions
    && (payload.LlmResponse? ==> row.steps < cfg[row.agent].maxSteps)
  }

  /** A running task with nothing outstanding may take a step, whatever it becomes by it. */
  lemma IdleMayBecome(cfg: Config, db: Db, t: TaskId, next: Task, owing: int)
    requires InvExcept(cfg, db, owing, NOBODY) && IsRunning(db, t) && !HasPending(db.calls, t)
    requires SameIdentity(db.tasks[t], next) && RowOk(cfg, next) && next.steps >= db.tasks[t].steps
    requires !next.status.WaitingHuman? && !next.status.Queued?
    ensures MayBecome(cfg, db, t, next)
  {
    RunningNotAsked(db.tasks, db.calls, db.approvals, t);
  }

  lemma StepKeeps(cfg: Config, db: Db, t: TaskId, next: Task, owing: int)
    requires InvExcept(cfg, db, owing, NOBODY) && IsRunning(db, t) && !HasPending(db.calls, t)
    requires SameIdentity(db.tasks[t], next) && RowOk(cfg, next) && next.steps == db.tasks[t].steps + 1
    requires next.status.Running? || next.status.WaitingChildren?
    requires owing == NOBODY || owing == t
    ensures Inv(cfg, SetTask(db, t, next))
  {
    IdleMayBecome(cfg, db, t, next, owing);
    SetTaskKeeps(cfg, db, t, next, owing, NOBODY);
  }

  lemma EndKeeps(cfg: Config, db: Db, t: TaskId, next: Task, owing: int)
    requires InvExcept(cfg, db, owing, NOBODY) && IsRunning(db, t) && !HasPending(db.calls, t)
    requires SameIdentity(db.tasks[t], next) && RowOk(cfg, next) && next.steps >= db.tasks[t].steps && Terminal(next.status)
    requires owing == NOBODY || owing == t
    ensures Inv(cfg, Finish(db, t, next))
  {
    IdleMayBecome(cfg, db, t, next, owing);
    FinishKeeps(cfg, db, t, next, owing);
  }

  lemma LogKeeps(cfg: Config, db: Db, t: TaskId, step: nat, role: Role, note: Note, owing: int)
    requires InvExcept(cfg, db, owing, NOBODY)
    ensures InvExcept(cfg, AppendLog(db, t, step, role, note), owing, NOBODY)
  {
  }

  lemma SubmitKeeps(cfg: Config, w: World, db: Db, t: TaskId, payload: Payload, owing: int)
    requires InvExcept(cfg, db, owing, NOBODY) && IsRunning(db, t) && !HasPending(db.calls, t)
    requires Affords(cfg, db.tasks[t], payload) && (owing == NOBODY || owing == t)
    ensures SubmitResult(cfg, w, db, t, payload).Some? ==> Inv(cfg, SubmitResult(cfg, w, db, t, payload).value)
  {
    hide InvExcept;
    var row := db.tasks[t];
    LogKeeps(cfg, db, t, row.steps, ErrorRole, Text, owing);
    if !Active(cfg, w, row.agent) {
      EndKeeps(cfg, AppendLog(db, t, row.steps, ErrorRole), t, FailedRow(row, w, "agent_inactive"), owing);
    } else {
      match payload
      case Unrecognized =>
        StepKeeps(cfg, AppendLog(db, t, row.steps, ErrorRole), t, Stepped(row, w), owing);
      case Failure(message) =>
        var logged := AppendLog(db, t, row.steps + 1, ErrorRole);
        LogKeeps(cfg, db, t, row.steps + 1, ErrorRole, Text, owing);
        EndKeeps(cfg, logged, t, FailedRow(Stepped(row, w), w, message), owing);
        StepKeeps(cfg, logged, t, Stepped(row, w), owing);
      case ResultOf(role, content) =>
        LogKeeps(cfg, db, t, row.steps + 1, role, content, owing);
        StepKeeps(cfg, AppendLog(db, t, row.steps + 1, role, content), t, Stepped(row, w), owing);
      case LlmResponse(action) =>
        LogKeeps(cfg, db, t, row.steps + 1, AssistantRole, Text, owing);
        ActKeeps(cfg, w, AppendLog(db, t, row.steps + 1, AssistantRole), t, row, action, owing);
    }
  }

  lemma ActKeeps(cfg: Config, w: World, db: Db, t: TaskId, row: Task, action: Action, owing: int)
    requires InvExcept(cfg, db, owing, NOBODY) && IsRunning(db, t) && !HasPending(db.calls, t) && db.tasks[t] == row
    requires row.agent in cfg && row.steps < cfg[row.agent].maxSteps
    requires owing == NOBODY || owing == t
    ensures Act(cfg, w, db, t, row, action).Some? ==> Inv(cfg, Act(cfg, w, db, t, row, action).value)
  {
    hide InvExcept;
    var next := Stepped(row, w);
    LogKeeps(cfg, db, t, row.steps + 1, ErrorRole, Text, owing);
    LogKeeps(cfg, db, t, row.steps + 1, AssistantRole, Text, owing);
    match action
    case Raises =>
    case Refused => StepKeeps(cfg, AppendLog(db, t, row.steps + 1, ErrorRole), t, next, owing);
    case Noted => StepKeeps(cfg, AppendLog(db, t, row.steps + 1, AssistantRole), t, next, owing);
    case Enqueue(tool) => EnqueueKeeps(cfg, w, db, t, tool, owing);
    case FinalAnswer(text) =>
      SetFinalAnswerKeeps(cfg, db, row.session, text, owing);
      EndKeeps(cfg, SetFinalAnswer(db, row.session, text), t, next.(status := Completed, output := Some(Answer(text))), owing);
    case AwaitHuman =>
      HoldKeeps(cfg, w, db, t, next, None, owing);
    case AwaitChildren =>
      StepKeeps(cfg, AppendLog(db, t, row.steps + 1, ErrorRole), t, next, owing);
      StepKeeps(cfg, db, t, next.(status := WaitingChildren), owing);
    case Delegate(target, permitted, wait) =>
      StepKeeps(cfg, AppendLog(db, t, row.steps + 1, ErrorRole), t, next, owing);
      if !OnChain(db.tasks, t, target) && Active(cfg, w, target) && row.depth + 1 <= cfg[row.agent].maxDepth
         && Count(db.tasks, InSession(row.session)) < cfg[row.agent].maxSessionTasks {
        SpawnKeeps(cfg, w, db, t, target, owing);
        if wait {
          StepKeeps(cfg, Spawned(db, w, t, target), t, next, owing);
        } else {
          HandOffKeeps(cfg, w, db, t, target, next.(status := Completed, output := Some(Child(|db.tasks|))), owing);
        }
      }
  }

  lemma EnqueueKeeps(cfg: Config, w: World, db: Db, t: TaskId, tool: Tool, owing: int)
    requires InvExcept(cfg, db, owing, NOBODY) && IsRunning(db, t) && !HasPending(db.calls, t)
    requires db.tasks[t].agent in cfg && db.tasks[t].steps < cfg[db.tasks[t].agent].maxSteps
    requires owing == NOBODY || owing == t
    ensures Inv(cfg, SetTask(InsertCall(db, w, t, ToolCall(tool)), t, Stepped(db.tasks[t], w)))
  {
    var queued := InsertCall(db, w, t, ToolCall(tool));
    var next := Stepped(db.tasks[t], w);
    InsertCallKeeps(cfg, db, w, t, ToolCall(tool), owing);
    RunningNotAsked(db.tasks, db.calls, db.approvals, t);
    forall c | 0 <= c < |queued.calls| && queued.calls[c].task == t && Pending(queued.calls[c])
      ensures PendingOk(cfg, next, queued.calls[c])
    {
      assert c == |db.calls|;
    }
    SetTaskKeeps(cfg, queued, t, next, owing, NOBODY);
  }

  /** A session whose finished task left a live one behind needs no closing. */
  lemma StillOpen(cfg: Config, db: Db, s: SessionId, owing: int)
    requires InvExcept(cfg, db, owing, s) && HasLive(db.tasks, s)
    ensures InvExcept(cfg, db, owing, NOBODY)
  {
  }

  lemma LiveIsOpen(cfg: Config, db: Db, t: TaskId, owing: int)
    requires InvExcept(cfg, db, owing, NOBODY) && t < |db.tasks| && Live(db.tasks[t].status)
    ensures db.tasks[t].session < |db.sessions| && db.sessions[db.tasks[t].session].status.Open?
  {
  }

  function Spawned(db: Db, w: World, t: TaskId, target: AgentId): Db
    requires t < |db.tasks|
  {
    InsertTask(db, w, db.tasks[t].session, target, Some(t), db.tasks[t].depth + 1)
  }

  lemma SpawnedInserts(db: Db, w: World, t: TaskId, target: AgentId)
    requires t < |db.tasks|
    ensures Spawned(db, w, t, target) == InsertTask(db, w, db.tasks[t].session, target, Some(t), db.tasks[t].depth + 1)
  {
    hide InsertTask;
  }

  lemma SpawnKeeps(cfg: Config, w: World, db: Db, t: TaskId, target: AgentId, owing: int)
    requires InvExcept(cfg, db, owing, NOBODY) && IsRunning(db, t) && !HasPending(db.calls, t)
    requires db.tasks[t].agent in cfg && db.tasks[t].depth + 1 <= cfg[db.tasks[t].agent].maxDepth
    requires target in cfg && !OnChain(db.tasks, t, target)
    requires Count(db.tasks, InSession(db.tasks[t].session)) < cfg[db.tasks[t].agent].maxSessionTasks
    ensures InvExcept(cfg, Spawned(db, w, t, target), owing, NOBODY)
  {
    hide InvExcept, OnChain, Count, HasPending, InsertTask, Spawned;
    SpawnedInserts(db, w, t, target);
    LiveIsOpen(cfg, db, t, owing);
    InsertTaskKeeps(cfg, db, w, db.tasks[t].session, target, Some(t), db.tasks[t].depth + 1, owing, NOBODY);
  }

  /** Handing off completes the parent while its child keeps the session open. */
  lemma HandOffKeeps(cfg: Config, w: World, db: Db, t: TaskId, target: AgentId, next: Task, owing: int)
    requires IsRunning(db, t) && !HasPending(db.calls, t) && InvExcept(cfg, Spawned(db, w, t, target), owing, NOBODY)
    requires SameIdentity(db.tasks[t], next) && RowOk(cfg, next) && next.steps == db.tasks[t].steps + 1 && next.status.Completed?
    requires owing == NOBODY || owing == t
    ensures Inv(cfg, SetTask(Spawned(db, w, t, target), t, next))
  {
    hide InvExcept, MayBecome, RowOk;
    var spawned := Spawned(db, w, t, target);
    IdleMayBecome(cfg, spawned, t, next, owing);
    SetTaskKeeps(cfg, spawned, t, next, owing, NOBODY);
    assert SetTask(spawned, t, next).tasks[|db.tasks|].session == next.session;
    StillOpen(cfg, SetTask(spawned, t, next), next.session, NOBODY);
  }

  // ---------------------------------------------------------------------------------------------
  // Settling a call and delivering its outcome
  // ---------------------------------------------------------------------------------------------

  /** Nobody collects a debt from a finished task. */
  lemma ForgiveFinished(cfg: Config, db: Db, t: TaskId)
    requires InvExcept(cfg, db, t, NOBODY) && t < |db.tasks| && Terminal(db.tasks[t].status)
    ensures Inv(cfg, db)
  {
    forall u | 0 <= u < |db.tasks| ensures BudgetOk(cfg, db.tasks[u], u, db.calls, NOBODY) {
      assert BudgetOk(cfg, db.tasks[u], u, db.calls, t);
    }
  }

  /** A call that was just settled, and was its task's only pending one. */
  ghost predicate JustSettled(db: Db, c: CallId, owing: int) {
    && c < |db.calls| && db.calls[c].task < |db.tasks|
    && !Pending(db.calls[c]) && db.calls[c].submits == 0 && CallOk(db.calls[c])
    && !HasPending(db.calls, db.calls[c].task)
    && owing == (if db.calls[c].kind.Llm? then db.calls[c].task else NOBODY)
    && (db.tasks[db.calls[c].task].status.Running? || Terminal(db.tasks[db.calls[c].task].status))
  }

  lemma NotedKeeps(cfg: Config, db: Db, c: CallId, next: Call, owing: int)
    requires InvExcept(cfg, db, owing, NOBODY) && c < |db.calls| && db.calls[c].task < |db.tasks| && !Pending(db.calls[c])
    requires CallOk(next) && next == db.calls[c].(submits := next.submits, rolledBack := next.rolledBack)
    requires db.calls[c].rolledBack ==> next.rolledBack
    ensures InvExcept(cfg, SetCall(db, c, next), OwingAfter(db.calls[c], next, owing), NOBODY)
    ensures forall t :: HasPending(SetCall(db, c, next).calls, t) ==> HasPending(db.calls, t)
  {
    SetCallKeeps(cfg, db, c, next, owing, NOBODY);
    var later := SetCall(db, c, next).calls;
    forall t | HasPending(later, t) ensures HasPending(db.calls, t) {
      var d :| 0 <= d < |later| && later[d].task == t && Pending(later[d]);
      assert db.calls[d].task == t && Pending(db.calls[d]);
    }
  }

  lemma DeliverKeeps(cfg: Config, w: World, db: Db, c: CallId, payload: Payload, fault: bool, owing: int)
    requires InvExcept(cfg, db, owing, NOBODY) && JustSettled(db, c, owing)
    requires IsRunning(db, db.calls[c].task) ==> Affords(cfg, db.tasks[db.calls[c].task], payload)
    ensures Inv(cfg, Deliver(cfg, w, db, c, payload, fault))
  {
    hide InvExcept, SubmitResult;
    var t := db.calls[c].task;
    if !IsRunning(db, t) {
      if owing == t { ForgiveFinished(cfg, db, t); }
    } else {
      var counted := db.calls[c].(submits := db.calls[c].submits + 1);
      var noted := SetCall(db, c, counted);
      NotedKeeps(cfg, db, c, counted, owing);
      NotedKeeps(cfg, noted, c, counted.(rolledBack := true), owing);
      SubmitKeeps(cfg, w, noted, t, payload, owing);
    }
  }

  /** What the invariant says about an in-flight call. */
  lemma InFlightFacts(cfg: Config, db: Db, c: CallId)
    requires Inv(cfg, db) && c < |db.calls| && db.calls[c].status.InFlight?
    ensures var call := db.calls[c];
            && call.task < |db.tasks| && CallOk(call)
            && var row := db.tasks[call.task];
            && (row.status.Running? || Terminal(row.status))
            && (row.status.Running? ==>
                  && row.agent in cfg && row.steps <= cfg[row.agent].maxSteps + row.decisions
                  && (call.kind.Llm? ==> row.steps < cfg[row.agent].maxSteps)
                  && !Asked(db.approvals, call.task))
  {
    if db.tasks[db.calls[c].task].status.Running? {
      RunningNotAsked(db.tasks, db.calls, db.approvals, db.calls[c].task);
    }
  }

  lemma SettledAlone(calls: seq<Call>, c: CallId, next: Call)
    requires OnePending(calls) && c < |calls| && Pending(calls[c]) && !Pending(next) && next.task == calls[c].task
    ensures !HasPending(calls[c := next], next.task)
  {
    var later := calls[c := next];
    assert forall d :: 0 <= d < |later| && later[d].task == next.task ==> !Pending(later[d]);
  }

  lemma LoseCallKeeps(cfg: Config, w: World, db: Db, c: CallId)
    requires Inv(cfg, db) && c < |db.calls| && db.calls[c].status.InFlight?
    ensures var lost := SetCall(db, c, db.calls[c].(status := Lost, updatedAt := w.now));
            var owing := if db.calls[c].kind.Llm? then db.calls[c].task else NOBODY;
            InvExcept(cfg, lost, owing, NOBODY) && JustSettled(lost, c, owing)
  {
    InFlightFacts(cfg, db, c);
    var next := db.calls[c].(status := Lost, updatedAt := w.now);
    SettledAlone(db.calls, c, next);
    SetCallKeeps(cfg, db, c, next, NOBODY, NOBODY);
  }

  lemma HarvestSettles(cfg: Config, w: World, db: Db, c: CallId, cost: Option<real>)
    requires Inv(cfg, db) && c < |db.calls| && db.calls[c].status.InFlight?
    requires cost.Some? ==> db.calls[c].kind.Llm?
    ensures var call := db.calls[c];
            var harvested := Charge(SetCall(db, c, call.(status := Harvested, updatedAt := w.now, cost := cost)), call.task, cost);
            var owing := if call.kind.Llm? then call.task else NOBODY;
            InvExcept(cfg, harvested, owing, NOBODY) && JustSettled(harvested, c, owing)
  {
    InFlightFacts(cfg, db, c);
    var next := db.calls[c].(status := Harvested, updatedAt := w.now, cost := cost);
    SettledAlone(db.calls, c, next);
    HarvestKeeps(cfg, db, c, next);
  }

  lemma PauseKeeps(cfg: Config, w: World, db: Db, c: CallId)
    requires Inv(cfg, db) && c < |db.calls| && db.calls[c].status.InFlight? && Ambiguous(db.calls[c].kind)
    ensures Inv(cfg, PauseAmbiguous(w, db, c))
  {
    InFlightFacts(cfg, db, c);
    LoseCallKeeps(cfg, w, db, c);
    hide InvExcept;
    var t := db.calls[c].task;
    var lost := SetCall(db, c, db.calls[c].(status := Lost, updatedAt := w.now));
    if IsRunning(db, t) {
      HoldKeeps(cfg, w, lost, t, db.tasks[t], None, NOBODY);
      LogKeeps(cfg, Hold(w, lost, t, db.tasks[t], None), t, db.tasks[t].steps, ErrorRole, Text, NOBODY);
    }
  }

  lemma CompleteKeeps(cfg: Config, w: World, db: Db, c: CallId, reply: Reply)
    requires Inv(cfg, db)
    ensures Inv(cfg, Committed(db, Complete(cfg, w, db, c, reply)))
  {
    hide InvExcept;
    if c < |db.calls| && db.calls[c].status.InFlight? {
      var call := db.calls[c];
      if Ambiguous(call.kind) && reply.unknown {
        PauseKeeps(cfg, w, db, c);
      } else {
        var cost := CostOf(call.kind, reply);
        InFlightFacts(cfg, db, c);
        HarvestSettles(cfg, w, db, c, cost);
        var harvested := Charge(SetCall(db, c, call.(status := Harvested, updatedAt := w.now, cost := cost)), call.task, cost);
        DeliverKeeps(cfg, w, harvested, c, PayloadOf(call.kind, reply), reply.fault, if call.kind.Llm? then call.task else NOBODY);
      }
    }
  }

  // ---------------------------------------------------------------------------------------------
  // fn_watchdog
  // ---------------------------------------------------------------------------------------------

  lemma ReclaimKeeps(cfg: Config, w: World, db: Db, q: Queue, timeout: int, c: CallId, fault: bool)
    requires Inv(cfg, db)
    ensures Inv(cfg, Reclaim(cfg, w, db, q, timeout, c, fault))
  {
    hide InvExcept, SubmitResult;
    if c < |db.calls| && db.calls[c].status.InFlight? {
      var call := db.calls[c];
      var lost := SetCall(db, c, call.(status := Lost, updatedAt := w.now));
      InFlightFacts(cfg, db, c);
      LoseCallKeeps(cfg, w, db, c);
      if Ambiguous(call.kind) {
        PauseKeeps(cfg, w, db, c);
        assert SetCall(lost, c, lost.calls[c].(status := Lost, updatedAt := w.now)) == lost;
      }
      DeliverKeeps(cfg, w, lost, c, Failure(TimeoutMessage(call.kind)), fault, if call.kind.Llm? then call.task else NOBODY);
    }
  }

  lemma {:induction false} ReclaimCallsKeeps(cfg: Config, w: World, db: Db, q: Queue, timeout: int, faults: set<CallId>, n: nat)
    requires Inv(cfg, db)
    ensures Inv(cfg, ReclaimCalls(cfg, w, db, q, timeout, faults, n))
  {
    hide Inv, Reclaim;
    if n > 0 {
      ReclaimCallsKeeps(cfg, w, db, q, timeout, faults, n - 1);
      ReclaimKeeps(cfg, w, ReclaimCalls(cfg, w, db, q, timeout, faults, n - 1), q, timeout, n - 1, n - 1 in faults);
    }
  }

  /** Expiring or refusing an approval fails its task. The order in which the two rows are written
      does not matter. */
  lemma RejectedKeeps(cfg: Config, w: World, db: Db, a: ApprovalId, next: Task)
    requires Inv(cfg, db) && a < |db.approvals| && db.approvals[a].status.Undecided?
    requires var t := db.approvals[a].task;
             && t < |db.tasks| && db.tasks[t].status.WaitingHuman?
             && SameIdentity(db.tasks[t], next) && RowOk(cfg, next) && next.steps >= db.tasks[t].steps && Terminal(next.status)
    ensures Inv(cfg, Finish(RejectApproval(db, Some(a)), db.approvals[a].task, next))
  {
    hide InvExcept, RowOk;
    var t := db.approvals[a].task;
    assert MayBecome(cfg, db, t, next);
    SetTaskKeeps(cfg, db, t, next, NOBODY, NOBODY);
    var failed := SetTask(db, t, next);
    DecideKeeps(cfg, failed, a, Rejected, NOBODY, next.session);
    assert RejectApproval(failed, Some(a)) == SetTask(RejectApproval(db, Some(a)), t, next);
    CloseSessionKeeps(cfg, RejectApproval(failed, Some(a)), next.session, NOBODY);
  }

  lemma WaitingBudget(cfg: Config, db: Db, t: TaskId)
    requires Inv(cfg, db) && t < |db.tasks|
    ensures RowOk(cfg, db.tasks[t])
  {
  }

  lemma ExpireApprovalKeeps(cfg: Config, w: World, db: Db, a: ApprovalId)
    requires Inv(cfg, db)
    ensures Inv(cfg, ExpireApproval(w, db, a))
  {
    hide InvExcept;
    if a < |db.approvals| && db.approvals[a].status.Undecided? {
      var t := db.approvals[a].task;
      if t < |db.tasks| && db.tasks[t].status.WaitingHuman? {
        WaitingBudget(cfg, db, t);
        LogKeeps(cfg, db, t, db.tasks[t].steps + 1, OperatorRole, Text, NOBODY);
        var logged := AppendLog(db, t, db.tasks[t].steps + 1, OperatorRole);
        assert RejectApproval(logged, Some(a)) == AppendLog(RejectApproval(db, Some(a)), t, db.tasks[t].steps + 1, OperatorRole);
        RejectedKeeps(cfg, w, logged, a, FailedRow(Stepped(db.tasks[t], w), w, "approval_timeout"));
      } else {
        DecideKeeps(cfg, db, a, Rejected, NOBODY, NOBODY);
      }
    }
  }

  lemma {:induction false} ExpireApprovalsKeeps(cfg: Config, w: World, db: Db, n: nat)
    requires Inv(cfg, db)
    ensures Inv(cfg, ExpireApprovals(w, db, n))
  {
    hide Inv, ExpireApproval;
    if n > 0 {
      ExpireApprovalsKeeps(cfg, w, db, n - 1);
      ExpireApprovalKeeps(cfg, w, ExpireApprovals(w, db, n - 1), n - 1);
    }
  }

  /** A task may always be stopped. */
  lemma StopMayBecome(cfg: Config, db: Db, t: TaskId, next: Task, stale: int)
    requires InvExcept(cfg, db, NOBODY, stale) && t < |db.tasks| && Live(db.tasks[t].status)
    requires SameIdentity(db.tasks[t], next) && Terminal(next.status)
    requires next.steps == db.tasks[t].steps + 1 && next.decisions == db.tasks[t].decisions
    ensures MayBecome(cfg, db, t, next)
  {
  }

  lemma ExpireTurnKeeps(cfg: Config, w: World, db: Db, t: TaskId)
    requires Inv(cfg, db)
    ensures Inv(cfg, ExpireTurn(cfg, w, db, t))
  {
    hide InvExcept, MayBecome, LoseCalls;
    if t < |db.tasks| && TurnExpired(cfg, w, db.tasks[t]) {
      var row := db.tasks[t];
      var next := FailedRow(Stepped(row, w), w, "turn_timeout");
      var logged := AppendLog(db, t, row.steps + 1, ErrorRole);
      LogKeeps(cfg, db, t, row.steps + 1, ErrorRole, Text, NOBODY);
      StopMayBecome(cfg, logged, t, next, NOBODY);
      SetTaskKeeps(cfg, logged, t, next, NOBODY, NOBODY);
      var failed := SetTask(logged, t, next);
      LoseKeeps(cfg, w, failed, {t}, next.session);
      CloseSessionKeeps(cfg, failed.(calls := LoseCalls(w, failed.calls, {t})), next.session, NOBODY);
    }
  }

  lemma {:induction false} ExpireTurnsKeeps(cfg: Config, w: World, db: Db, n: nat)
    requires Inv(cfg, db)
    ensures Inv(cfg, ExpireTurns(cfg, w, db, n))
  {
    hide Inv, ExpireTurn;
    if n > 0 {
      ExpireTurnsKeeps(cfg, w, db, n - 1);
      ExpireTurnKeeps(cfg, w, ExpireTurns(cfg, w, db, n - 1), n - 1);
    }
  }

  lemma WokenMayBecome(cfg: Config, w: World, db: Db, t: TaskId)
    requires Inv(cfg, db) && t < |db.tasks| && db.tasks[t].status.WaitingChildren?
    ensures MayBecome(cfg, db, t, Stepped(db.tasks[t], w).(status := Queued))
  {
    WaitingBudget(cfg, db, t);
    RunningNotAsked(db.tasks, db.calls, db.approvals, t);
  }

  lemma WakeKeeps(cfg: Config, w: World, db: Db, t: TaskId)
    requires Inv(cfg, db)
    ensures Inv(cfg, Wake(w, db, t))
  {
    hide ChildResults, HasLiveChild, InvExcept, MayBecome;
    if t < |db.tasks| && db.tasks[t].status.WaitingChildren? && !HasLiveChild(db.tasks, t) {
      var next := Stepped(db.tasks[t], w).(status := Queued);
      var logged := AppendLog(db, t, db.tasks[t].steps + 1, FunctionRole, DelegateResults(ChildResults(db.tasks, t)));
      LogKeeps(cfg, db, t, db.tasks[t].steps + 1, FunctionRole, DelegateResults(ChildResults(db.tasks, t)), NOBODY);
      WokenMayBecome(cfg, w, logged, t);
      SetTaskKeeps(cfg, logged, t, next, NOBODY, NOBODY);
    }
  }

  lemma {:induction false} WakeTasksKeeps(cfg: Config, w: World, db: Db, n: nat)
    requires Inv(cfg, db)
    ensures Inv(cfg, WakeTasks(w, db, n))
  {
    hide Inv, Wake;
    if n > 0 {
      WakeTasksKeeps(cfg, w, db, n - 1);
      WakeKeeps(cfg, w, WakeTasks(w, db, n - 1), n - 1);
    }
  }

  lemma WatchdogKeeps(cfg: Config, w: World, db: Db, timeout: int, faults: set<CallId>)
    requires Inv(cfg, db)
    ensures Inv(cfg, Watchdog(cfg, w, db, timeout, faults))
  {
    hide Inv;
    var a := ReclaimCalls(cfg, w, db, Outbound, timeout, faults, |db.calls|);
    var b := ReclaimCalls(cfg, w, a, SqlCalls, timeout, faults, |a.calls|);
    var c := ReclaimCalls(cfg, w, b, FunctionCalls, timeout, faults, |b.calls|);
    ReclaimCallsKeeps(cfg, w, db, Outbound, timeout, faults, |db.calls|);
    ReclaimCallsKeeps(cfg, w, a, SqlCalls, timeout, faults, |a.calls|);
    ReclaimCallsKeeps(cfg, w, b, FunctionCalls, timeout, faults, |b.calls|);
    ReclaimCallsKeeps(cfg, w, c, ProcedureCalls, timeout, faults, |c.calls|);
    var reclaimed := ReclaimAll(cfg, w, db, timeout, faults);
    ExpireApprovalsKeeps(cfg, w, reclaimed, |reclaimed.approvals|);
    var decided := ExpireApprovals(w, reclaimed, |reclaimed.approvals|);
    ExpireTurnsKeeps(cfg, w, decided, |decided.tasks|);
    var expired := ExpireTurns(cfg, w, decided, |decided.tasks|);
    WakeTasksKeeps(cfg, w, expired, |expired.tasks|);
  }

  // ---------------------------------------------------------------------------------------------
  // Claiming
  // ---------------------------------------------------------------------------------------------

  /** What the invariant says about a queued call of a running task. */
  lemma QueuedFacts(cfg: Config, db: Db, c: CallId)
    requires Inv(cfg, db) && c < |db.calls| && db.calls[c].status.Waiting? && IsRunning(db, db.calls[c].task)
    ensures var row := db.tasks[db.calls[c].task];
            && CallOk(db.calls[c]) && RowOk(cfg, row)
            && row.agent in cfg && row.steps <= cfg[row.agent].maxSteps + row.decisions
            && (db.calls[c].kind.Llm? ==> row.steps < cfg[row.agent].maxSteps)
            && !Asked(db.approvals, db.calls[c].task)
  {
    RunningNotAsked(db.tasks, db.calls, db.approvals, db.calls[c].task);
  }

  lemma DenyKeeps(cfg: Config, w: World, db: Db, c: CallId, error: string)
    requires Inv(cfg, db) && Guardable(db, c)
    ensures Inv(cfg, DenyCall(w, db, c, error))
  {
    QueuedFacts(cfg, db, c);
    var t := db.calls[c].task;
    var next := db.calls[c].(status := Lost, updatedAt := w.now);
    var lost := SetCall(db, c, next);
    SettledAlone(db.calls, c, next);
    hide InvExcept;
    SetCallKeeps(cfg, db, c, next, NOBODY, NOBODY);
    var owing := OwingAfter(db.calls[c], next, NOBODY);
    LogKeeps(cfg, lost, t, db.tasks[t].steps, ErrorRole, Text, owing);
    EndKeeps(cfg, AppendLog(lost, t, db.tasks[t].steps, ErrorRole), t, FailedRow(db.tasks[t], w, error), owing);
  }

  /** The newest approval of a call of a running task is decided, and its call is gateable. */
  lemma HeldFacts(cfg: Config, db: Db, c: CallId)
    requires Inv(cfg, db) && c < |db.calls| && IsRunning(db, db.calls[c].task)
    ensures var held := LatestApproval(db.approvals, db.calls[c].task, c);
            held.Some? ==>
              && held.value < |db.approvals| && db.approvals[held.value].task == db.calls[c].task
              && !db.approvals[held.value].status.Undecided? && Gateable(db.calls[c].kind)
  {
    LatestApprovalFound(db.approvals, db.calls[c].task, c);
    var held := LatestApproval(db.approvals, db.calls[c].task, c);
    if held.Some? {
      assert ApprovalOk(db.tasks, db.calls, db.approvals[held.value]);
    }
  }

  lemma AskKeeps(cfg: Config, w: World, db: Db, c: CallId)
    requires Inv(cfg, db) && Guardable(db, c) && Gateable(db.calls[c].kind)
    ensures Inv(cfg, AskFor(w, db, c, LatestApproval(db.approvals, db.calls[c].task, c)))
  {
    HeldFacts(cfg, db, c);
    QueuedFacts(cfg, db, c);
    var held := LatestApproval(db.approvals, db.calls[c].task, c);
    hide InvExcept, LatestApproval;
    if held.Some? {
      DecideKeeps(cfg, db, held.value, Rejected, NOBODY, NOBODY);
    }
    HoldKeeps(cfg, w, RejectApproval(db, held), db.calls[c].task, db.tasks[db.calls[c].task], Some(c), NOBODY);
  }

  lemma GuardKeeps(cfg: Config, w: World, db: Db, c: CallId, view: GuardView)
    requires Inv(cfg, db)
    ensures Inv(cfg, GuardCall(cfg, w, db, c, view).db)
    ensures GuardCall(cfg, w, db, c, view).allowed ==> GuardCall(cfg, w, db, c, view).db == db && Guardable(db, c)
  {
    hide InvExcept, LatestApproval, DenyCall, AskFor;
    if Guardable(db, c) {
      DenyKeeps(cfg, w, db, c, if view.denied.Some? then view.denied.value else "agent_inactive");
      HeldFacts(cfg, db, c);
      if Gateable(db.calls[c].kind) {
        AskKeeps(cfg, w, db, c);
      }
    }
  }

  lemma ClaimOneKeeps(cfg: Config, w: World, db: Db, row: ClaimRow)
    requires Inv(cfg, db)
    ensures Inv(cfg, ClaimOne(cfg, w, db, row))
  {
    GuardKeeps(cfg, w, db, row.call, row.view);
    if GuardCall(cfg, w, db, row.call, row.view).allowed {
      QueuedFacts(cfg, db, row.call);
      SetCallKeeps(cfg, db, row.call, db.calls[row.call].(status := InFlight, updatedAt := w.now), NOBODY, NOBODY);
    }
  }

  lemma {:induction false} ClaimRowsKeeps(cfg: Config, w: World, db: Db, q: Queue, limit: int, rows: seq<ClaimRow>, n: nat)
    requires Inv(cfg, db) && n <= |rows|
    ensures Inv(cfg, ClaimRows(cfg, w, db, q, limit, rows, n).db)
  {
    hide Inv, ClaimOne;
    if n > 0 {
      ClaimRowsKeeps(cfg, w, db, q, limit, rows, n - 1);
      ClaimOneKeeps(cfg, w, ClaimRows(cfg, w, db, q, limit, rows, n - 1).db, rows[n - 1]);
    }
  }

  // ---------------------------------------------------------------------------------------------
  // Dispatching
  // ---------------------------------------------------------------------------------------------

  /** A transaction that concerns task `t` alone: other tasks keep their rows, and calls are only
      added, for `t`. */
  ghost predicate Concerns(db: Db, next: Db, t: TaskId) {
    && |db.tasks| <= |next.tasks| && |db.calls| <= |next.calls|
    && (forall u :: 0 <= u < |db.tasks| && u != t ==> next.tasks[u] == db.tasks[u])
    && (forall c :: 0 <= c < |db.calls| ==> next.calls[c] == db.calls[c])
    && (forall c :: |db.calls| <= c < |next.calls| ==> next.calls[c].task == t)
  }

  lemma SubmitConcerns(cfg: Config, w: World, db: Db, t: TaskId, payload: Payload)
    ensures SubmitResult(cfg, w, db, t, payload).Some? ==> Concerns(db, SubmitResult(cfg, w, db, t, payload).value, t)
  {
    hide OnChain, HasLive, HasFailed, HasLiveChild, LatestRoot;
  }

  /** Others stay dispatchable. */
  lemma StaysDispatchable(db: Db, next: Db, t: TaskId, u: TaskId)
    requires Concerns(db, next, t) && u != t && Dispatchable(db, u)
    ensures Dispatchable(next, u)
  {
  }

  lemma NextStepConcerns(cfg: Config, w: World, db: Db, t: TaskId, prompt: Prompt)
    ensures match NextStep(cfg, w, db, t, prompt)
            case Raised => true
            case NoCall(next) => Concerns(db, next, t)
            case CallLlm(next) => Concerns(db, next, t)
  {
    hide HasLive, HasFailed, LatestRoot;
  }

  lemma StartMayBecome(cfg: Config, db: Db, t: TaskId, next: Task)
    requires Inv(cfg, db) && Dispatchable(db, t) && !CapReached(cfg, db.tasks, t)
    requires SameIdentity(db.tasks[t], next) && next.steps == db.tasks[t].steps && next.decisions == db.tasks[t].decisions
    requires next.status.Running? || Terminal(next.status)
    ensures MayBecome(cfg, db, t, next)
  {
    RunningNotAsked(db.tasks, db.calls, db.approvals, t);
  }

  lemma NextStepKeeps(cfg: Config, w: World, db: Db, t: TaskId, prompt: Prompt)
    requires Inv(cfg, db) && Dispatchable(db, t) && !CapReached(cfg, db.tasks, t)
    ensures match NextStep(cfg, w, db, t, prompt)
            case Raised => true
            case NoCall(next) => Inv(cfg, next)
            case CallLlm(next) =>
              && Inv(cfg, next) && IsRunning(next, t) && !HasPending(next.calls, t)
              && next.tasks[t].agent in cfg && next.tasks[t].steps < cfg[next.tasks[t].agent].maxSteps
  {
    hide InvExcept, MayBecome, CapReached;
    var row := db.tasks[t];
    var started :=
      if row.status.Queued?
      then row.(status := Running, updatedAt := w.now,
                startedAt := if row.startedAt.Some? then row.startedAt else Some(w.now))
      else row;
    if !Active(cfg, w, row.agent) || row.steps >= cfg[row.agent].maxSteps {
      var error := if !Active(cfg, w, row.agent) then "agent_inactive" else "max_steps";
      LogKeeps(cfg, db, t, row.steps, ErrorRole, Text, NOBODY);
      var logged := AppendLog(db, t, row.steps, ErrorRole);
      StartMayBecome(cfg, logged, t, FailedRow(started, w, error));
      FinishKeeps(cfg, logged, t, FailedRow(started, w, error), NOBODY);
    } else if prompt.PromptBuilt? {
      StartMayBecome(cfg, db, t, started);
      SetTaskKeeps(cfg, db, t, started, NOBODY, NOBODY);
      if prompt.compactor.Some? && Active(cfg, w, prompt.compactor.value) {
        var running := SetTask(db, t, started);
        InsertSessionKeeps(cfg, running, w, prompt.compactor.value, None);
        LogKeeps(cfg, InsertSession(running, w, prompt.compactor.value, None), |running.tasks|, 1, UserRole, Text, NOBODY);
      }
    }
  }

  /** A dispatch row keeps the invariant, never aborts the pump, and concerns its own task. */
  lemma DispatchOneKeeps(cfg: Config, w: World, db: Db, row: DispatchRow)
    requires Inv(cfg, db) && Dispatchable(db, row.task)
    ensures DispatchOne(cfg, w, db, row).Some?
    ensures Inv(cfg, DispatchOne(cfg, w, db, row).value.db)
    ensures Concerns(db, DispatchOne(cfg, w, db, row).value.db, row.task)
  {
    hide InvExcept, SubmitResult, NextStep, CapReached;
    var t := row.task;
    if !CapReached(cfg, db.tasks, t) {
      NextStepKeeps(cfg, w, db, t, row.prompt);
      NextStepConcerns(cfg, w, db, t, row.prompt);
      match NextStep(cfg, w, db, t, row.prompt)
      case Raised => RaisedRetryKeeps(cfg, w, db, t, row.prompt, row.error);
      case NoCall(next) =>
      case CallLlm(next) =>
        if row.httpOk {
          InsertCallKeeps(cfg, next, w, t, Llm, NOBODY);
        } else {
          SubmitKeeps(cfg, w, next, t, Failure(row.error), NOBODY);
          SubmitConcerns(cfg, w, next, t, Failure(row.error));
          FailureAccepted(cfg, w, next, t, row.error);
        }
    }
  }

  /** A running task always accepts an error. */
  lemma FailureAccepted(cfg: Config, w: World, db: Db, t: TaskId, message: string)
    requires IsRunning(db, t)
    ensures SubmitResult(cfg, w, db, t, Failure(message)).Some?
  {
  }

  lemma RaisedRetryKeeps(cfg: Config, w: World, db: Db, t: TaskId, prompt: Prompt, error: string)
    requires Inv(cfg, db) && Dispatchable(db, t) && NextStep(cfg, w, db, t, prompt).Raised?
    ensures var retried := SubmitResult(cfg, w, db, t, Failure(error));
            retried.Some? ==> Inv(cfg, retried.value) && Concerns(db, retried.value, t)
  {
    hide InvExcept;
    if db.tasks[t].status.Running? {
      assert db.tasks[t].agent in cfg && db.tasks[t].steps < cfg[db.tasks[t].agent].maxSteps;
      hide NextStep, SubmitResult;
      SubmitKeeps(cfg, w, db, t, Failure(error), NOBODY);
    }
    SubmitConcerns(cfg, w, db, t, Failure(error));
  }

  lemma {:induction false} DispatchRowsKeeps(cfg: Config, w: World, db: Db, rows: seq<DispatchRow>, n: nat)
    requires Inv(cfg, db) && n <= |rows|
    ensures var d := DispatchRows(cfg, w, db, rows, n);
            && d.Some? && Inv(cfg, d.value.db)
            && (forall u :: Dispatchable(db, u) && (forall i :: 0 <= i < n ==> rows[i].task != u) ==> Dispatchable(d.value.db, u))
  {
    hide Inv, DispatchOne, Dispatchable;
    if n > 0 {
      DispatchRowsKeeps(cfg, w, db, rows, n - 1);
      var sofar := DispatchRows(cfg, w, db, rows, n - 1).value;
      if sofar.sent < DISPATCH_LIMIT && FirstTime(rows, n - 1) && Dispatchable(db, rows[n - 1].task) {
        DispatchOneKeeps(cfg, w, sofar.db, rows[n - 1]);
        var next := DispatchOne(cfg, w, sofar.db, rows[n - 1]).value.db;
        forall u | Dispatchable(db, u) && (forall i :: 0 <= i < n ==> rows[i].task != u) ensures Dispatchable(next, u) {
          StaysDispatchable(sofar.db, next, rows[n - 1].task, u);
        }
      }
    }
  }

  // ---------------------------------------------------------------------------------------------
  // The operator's side
  // ---------------------------------------------------------------------------------------------

  lemma ContinueKeeps(cfg: Config, w: World, db: Db, s: SessionId)
    requires Inv(cfg, db)
    ensures Inv(cfg, Committed(db, ContinueSession(cfg, w, db, s)))
  {
    if s < |db.sessions| && Active(cfg, w, db.sessions[s].agent) {
      var reopened := db.(sessions := db.sessions[s := db.sessions[s].(status := Open)]);
      OpenSessionKeeps(cfg, db, reopened.sessions, s);
      hide InvExcept;
      InsertTaskKeeps(cfg, reopened, w, s, db.sessions[s].agent, None, 0, NOBODY, s);
      LogKeeps(cfg, InsertTask(reopened, w, s, db.sessions[s].agent, None, 0), |db.tasks|, 0, UserRole, Text, NOBODY);
    }
  }

  /** What the invariant says about the pending call of a task that waits for a human. */
  lemma HeldCallFacts(cfg: Config, db: Db, a: ApprovalId, c: CallId)
    requires Inv(cfg, db) && a < |db.approvals| && db.approvals[a].status.Undecided?
    requires db.approvals[a].task < |db.tasks| && db.tasks[db.approvals[a].task].status.WaitingHuman?
    requires c < |db.calls| && db.calls[c].task == db.approvals[a].task && Pending(db.calls[c])
    ensures db.approvals[a].call == Some(c) && db.calls[c].status.Waiting? && !db.calls[c].kind.Llm?
  {
    assert Holds(db.tasks, db.approvals[a], c, db.calls[c]);
    assert ApprovalOk(db.tasks, db.calls, db.approvals[a]);
  }

  lemma DecideTxKeeps(cfg: Config, w: World, db: Db, a: ApprovalId, accept: bool)
    requires Inv(cfg, db)
    ensures Inv(cfg, Committed(db, Decide(w, db, a, accept)))
  {
    hide InvExcept;
    if a < |db.approvals| && db.approvals[a].status.Undecided? {
      var approval := db.approvals[a];
      var t := approval.task;
      if t < |db.tasks| && db.tasks[t].status.WaitingHuman? {
        var row := db.tasks[t];
        var after := Stepped(row, w).(decisions := row.decisions + 1);
        var logged := AppendLog(db, t, row.steps + 1, OperatorRole);
        WaitingBudget(cfg, db, t);
        LogKeeps(cfg, db, t, row.steps + 1, OperatorRole, Text, NOBODY);
        if accept {
          var next := after.(status := if approval.call.Some? then Running else Queued);
          forall c | 0 <= c < |db.calls| && db.calls[c].task == t && Pending(db.calls[c]) ensures PendingOk(cfg, next, db.calls[c]) {
            HeldCallFacts(cfg, db, a, c);
          }
          ReleaseKeeps(cfg, logged, a, next, Approved);
        } else {
          RejectedKeeps(cfg, w, logged, a, FailedRow(after, w, "human_rejected"));
        }
      } else {
        DecideKeeps(cfg, db, a, if accept then Approved else Rejected, NOBODY, NOBODY);
      }
    }
  }

  lemma {:induction false} CancelTasksKeeps(cfg: Config, w: World, db: Db, s: SessionId, n: nat)
    requires InvExcept(cfg, db, NOBODY, s) && n <= |db.tasks|
    ensures var next := CancelTasks(w, db, s, n);
            && InvExcept(cfg, next, NOBODY, s)
            && |next.tasks| == |db.tasks| && next.sessions == db.sessions
            && (forall i :: 0 <= i < n && next.tasks[i].session == s ==> Terminal(next.tasks[i].status))
  {
    hide InvExcept, MayBecome;
    if n > 0 {
      CancelTasksKeeps(cfg, w, db, s, n - 1);
      var sofar := CancelTasks(w, db, s, n - 1);
      var t := n - 1;
      if sofar.tasks[t].session == s && Live(sofar.tasks[t].status) {
        var row := sofar.tasks[t];
        var next := Stepped(row, w).(status := Cancelled, error := Some("operator_cancelled"));
        var logged := AppendLog(sofar, t, row.steps + 1, OperatorRole);
        StaleLogKeeps(cfg, sofar, t, row.steps + 1, OperatorRole, s);
        StopMayBecome(cfg, logged, t, next, s);
        SetTaskKeeps(cfg, logged, t, next, NOBODY, s);
      }
    }
  }

  lemma StaleLogKeeps(cfg: Config, db: Db, t: TaskId, step: nat, role: Role, stale: int)
    requires InvExcept(cfg, db, NOBODY, stale)
    ensures InvExcept(cfg, AppendLog(db, t, step, role), NOBODY, stale)
  {
  }

  lemma Stale(cfg: Config, db: Db, s: SessionId)
    requires Inv(cfg, db)
    ensures InvExcept(cfg, db, NOBODY, s)
  {
  }

  /** Closing a session none of whose tasks is live. */
  lemma StopSessionKeeps(cfg: Config, db: Db, s: SessionId)
    requires InvExcept(cfg, db, NOBODY, s) && s < |db.sessions|
    requires forall i :: 0 <= i < |db.tasks| && db.tasks[i].session == s ==> Terminal(db.tasks[i].status)
    ensures Inv(cfg, if db.sessions[s].status.Open?
                     then db.(sessions := db.sessions[s := db.sessions[s].(status := Stopped)]) else db)
  {
    if db.sessions[s].status.Open? {
      SpendFrame(db.tasks, db.tasks, db.calls, db.sessions, db.sessions[s := db.sessions[s].(status := Stopped)], db.schedules);
    }
  }

  lemma CancelKeeps(cfg: Config, w: World, db: Db, s: SessionId)
    requires Inv(cfg, db)
    ensures Inv(cfg, Committed(db, CancelSession(w, db, s)))
  {
    if s < |db.sessions| {
      Stale(cfg, db, s);
      hide InvExcept, Inv, CancelTasks, LoseCalls, RejectApprovals;
      CancelTasksKeeps(cfg, w, db, s, |db.tasks|);
      var stopped := CancelTasks(w, db, s, |db.tasks|);
      var mine := TasksOf(stopped.tasks, s);
      LoseKeeps(cfg, w, stopped, mine, s);
      var quiet := stopped.(calls := LoseCalls(w, stopped.calls, mine));
      RejectKeeps(cfg, quiet, mine, s);
      StopSessionKeeps(cfg, quiet.(approvals := RejectApprovals(quiet.approvals, mine)), s);
    }
  }

  // ---------------------------------------------------------------------------------------------
  // Every transaction
  // ---------------------------------------------------------------------------------------------

  /** Schedules may change in anything but what they have spent. */
  lemma SchedulesKeep(cfg: Config, db: Db, schedules: seq<Schedule>)
    requires Inv(cfg, db) && |schedules| == |db.schedules|
    requires forall k :: 0 <= k < |schedules| ==> schedules[k].spent == db.schedules[k].spent
    ensures Inv(cfg, db.(schedules := schedules))
  {
    hide ForestOk, RowsOk, CallsOk, OnePending, ApprovalsOk, WaitersAsked, BudgetsOk, SessionsOk, SlotsOk;
  }

  lemma FireKeeps(cfg: Config, w: World, db: Db, a: AgentId, k: ScheduleId, stopped: bool, last: bool, forced: bool)
    requires Inv(cfg, db)
    ensures Inv(cfg, Committed(db, Fire(cfg, w, db, a, k, stopped, last, forced)))
  {
    hide Inv;
    if k < |db.schedules| {
      SchedulesKeep(cfg, db, SetActive(db, k, false).schedules);
      if Active(cfg, w, a) {
        InsertSessionKeeps(cfg, db, w, a, Some(k));
        var next := InsertSession(db, w, a, Some(k));
        SchedulesKeep(cfg, next, SetActive(db, k, !last).schedules);
      }
    }
  }

  lemma ApplyKeeps(cfg: Config, db: Db, tx: Tx)
    requires Inv(cfg, db)
    ensures Inv(cfg, Apply(cfg, db, tx))
  {
    hide Inv, InsertSession, Fire, ContinueSession, DispatchRows, ClaimRows, Complete, Watchdog, Decide, CancelSession;
    var w := tx.world;
    match tx.event
    case Created(a) =>
      if CreateSession(cfg, w, db, a, None).Some? {
        InsertSessionKeeps(cfg, db, w, a, None);
      }
    case Fired(a, k, stopped, last, forced) => FireKeeps(cfg, w, db, a, k, stopped, last, forced);
    case ScheduleSet(k, edit) =>
      if SetSchedule(db, k, edit).Some? {
        SchedulesKeep(cfg, db, db.schedules[k := Edited(db.schedules[k], edit)]);
      }
    case Continued(s) => ContinueKeeps(cfg, w, db, s);
    case Dispatched(rows) => DispatchRowsKeeps(cfg, w, db, rows, |rows|);
    case ClaimedBy(q, limit, rows) => ClaimRowsKeeps(cfg, w, db, q, limit, rows, |rows|);
    case CompletedBy(c, reply) => CompleteKeeps(cfg, w, db, c, reply);
    case Swept(timeout, faults) => WatchdogKeeps(cfg, w, db, timeout, faults);
    case Decided(a, accept) => DecideTxKeeps(cfg, w, db, a, accept);
    case CancelledBy(s) => CancelKeeps(cfg, w, db, s);
  }
}
