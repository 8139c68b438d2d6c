/** What no transaction ever takes back. */
module Forward {
  import opened Tables
  import opened Transactions

  predicate Settled(c: Call) {
    !Pending(c)
  }

  predicate TaskForward(row: Task, next: Task) {
    && row.session == next.session && row.agent == next.agent && row.parent == next.parent && row.depth == next.depth
    && row.steps <= next.steps && row.decisions <= next.decisions
    && (Terminal(row.status) ==> next == row)
  }

  /** A call moves from queued to in flight to harvested or lost, and a settled row is final. */
  predicate CallForward(call: Call, next: Call, final: bool) {
    && call.task == next.task && call.kind == next.kind && call.submits <= next.submits
    && (!call.status.Waiting? ==> !next.status.Waiting?)
    && (Settled(call) ==> Settled(next) && (final ==> next == call))
  }

  predicate ApprovalForward(a: Approval, next: Approval) {
    && a.task == next.task && a.call == next.call && a.expiresAt == next.expiresAt
    && (next.status.Undecided? ==> a.status.Undecided?)
  }

  predicate SessionForward(s: Session, next: Session) {
    s.agent == next.agent && s.schedule == next.schedule
  }

  /** A new log row of a function's result is at a step its task has reached. */
  ghost predicate ResultsReached(db: Db, next: Db) {
    forall l :: |db.logs| <= l < |next.logs| && next.logs[l].role.FunctionRole? ==>
      next.logs[l].task < |next.tasks| && next.logs[l].step <= next.tasks[next.logs[l].task].steps
  }

  /** `open` is a call whose row the transaction is still writing, or -1. */
  ghost predicate RowsForward(db: Db, next: Db, open: int) {
    && |db.tasks| <= |next.tasks| && (forall t :: 0 <= t < |db.tasks| ==> TaskForward(db.tasks[t], next.tasks[t]))
    && |db.calls| <= |next.calls| && (forall c :: 0 <= c < |db.calls| ==> CallForward(db.calls[c], next.calls[c], c != open))
    && |db.approvals| <= |next.approvals|
    && (forall a :: 0 <= a < |db.approvals| ==> ApprovalForward(db.approvals[a], next.approvals[a]))
    && |db.sessions| <= |next.sessions| && (forall s :: 0 <= s < |db.sessions| ==> SessionForward(db.sessions[s], next.sessions[s]))
    && |db.schedules| == |next.schedules|
    && db.logs <= next.logs && ResultsReached(db, next)
  }

  /** Who waits for a human goes on waiting, or is finished. */
  predicate NotResumed(row: Task, next: Task) {
    row.status.WaitingHuman? ==> next.status.WaitingHuman? || Terminal(next.status)
  }

  /** No operator decided anything: the tasks' decision counts stand, new tasks start at zero, and no task
      that waits for a human is resumed. */
  ghost predicate Quiet(db: Db, next: Db) {
    && |db.tasks| <= |next.tasks|
    && (forall t :: 0 <= t < |db.tasks| ==> next.tasks[t].decisions == db.tasks[t].decisions && NotResumed(db.tasks[t], next.tasks[t]))
    && (forall t :: |db.tasks| <= t < |next.tasks| ==> next.tasks[t].decisions == 0)
  }

  /** Without an operator's edit a schedule's budget stands, it is never switched on, and it is on only
      if nothing was charged to it or it is still within its budget. */
  predicate ScheduleForward(s: Schedule, next: Schedule) {
    next.maxCost == s.maxCost && (next.active ==> s.active && (next == s || !OverBudget(next)))
  }

  ghost predicate Unedited(db: Db, next: Db) {
    |db.schedules| == |next.schedules| && forall k :: 0 <= k < |db.schedules| ==> ScheduleForward(db.schedules[k], next.schedules[k])
  }

  /** No new session belongs to a schedule. */
  ghost predicate Unscheduled(db: Db, next: Db) {
    forall s :: |db.sessions| <= s < |next.sessions| ==> next.sessions[s].schedule.None?
  }

  ghost predicate ForwardBut(db: Db, next: Db, open: int) {
    RowsForward(db, next, open) && Quiet(db, next) && Unedited(db, next) && Unscheduled(db, next)
  }

  ghost predicate ForwardTo(db: Db, next: Db) {
    ForwardBut(db, next, -1)
  }

  lemma ForwardTransitive(a: Db, b: Db, c: Db, open: int)
    requires ForwardBut(a, b, open) && ForwardBut(b, c, open)
    ensures ForwardBut(a, c, open)
  {
    RowsTransitive(a, b, c, open);
    forall t | 0 <= t < |a.tasks| ensures NotResumed(a.tasks[t], c.tasks[t]) {
      assert NotResumed(a.tasks[t], b.tasks[t]) && NotResumed(b.tasks[t], c.tasks[t]) && TaskForward(b.tasks[t], c.tasks[t]);
    }
  }

  lemma RowsTransitive(a: Db, b: Db, c: Db, open: int)
    requires RowsForward(a, b, open) && RowsForward(b, c, open)
    ensures RowsForward(a, c, open)
  {
    forall t | 0 <= t < |a.tasks| ensures TaskForward(a.tasks[t], c.tasks[t]) {
      assert TaskForward(a.tasks[t], b.tasks[t]) && TaskForward(b.tasks[t], c.tasks[t]);
    }
    forall i | 0 <= i < |a.calls| ensures CallForward(a.calls[i], c.calls[i], i != open) {
      assert CallForward(a.calls[i], b.calls[i], i != open) && CallForward(b.calls[i], c.calls[i], i != open);
    }
    forall i | 0 <= i < |a.approvals| ensures ApprovalForward(a.approvals[i], c.approvals[i]) {
      assert ApprovalForward(a.approvals[i], b.approvals[i]) && ApprovalForward(b.approvals[i], c.approvals[i]);
    }
    forall i | 0 <= i < |a.sessions| ensures SessionForward(a.sessions[i], c.sessions[i]) {
      assert SessionForward(a.sessions[i], b.sessions[i]) && SessionForward(b.sessions[i], c.sessions[i]);
    }
    forall l | |a.logs| <= l < |c.logs| && c.logs[l].role.FunctionRole?
      ensures c.logs[l].task < |c.tasks| && c.logs[l].step <= c.tasks[c.logs[l].task].steps
    {
      if l < |b.logs| {
        assert b.logs[l] == c.logs[l];
        assert TaskForward(b.tasks[b.logs[l].task], c.tasks[b.logs[l].task]);
      }
    }
  }

  /** A transaction that settles a call itself may write that row more than once. */
  lemma Settles(db: Db, next: Db, c: CallId)
    requires ForwardBut(db, next, c) && c < |db.calls| && Pending(db.calls[c])
    ensures ForwardTo(db, next)
  {
  }

  lemma Opens(db: Db, next: Db, c: int)
    requires ForwardTo(db, next)
    ensures ForwardBut(db, next, c)
  {
  }

  lemma FinishForward(db: Db, t: TaskId, next: Task)
    requires t < |db.tasks| && TaskForward(db.tasks[t], next) && next.decisions == db.tasks[t].decisions && NotResumed(db.tasks[t], next)
    ensures ForwardTo(db, Finish(db, t, next))
  {
    hide HasLive, HasFailed, LatestRoot;
  }

  lemma SetTaskForward(db: Db, t: TaskId, next: Task)
    requires t < |db.tasks| && TaskForward(db.tasks[t], next) && next.decisions == db.tasks[t].decisions && NotResumed(db.tasks[t], next)
    ensures ForwardTo(db, SetTask(db, t, next))
  {
  }

  lemma LogForward(db: Db, t: TaskId, step: nat, role: Role, note: Note)
    requires !role.FunctionRole?
    ensures ForwardTo(db, AppendLog(db, t, step, role, note))
  {
  }

  lemma LogSetTaskForward(db: Db, t: TaskId, step: nat, role: Role, note: Note, next: Task)
    requires t < |db.tasks| && TaskForward(db.tasks[t], next) && next.decisions == db.tasks[t].decisions && NotResumed(db.tasks[t], next)
    requires step <= next.steps || !role.FunctionRole?
    ensures ForwardTo(db, SetTask(AppendLog(db, t, step, role, note), t, next))
  {
  }

  lemma LogFinishForward(db: Db, t: TaskId, step: nat, role: Role, next: Task)
    requires t < |db.tasks| && TaskForward(db.tasks[t], next) && next.decisions == db.tasks[t].decisions && NotResumed(db.tasks[t], next)
    requires !role.FunctionRole?
    ensures ForwardTo(db, Finish(AppendLog(db, t, step, role), t, next))
  {
    hide ForwardBut, Finish;
    LogForward(db, t, step, role, Text);
    FinishForward(AppendLog(db, t, step, role), t, next);
    ForwardTransitive(db, AppendLog(db, t, step, role), Finish(AppendLog(db, t, step, role), t, next), -1);
  }

  lemma SubmitForward(cfg: Config, w: World, db: Db, t: TaskId, payload: Payload)
    ensures SubmitResult(cfg, w, db, t, payload).Some? ==> ForwardTo(db, SubmitResult(cfg, w, db, t, payload).value)
  {
    hide ForwardBut, Finish, SetTask, Act;
    if IsRunning(db, t) {
      var row := db.tasks[t];
      if !Active(cfg, w, row.agent) {
        LogFinishForward(db, t, row.steps, ErrorRole, FailedRow(row, w, "agent_inactive"));
      } else {
        match payload
        case Unrecognized => LogSetTaskForward(db, t, row.steps, ErrorRole, Text, Stepped(row, w));
        case Failure(message) =>
          LogFinishForward(db, t, row.steps + 1, ErrorRole, FailedRow(Stepped(row, w), w, message));
          LogSetTaskForward(db, t, row.steps + 1, ErrorRole, Text, Stepped(row, w));
        case ResultOf(role, content) => LogSetTaskForward(db, t, row.steps + 1, role, content, Stepped(row, w));
        case LlmResponse(action) =>
          var logged := AppendLog(db, t, row.steps + 1, AssistantRole);
          LogForward(db, t, row.steps + 1, AssistantRole, Text);
          ActForward(cfg, w, logged, t, row, action);
          var acted := Act(cfg, w, logged, t, row, action);
          if acted.Some? {
            ForwardTransitive(db, logged, acted.value, -1);
          }
      }
    }
  }

  lemma ActForward(cfg: Config, w: World, db: Db, t: TaskId, row: Task, action: Action)
    requires row.agent in cfg && IsRunning(db, t) && db.tasks[t] == row
    ensures Act(cfg, w, db, t, row, action).Some? ==> ForwardTo(db, Act(cfg, w, db, t, row, action).value)
  {
    hide ForwardBut, OnChain, HasLiveChild, Finish, Hold;
    var next := Stepped(row, w);
    match action
    case Raises =>
    case Refused => LogSetTaskForward(db, t, row.steps + 1, ErrorRole, Text, next);
    case Noted => LogSetTaskForward(db, t, row.steps + 1, AssistantRole, Text, next);
    case Enqueue(tool) =>
      InsertCallForward(db, w, t, ToolCall(tool));
      SetTaskForward(InsertCall(db, w, t, ToolCall(tool)), t, next);
      ForwardTransitive(db, InsertCall(db, w, t, ToolCall(tool)), SetTask(InsertCall(db, w, t, ToolCall(tool)), t, next), -1);
    case FinalAnswer(text) =>
      var answered := SetFinalAnswer(db, row.session, text);
      var done := next.(status := Completed, output := Some(Answer(text)));
      FinalAnswerForward(db, row.session, text);
      FinishForward(answered, t, done);
      ForwardTransitive(db, answered, Finish(answered, t, done), -1);
    case AwaitHuman => HoldForward(w, db, t, next, None);
    case AwaitChildren =>
      LogSetTaskForward(db, t, row.steps + 1, ErrorRole, Text, next);
      SetTaskForward(db, t, next.(status := WaitingChildren));
    case Delegate(target, permitted, wait) =>
      LogSetTaskForward(db, t, row.steps + 1, ErrorRole, Text, next);
      var spawned := InsertTask(db, w, row.session, target, Some(t), row.depth + 1);
      InsertTaskForward(db, w, row.session, target, Some(t), row.depth + 1);
      var after := if wait then next else next.(status := Completed, output := Some(Child(|db.tasks|)));
      SetTaskForward(spawned, t, after);
      ForwardTransitive(db, spawned, SetTask(spawned, t, after), -1);
  }

  lemma InsertCallForward(db: Db, w: World, t: TaskId, kind: CallKind)
    ensures ForwardTo(db, InsertCall(db, w, t, kind))
  {
  }

  lemma InsertTaskForward(db: Db, w: World, s: SessionId, a: AgentId, parent: Option<TaskId>, depth: nat)
    ensures ForwardTo(db, InsertTask(db, w, s, a, parent, depth))
  {
  }

  lemma FinalAnswerForward(db: Db, s: SessionId, text: string)
    ensures ForwardTo(db, SetFinalAnswer(db, s, text))
  {
  }

  lemma HoldForward(w: World, db: Db, t: TaskId, row: Task, call: Option<CallId>)
    requires IsRunning(db, t) && TaskForward(db.tasks[t], row) && row.decisions == db.tasks[t].decisions && NotResumed(db.tasks[t], row)
    ensures ForwardTo(db, Hold(w, db, t, row, call))
  {
  }

  lemma LoseForward(w: World, db: Db, c: CallId)
    requires c < |db.calls| && Pending(db.calls[c])
    ensures ForwardTo(db, SetCall(db, c, db.calls[c].(status := Lost, updatedAt := w.now)))
  {
  }

  lemma RejectForward(db: Db, a: Option<ApprovalId>)
    ensures ForwardTo(db, RejectApproval(db, a))
  {
  }

  lemma NextStepForward(cfg: Config, w: World, db: Db, t: TaskId, prompt: Prompt)
    ensures match NextStep(cfg, w, db, t, prompt)
            case Raised => true
            case NoCall(next) => ForwardTo(db, next)
            case CallLlm(next) => ForwardTo(db, next)
  {
    hide ForwardBut, Finish, StartCompaction;
    if t < |db.tasks| && (db.tasks[t].status.Queued? || db.tasks[t].status.Running?) {
      var row := db.tasks[t];
      var started :=
        if row.status.Queued?
        then row.(status := Running, updatedAt := w.now,
                  startedAt := if row.startedAt.Some? then row.startedAt else Some(w.now))
        else row;
      LogFinishForward(db, t, row.steps, ErrorRole, FailedRow(started, w, "agent_inactive"));
      LogFinishForward(db, t, row.steps, ErrorRole, FailedRow(started, w, "max_steps"));
      var running := SetTask(db, t, started);
      SetTaskForward(db, t, started);
      if prompt.PromptBuilt? && prompt.compactor.Some? {
        StartCompactionForward(running, w, prompt.compactor.value);
        ForwardTransitive(db, running, StartCompaction(running, w, prompt.compactor.value), -1);
      }
    }
  }

  lemma InsertSessionForward(db: Db, w: World, a: AgentId, schedule: Option<ScheduleId>)
    ensures var next := InsertSession(db, w, a, schedule);
            RowsForward(db, next, -1) && Quiet(db, next) && Unedited(db, next) && (schedule.None? ==> Unscheduled(db, next))
  {
  }

  lemma StartCompactionForward(db: Db, w: World, a: AgentId)
    ensures ForwardTo(db, StartCompaction(db, w, a))
  {
    InsertSessionForward(db, w, a, None);
    var begun := InsertSession(db, w, a, None);
    hide InsertSession;
    LogForward(begun, |db.tasks|, 1, UserRole, Text);
    ForwardTransitive(db, begun, StartCompaction(db, w, a), -1);
  }

  lemma DispatchOneForward(cfg: Config, w: World, db: Db, row: DispatchRow)
    ensures DispatchOne(cfg, w, db, row).Some? ==> ForwardTo(db, DispatchOne(cfg, w, db, row).value.db)
  {
    hide NextStep, SubmitResult, CapReached;
    NextStepForward(cfg, w, db, row.task, row.prompt);
    SubmitForward(cfg, w, db, row.task, Failure(row.error));
    match NextStep(cfg, w, db, row.task, row.prompt)
    case Raised =>
    case NoCall(next) =>
    case CallLlm(next) =>
      assert ForwardTo(next, InsertCall(next, w, row.task, Llm));
      ForwardTransitive(db, next, InsertCall(next, w, row.task, Llm), -1);
      SubmitForward(cfg, w, next, row.task, Failure(row.error));
      var failed := SubmitResult(cfg, w, next, row.task, Failure(row.error));
      if failed.Some? {
        ForwardTransitive(db, next, failed.value, -1);
      }
  }

  lemma {:induction false} DispatchRowsForward(cfg: Config, w: World, db: Db, rows: seq<DispatchRow>, n: nat)
    requires n <= |rows|
    ensures DispatchRows(cfg, w, db, rows, n).Some? ==> ForwardTo(db, DispatchRows(cfg, w, db, rows, n).value.db)
  {
    hide DispatchOne, Dispatchable;
    if n > 0 {
      DispatchRowsForward(cfg, w, db, rows, n - 1);
      var sofar := DispatchRows(cfg, w, db, rows, n - 1);
      if sofar.Some? {
        DispatchOneForward(cfg, w, sofar.value.db, rows[n - 1]);
        var next := DispatchOne(cfg, w, sofar.value.db, rows[n - 1]);
        if next.Some? {
          ForwardTransitive(db, sofar.value.db, next.value.db, -1);
        }
      }
    }
  }

  lemma GuardForward(cfg: Config, w: World, db: Db, c: CallId, view: GuardView)
    ensures ForwardTo(db, GuardCall(cfg, w, db, c, view).db)
  {
    hide LatestApproval, Hold, Finish;
    if Guardable(db, c) {
      var t := db.calls[c].task;
      var row := db.tasks[t];
      if !Active(cfg, w, row.agent) || view.denied.Some? {
        var reason := if view.denied.Some? then view.denied.value else "agent_inactive";
        hide ForwardBut;
        var lost := SetCall(db, c, db.calls[c].(status := Lost, updatedAt := w.now));
        LoseForward(w, db, c);
        LogFinishForward(lost, t, row.steps, ErrorRole, FailedRow(row, w, reason));
        ForwardTransitive(db, lost, GuardCall(cfg, w, db, c, view).db, -1);
      } else {
        var held := LatestApproval(db.approvals, t, c);
        RejectForward(db, held);
        HoldForward(w, RejectApproval(db, held), t, row, Some(c));
        ForwardTransitive(db, RejectApproval(db, held), Hold(w, RejectApproval(db, held), t, row, Some(c)), -1);
      }
    }
  }

  lemma ClaimOneForward(cfg: Config, w: World, db: Db, row: ClaimRow)
    ensures ForwardTo(db, ClaimOne(cfg, w, db, row))
  {
    GuardForward(cfg, w, db, row.call, row.view);
    assert GuardCall(cfg, w, db, row.call, row.view).allowed ==>
        row.call < |db.calls| && db.calls[row.call].status.Waiting? && GuardCall(cfg, w, db, row.call, row.view).db == db;
  }

  lemma {:induction false} ClaimRowsForward(cfg: Config, w: World, db: Db, q: Queue, limit: int, rows: seq<ClaimRow>, n: nat)
    requires n <= |rows|
    ensures ForwardTo(db, ClaimRows(cfg, w, db, q, limit, rows, n).db)
  {
    hide ClaimOne, Claimable;
    if n > 0 {
      ClaimRowsForward(cfg, w, db, q, limit, rows, n - 1);
      var sofar := ClaimRows(cfg, w, db, q, limit, rows, n - 1).db;
      ClaimOneForward(cfg, w, sofar, rows[n - 1]);
      ForwardTransitive(db, sofar, ClaimOne(cfg, w, sofar, rows[n - 1]), -1);
    }
  }

  lemma DeliverForward(cfg: Config, w: World, db: Db, c: CallId, payload: Payload, fault: bool)
    requires c < |db.calls| && Settled(db.calls[c])
    ensures ForwardBut(db, Deliver(cfg, w, db, c, payload, fault), c)
  {
    hide SubmitResult;
    var t := db.calls[c].task;
    var noted := SetCall(db, c, db.calls[c].(submits := db.calls[c].submits + 1));
    assert ForwardBut(db, noted, c);
    SubmitForward(cfg, w, noted, t, payload);
    var submitted := SubmitResult(cfg, w, noted, t, payload);
    if submitted.Some? {
      Opens(noted, submitted.value, c);
      ForwardTransitive(db, noted, submitted.value, c);
    }
  }

  lemma PauseForward(w: World, db: Db, c: CallId)
    requires c < |db.calls|
    ensures ForwardBut(db, PauseAmbiguous(w, db, c), c)
  {
  }

  lemma CompleteForward(cfg: Config, w: World, db: Db, c: CallId, reply: Reply)
    ensures ForwardTo(db, Committed(db, Complete(cfg, w, db, c, reply)))
  {
    hide SubmitResult, Deliver, PauseAmbiguous;
    if c < |db.calls| && db.calls[c].status.InFlight? {
      var call := db.calls[c];
      PauseForward(w, db, c);
      if Ambiguous(call.kind) && reply.unknown {
        Settles(db, PauseAmbiguous(w, db, c), c);
      } else {
        var cost := CostOf(call.kind, reply);
        var harvested := Charge(SetCall(db, c, call.(status := Harvested, updatedAt := w.now, cost := cost)), call.task, cost);
        assert ForwardBut(db, harvested, c);
        DeliverForward(cfg, w, harvested, c, PayloadOf(call.kind, reply), reply.fault);
        var next := Deliver(cfg, w, harvested, c, PayloadOf(call.kind, reply), reply.fault);
        ForwardTransitive(db, harvested, next, c);
        Settles(db, next, c);
      }
    }
  }

  lemma ReclaimForward(cfg: Config, w: World, db: Db, q: Queue, timeout: int, c: CallId, fault: bool)
    ensures ForwardTo(db, Reclaim(cfg, w, db, q, timeout, c, fault))
  {
    hide SubmitResult, Deliver, PauseAmbiguous;
    if c < |db.calls| && db.calls[c].status.InFlight? {
      var lost := SetCall(db, c, db.calls[c].(status := Lost, updatedAt := w.now));
      assert ForwardBut(db, lost, c);
      PauseForward(w, lost, c);
      ForwardTransitive(db, lost, PauseAmbiguous(w, lost, c), c);
      Settles(db, PauseAmbiguous(w, lost, c), c);
      DeliverForward(cfg, w, lost, c, Failure(TimeoutMessage(db.calls[c].kind)), fault);
      ForwardTransitive(db, lost, Deliver(cfg, w, lost, c, Failure(TimeoutMessage(db.calls[c].kind)), fault), c);
      Settles(db, Deliver(cfg, w, lost, c, Failure(TimeoutMessage(db.calls[c].kind)), fault), c);
    }
  }

  lemma {:induction false} ReclaimCallsForward(cfg: Config, w: World, db: Db, q: Queue, timeout: int, faults: set<CallId>, n: nat)
    ensures ForwardTo(db, ReclaimCalls(cfg, w, db, q, timeout, faults, n))
  {
    hide Reclaim;
    if n > 0 {
      var sofar := ReclaimCalls(cfg, w, db, q, timeout, faults, n - 1);
      ReclaimCallsForward(cfg, w, db, q, timeout, faults, n - 1);
      ReclaimForward(cfg, w, sofar, q, timeout, n - 1, n - 1 in faults);
      ForwardTransitive(db, sofar, Reclaim(cfg, w, sofar, q, timeout, n - 1, n - 1 in faults), -1);
    }
  }

  lemma ExpireApprovalForward(w: World, db: Db, a: ApprovalId)
    ensures ForwardTo(db, ExpireApproval(w, db, a))
  {
    hide ForwardBut, Finish;
    RejectForward(db, Some(a));
    SameIsForward(db);
    var rejected := RejectApproval(db, Some(a));
    if a < |db.approvals| && db.approvals[a].task < |db.tasks| && db.tasks[db.approvals[a].task].status.WaitingHuman? {
      var t := db.approvals[a].task;
      var row := db.tasks[t];
      var failed := FailedRow(Stepped(row, w), w, "approval_timeout");
      LogFinishForward(rejected, t, row.steps + 1, OperatorRole, failed);
      ForwardTransitive(db, rejected, Finish(AppendLog(rejected, t, row.steps + 1, OperatorRole), t, failed), -1);
    }
  }

  lemma SameIsForward(db: Db)
    ensures ForwardTo(db, db)
  {
  }

  lemma {:induction false} ExpireApprovalsForward(w: World, db: Db, n: nat)
    ensures ForwardTo(db, ExpireApprovals(w, db, n))
  {
    hide ExpireApproval;
    if n > 0 {
      ExpireApprovalsForward(w, db, n - 1);
      ExpireApprovalForward(w, ExpireApprovals(w, db, n - 1), n - 1);
      ForwardTransitive(db, ExpireApprovals(w, db, n - 1), ExpireApprovals(w, db, n), -1);
    }
  }

  lemma ExpireTurnForward(cfg: Config, w: World, db: Db, t: TaskId)
    ensures ForwardTo(db, ExpireTurn(cfg, w, db, t))
  {
    hide HasLive, HasFailed, LatestRoot;
  }

  lemma {:induction false} ExpireTurnsForward(cfg: Config, w: World, db: Db, n: nat)
    ensures ForwardTo(db, ExpireTurns(cfg, w, db, n))
  {
    hide ExpireTurn;
    if n > 0 {
      ExpireTurnsForward(cfg, w, db, n - 1);
      ExpireTurnForward(cfg, w, ExpireTurns(cfg, w, db, n - 1), n - 1);
      ForwardTransitive(db, ExpireTurns(cfg, w, db, n - 1), ExpireTurns(cfg, w, db, n), -1);
    }
  }

  lemma WakeForward(w: World, db: Db, t: TaskId)
    ensures ForwardTo(db, Wake(w, db, t))
  {
    hide HasLiveChild, ChildResults;
  }

  lemma {:induction false} WakeTasksForward(w: World, db: Db, n: nat)
    ensures ForwardTo(db, WakeTasks(w, db, n))
  {
    hide Wake;
    if n > 0 {
      WakeTasksForward(w, db, n - 1);
      var sofar := WakeTasks(w, db, n - 1);
      WakeForward(w, sofar, n - 1);
      ForwardTransitive(db, sofar, WakeTasks(w, db, n), -1);
    }
  }

  lemma ReclaimAllForward(cfg: Config, w: World, db: Db, timeout: int, faults: set<CallId>)
    ensures ForwardTo(db, ReclaimAll(cfg, w, db, timeout, faults))
  {
    hide ForwardBut, ReclaimCalls;
    var a := ReclaimCalls(cfg, w, db, Outbound, timeout, faults, |db.calls|);
    var b := ReclaimCalls(cfg, w, a, SqlCalls, timeout, faults, |a.calls|);
    var c := ReclaimCalls(cfg, w, b, FunctionCalls, timeout, faults, |b.calls|);
    ReclaimCallsForward(cfg, w, db, Outbound, timeout, faults, |db.calls|);
    ReclaimCallsForward(cfg, w, a, SqlCalls, timeout, faults, |a.calls|);
    ReclaimCallsForward(cfg, w, b, FunctionCalls, timeout, faults, |b.calls|);
    ReclaimCallsForward(cfg, w, c, ProcedureCalls, timeout, faults, |c.calls|);
    ForwardTransitive(db, a, b, -1);
    ForwardTransitive(db, b, c, -1);
    ForwardTransitive(db, c, ReclaimAll(cfg, w, db, timeout, faults), -1);
  }

  lemma WatchdogForward(cfg: Config, w: World, db: Db, timeout: int, faults: set<CallId>)
    ensures ForwardTo(db, Watchdog(cfg, w, db, timeout, faults))
  {
    hide ForwardBut, ReclaimAll, ExpireApprovals, ExpireTurns, WakeTasks;
    var reclaimed := ReclaimAll(cfg, w, db, timeout, faults);
    var decided := ExpireApprovals(w, reclaimed, |reclaimed.approvals|);
    var expired := ExpireTurns(cfg, w, decided, |decided.tasks|);
    ReclaimAllForward(cfg, w, db, timeout, faults);
    ExpireApprovalsForward(w, reclaimed, |reclaimed.approvals|);
    ExpireTurnsForward(cfg, w, decided, |decided.tasks|);
    WakeTasksForward(w, expired, |expired.tasks|);
    ForwardTransitive(db, reclaimed, decided, -1);
    ForwardTransitive(db, decided, expired, -1);
    ForwardTransitive(db, expired, WakeTasks(w, expired, |expired.tasks|), -1);
  }

  lemma CancelNextForward(w: World, db: Db, s: SessionId, n: nat)
    requires n > 0
    ensures ForwardTo(CancelTasks(w, db, s, n - 1), CancelTasks(w, db, s, n))
  {
  }

  lemma {:induction false} CancelTasksForward(w: World, db: Db, s: SessionId, n: nat)
    ensures ForwardTo(db, CancelTasks(w, db, s, n))
  {
    if n > 0 {
      CancelTasksForward(w, db, s, n - 1);
      CancelNextForward(w, db, s, n);
      ForwardTransitive(db, CancelTasks(w, db, s, n - 1), CancelTasks(w, db, s, n), -1);
    }
  }

  lemma CancelForward(w: World, db: Db, s: SessionId)
    ensures ForwardTo(db, Committed(db, CancelSession(w, db, s)))
  {
    hide CancelTasks;
    var stopped := CancelTasks(w, db, s, |db.tasks|);
    CancelTasksForward(w, db, s, |db.tasks|);
    if s < |db.sessions| {
      var next := CancelSession(w, db, s).value;
      assert ForwardTo(stopped, next);
      ForwardTransitive(db, stopped, next, -1);
    }
  }

  lemma DecideForward(w: World, db: Db, a: ApprovalId, accept: bool)
    ensures RowsForward(db, Committed(db, Decide(w, db, a, accept)), -1)
    ensures Unedited(db, Committed(db, Decide(w, db, a, accept))) && Unscheduled(db, Committed(db, Decide(w, db, a, accept)))
  {
    hide HasLive, HasFailed, LatestRoot;
  }

  lemma FireForward(cfg: Config, w: World, db: Db, a: AgentId, k: ScheduleId, stopped: bool, last: bool, forced: bool)
    ensures var next := Committed(db, Fire(cfg, w, db, a, k, stopped, last, forced));
            && RowsForward(db, next, -1) && Quiet(db, next) && Unedited(db, next)
            && (forall s :: |db.sessions| <= s < |next.sessions| ==> next.sessions[s].schedule == Some(k))
            && (k >= |db.schedules| || !db.schedules[k].active || OverBudget(db.schedules[k]) ==> next.sessions == db.sessions)
  {
  }

  lemma CreateForward(cfg: Config, w: World, db: Db, a: AgentId)
    ensures ForwardTo(db, Committed(db, CreateSession(cfg, w, db, a, None)))
  {
    hide InsertSession;
    SameIsForward(db);
    InsertSessionForward(db, w, a, None);
  }

  lemma ContinueForward(cfg: Config, w: World, db: Db, s: SessionId)
    ensures ForwardTo(db, Committed(db, ContinueSession(cfg, w, db, s)))
  {
    hide HasLiveRoot;
  }

  lemma SetScheduleForward(db: Db, k: ScheduleId, edit: Edit)
    ensures var next := Committed(db, SetSchedule(db, k, edit));
            RowsForward(db, next, -1) && Quiet(db, next) && Unscheduled(db, next)
  {
  }

  lemma ApplyForward(cfg: Config, db: Db, tx: Tx)
    ensures RowsForward(db, Apply(cfg, db, tx), -1)
    ensures !tx.event.Decided? ==> Quiet(db, Apply(cfg, db, tx))
    ensures !tx.event.ScheduleSet? ==> Unedited(db, Apply(cfg, db, tx))
    ensures !tx.event.Fired? ==> Unscheduled(db, Apply(cfg, db, tx))
  {
    hide RowsForward, Quiet, Unedited, Unscheduled;
    hide CreateSession, Fire, SetSchedule, ContinueSession, DispatchRows, ClaimRows, Complete, Watchdog, Decide, CancelSession;
    var w := tx.world;
    SameIsForward(db);
    match tx.event
    case Created(a) => CreateForward(cfg, w, db, a);
    case Fired(a, k, stopped, last, forced) => FireForward(cfg, w, db, a, k, stopped, last, forced);
    case ScheduleSet(k, edit) => SetScheduleForward(db, k, edit);
    case Continued(s) => ContinueForward(cfg, w, db, s);
    case Dispatched(rows) => DispatchRowsForward(cfg, w, db, rows, |rows|);
    case ClaimedBy(q, limit, rows) => ClaimRowsForward(cfg, w, db, q, limit, rows, |rows|);
    case CompletedBy(c, reply) => CompleteForward(cfg, w, db, c, reply);
    case Swept(timeout, faults) => WatchdogForward(cfg, w, db, timeout, faults);
    case Decided(a, accept) => DecideForward(w, db, a, accept);
    case CancelledBy(s) => CancelForward(w, db, s);
  }
}
