/** The control plane as the source has it: an object whose tables its SQL functions update row by row,
    in loops over cursors, with subtransactions that are rolled back when something raises.

    Each method is proved to move the tables exactly as the corresponding function of `Transactions`
    says, and `Execute`, the only way in, therefore keeps the invariant of `Invariant`. */
module ControlPlane {
  import opened Tables
  import opened Transactions
  import opened Invariant
  import opened Preservation

  datatype Step = Raise | Stop | CallModel

  class Instance {
    const cfg: Config
    var tasks: seq<Task>
    var sessions: seq<Session>
    var calls: seq<Call>
    var approvals: seq<Approval>
    var schedules: seq<Schedule>
    var logs: seq<Log>

    function View(): Db
      reads this
    {
      Db(tasks, sessions, calls, approvals, schedules, logs)
    }

    ghost predicate Valid()
      reads this
    {
      Inv(cfg, View())
    }

    /** A fresh installation with the given agents; nothing has been spent. */
    constructor (agents: Config, budgets: seq<Option<real>>)
      requires forall i :: 0 <= i < |budgets| && budgets[i].Some? ==> budgets[i].value > 0.0
      ensures cfg == agents && Valid()
      ensures View() == Db([], [], [], [], seq(|budgets|, i requires 0 <= i < |budgets| => Schedule(true, 0.0, budgets[i])), [])
    {
      cfg := agents;
      tasks, sessions, calls, approvals, logs := [], [], [], [], [];
      schedules := seq(|budgets|, i requires 0 <= i < |budgets| => Schedule(true, 0.0, budgets[i]));
      new;
      forall a | a in cfg ensures Count(tasks, OccupiesSlotOf(a)) == 0 { }
    }

    // -------------------------------------------------------------------------------------------
    // Row updates
    // -------------------------------------------------------------------------------------------

    method UpdateTask(t: TaskId, row: Task)
      modifies this`tasks
      ensures View() == SetTask(old(View()), t, row)
    {
      if t < |tasks| {
        tasks := tasks[t := row];
      }
    }

    method UpdateCall(c: CallId, row: Call)
      modifies this`calls
      ensures View() == SetCall(old(View()), c, row)
    {
      if c < |calls| {
        calls := calls[c := row];
      }
    }

    method Append(t: TaskId, step: nat, role: Role, note: Note)
      modifies this`logs
      ensures View() == AppendLog(old(View()), t, step, role, note)
    {
      logs := logs + [Log(t, step, role, note)];
    }

    /** `ROLLBACK TO SAVEPOINT`: what an `EXCEPTION WHEN others` block does first. */
    method RollBack(saved: Db)
      modifies this
      ensures View() == saved
    {
      tasks, sessions, calls := saved.tasks, saved.sessions, saved.calls;
      approvals, schedules, logs := saved.approvals, saved.schedules, saved.logs;
    }

    /** `maybe_complete_session`: one pass over the tasks counts the live and failed ones. */
    method MaybeCompleteSession(s: SessionId)
      modifies this`sessions
      ensures View() == CloseSession(old(View()), s)
    {
      var live, failed := false, false;
      var latest: Option<Task> := None;
      var i := 0;
      while i < |tasks|
        invariant i <= |tasks| && sessions == old(sessions)
        invariant live == HasLive(tasks[..i], s)
        invariant failed == HasFailed(tasks[..i], s)
        invariant latest == LatestRoot(tasks[..i], s)
      {
        var t := tasks[i];
        assert tasks[..i + 1][..i] == tasks[..i];
        LiveStep(tasks, i, s);
        if t.session == s {
          if Live(t.status) { live := true; }
          if t.status.Failed? { failed := true; }
          if t.status.Completed? && t.parent.None? && (latest.None? || latest.value.updatedAt <= t.updatedAt) {
            latest := Some(t);
          }
        }
        i := i + 1;
      }
      assert tasks[..i] == tasks;
      assert live == HasLive(View().tasks, s) && failed == HasFailed(View().tasks, s);
      if live || s >= |sessions| || !sessions[s].status.Open? {
        return;
      }
      var answer := AnswerOf(latest);
      if failed && answer.None? {
        sessions := sessions[s := sessions[s].(status := Broken)];
      } else {
        sessions := sessions[s :=
          sessions[s].(status := Done, finalAnswer := if answer.Some? then answer else sessions[s].finalAnswer)];
      }
    }

    static lemma LiveStep(tasks: seq<Task>, i: nat, s: SessionId)
      requires i < |tasks|
      ensures HasLive(tasks[..i + 1], s) <==> HasLive(tasks[..i], s) || (tasks[i].session == s && Live(tasks[i].status))
      ensures HasFailed(tasks[..i + 1], s) <==> HasFailed(tasks[..i], s) || (tasks[i].session == s && tasks[i].status.Failed?)
    {
      var before, after := tasks[..i], tasks[..i + 1];
      if j :| 0 <= j < |before| && before[j].session == s && Live(before[j].status) {
        assert after[j] == before[j];
      }
      if j :| 0 <= j < |before| && before[j].session == s && before[j].status.Failed? {
        assert after[j] == before[j];
      }
      assert after[i] == tasks[i];
      if j :| 0 <= j < |after| && after[j].session == s && Live(after[j].status) && j < i {
        assert before[j] == after[j];
      }
      if j :| 0 <= j < |after| && after[j].session == s && after[j].status.Failed? && j < i {
        assert before[j] == after[j];
      }
    }

    method FinishTask(t: TaskId, row: Task)
      modifies this
      ensures View() == Finish(old(View()), t, row)
    {
      UpdateTask(t, row);
      MaybeCompleteSession(row.session);
    }

    method PauseForHuman(w: World, t: TaskId, row: Task, call: Option<CallId>)
      modifies this
      ensures View() == Hold(w, old(View()), t, row, call)
    {
      UpdateTask(t, row.(status := WaitingHuman, updatedAt := w.now));
      approvals := approvals + [Approval(t, call, Undecided, w.now + APPROVAL_SECONDS)];
    }

    // -------------------------------------------------------------------------------------------
    // fn_submit_result
    // -------------------------------------------------------------------------------------------

    /** When it raises (`ok` is false) the tables are left as they are at that point: undoing them is
        the caller's business. */
    method Submit(w: World, t: TaskId, payload: Payload) returns (ok: bool)
      modifies this
      ensures var spec := SubmitResult(cfg, w, old(View()), t, payload);
              ok == spec.Some? && (ok ==> View() == spec.value)
    {
      hide CloseSession, Act, Count;
      if t >= |tasks| || !tasks[t].status.Running? {
        return false;
      }
      var row := tasks[t];
      if !Active(cfg, w, row.agent) {
        Append(t, row.steps, ErrorRole, Text);
        FinishTask(t, FailedRow(row, w, "agent_inactive"));
        return true;
      }
      ok := true;
      match payload {
        case Unrecognized =>
          Append(t, row.steps, ErrorRole, Text);
          UpdateTask(t, Stepped(row, w));
        case Failure(message) =>
          Append(t, row.steps + 1, ErrorRole, Text);
          CountError(w, t, row, message);
        case ResultOf(role, content) =>
          Append(t, row.steps + 1, role, content);
          UpdateTask(t, Stepped(row, w));
        case LlmResponse(action) =>
          Append(t, row.steps + 1, AssistantRole, Text);
          ok := TakeAction(w, t, row, action);
      }
    }

    /** The error just logged fails the task if it was one too many. */
    method CountError(w: World, t: TaskId, row: Task, message: string)
      requires row.agent in cfg
      modifies this
      ensures View() == if Count(old(View()).logs, ErrorOf(t)) > cfg[row.agent].maxRetries
                        then Finish(old(View()), t, FailedRow(Stepped(row, w), w, message))
                        else SetTask(old(View()), t, Stepped(row, w))
    {
      hide CloseSession, Count;
      var errors := CountErrors(t);
      if errors > cfg[row.agent].maxRetries {
        FinishTask(t, FailedRow(Stepped(row, w), w, message));
      } else {
        UpdateTask(t, Stepped(row, w));
      }
    }

    method CountErrors(t: TaskId) returns (n: nat)
      ensures n == Count(logs, ErrorOf(t))
    {
      n := 0;
      var i := 0;
      while i < |logs|
        invariant i <= |logs| && n == Count(logs[..i], ErrorOf(t))
      {
        assert logs[..i + 1][..i] == logs[..i];
        if logs[i].task == t && logs[i].role.ErrorRole? {
          n := n + 1;
        }
        i := i + 1;
      }
      assert logs[..i] == logs;
    }

    method RefuseAction(w: World, t: TaskId, row: Task)
      modifies this
      ensures View() == Refuse(w, old(View()), t, row)
    {
      Append(t, row.steps + 1, ErrorRole, Text);
      UpdateTask(t, Stepped(row, w));
    }

    method TakeAction(w: World, t: TaskId, row: Task, action: Action) returns (ok: bool)
      requires row.agent in cfg
      modifies this
      ensures var spec := Act(cfg, w, old(View()), t, row, action);
              ok == spec.Some? && (ok ==> View() == spec.value)
    {
      hide CloseSession, OnChain, HasLiveChild;
      ok := true;
      match action {
        case Raises =>
          ok := false;
        case Refused =>
          RefuseAction(w, t, row);
        case Noted =>
          Append(t, row.steps + 1, AssistantRole, Text);
          UpdateTask(t, Stepped(row, w));
        case Enqueue(tool) =>
          calls := calls + [Call(t, ToolCall(tool), Waiting, w.now, None, 0, false)];
          UpdateTask(t, Stepped(row, w));
        case FinalAnswer(text) =>
          UpdateTask(t, Stepped(row, w).(status := Completed, output := Some(Answer(text))));
          if row.session < |sessions| {
            sessions := sessions[row.session := sessions[row.session].(finalAnswer := Some(text))];
          }
          MaybeCompleteSession(row.session);
        case AwaitHuman =>
          PauseForHuman(w, t, Stepped(row, w), None);
        case AwaitChildren =>
          if !HasLiveChild(tasks, t) {
            RefuseAction(w, t, row);
          } else {
            UpdateTask(t, Stepped(row, w).(status := WaitingChildren));
          }
        case Delegate(target, permitted, wait) =>
          DelegateTo(w, t, row, target, permitted, wait);
      }
    }

    /** The recursive `ancestors` query, as the walk it performs. */
    method AncestorHasAgent(t: TaskId, a: AgentId) returns (found: bool)
      ensures found == OnChain(tasks, t, a)
    {
      var at: Option<TaskId> := Some(t);
      while at.Some?
        invariant at.Some? ==> OnChain(tasks, t, a) == OnChain(tasks, at.value, a)
        invariant at.None? ==> !OnChain(tasks, t, a)
        decreases if at.Some? then at.value + 1 else 0
      {
        if at.value >= |tasks| { return false; }
        if tasks[at.value].agent == a { return true; }
        var p := tasks[at.value].parent;
        at := if p.Some? && p.value < at.value then p else None;
      }
      found := false;
    }

    method DelegateTo(w: World, t: TaskId, row: Task, target: AgentId, permitted: bool, wait: bool)
      requires row.agent in cfg
      modifies this
      ensures Act(cfg, w, old(View()), t, row, Delegate(target, permitted, wait)) == Some(View())
    {
      hide OnChain, CloseSession;
      var cycle := AncestorHasAgent(t, target);
      if !Active(cfg, w, target) || !permitted
         || row.depth + 1 > cfg[row.agent].maxDepth
         || cycle
         || Count(tasks, InSession(row.session)) >= cfg[row.agent].maxSessionTasks
      {
        RefuseAction(w, t, row);
        return;
      }
      var child := |tasks|;
      tasks := tasks + [Task(row.session, target, Some(t), row.depth + 1, Queued, 0, None, w.now, None, None, 0)];
      if wait {
        UpdateTask(t, Stepped(row, w));
      } else {
        UpdateTask(t, Stepped(row, w).(status := Completed, output := Some(Child(child))));
      }
    }

    // -------------------------------------------------------------------------------------------
    // fn_next_step and fn_dispatch_tasks
    // -------------------------------------------------------------------------------------------

    /** The task is already marked running when the prompt turns out not to build. */
    method NextTurn(w: World, t: TaskId, prompt: Prompt) returns (step: Step)
      modifies this
      ensures match NextStep(cfg, w, old(View()), t, prompt)
              case Raised => step.Raise?
              case NoCall(db) => step.Stop? && View() == db
              case CallLlm(db) => step.CallModel? && View() == db
    {
      hide CloseSession;
      if t >= |tasks| || !(tasks[t].status.Queued? || tasks[t].status.Running?) {
        return Raise;
      }
      ghost var before := View();
      var row := tasks[t];
      if row.status.Queued? {
        row := row.(status := Running, updatedAt := w.now,
                    startedAt := if row.startedAt.Some? then row.startedAt else Some(w.now));
        UpdateTask(t, row);
      }
      assert View() == SetTask(before, t, row);
      if !Active(cfg, w, row.agent) {
        GiveUp(w, t, row, "agent_inactive");
        assert before.tasks[t := row][t := FailedRow(row, w, "agent_inactive")] == before.tasks[t := FailedRow(row, w, "agent_inactive")];
        return Stop;
      }
      if row.steps >= cfg[row.agent].maxSteps {
        GiveUp(w, t, row, "max_steps");
        assert before.tasks[t := row][t := FailedRow(row, w, "max_steps")] == before.tasks[t := FailedRow(row, w, "max_steps")];
        return Stop;
      }
      if prompt.PromptFails? {
        return Raise;
      }
      if prompt.compactor.Some? && row.parent.None? && Active(cfg, w, prompt.compactor.value) {
        OpenSession(w, prompt.compactor.value, None);
        Append(|tasks| - 1, 1, UserRole, Text);
      }
      step := CallModel;
    }

    method GiveUp(w: World, t: TaskId, row: Task, reason: string)
      modifies this
      ensures View() == Finish(AppendLog(old(View()), t, row.steps, ErrorRole), t, FailedRow(row, w, reason))
    {
      Append(t, row.steps, ErrorRole, Text);
      FinishTask(t, FailedRow(row, w, reason));
    }

    method OpenSession(w: World, a: AgentId, schedule: Option<ScheduleId>)
      modifies this
      ensures View() == InsertSession(old(View()), w, a, schedule)
    {
      var s, t := |sessions|, |tasks|;
      sessions := sessions + [Session(a, schedule, Open, None)];
      tasks := tasks + [Task(s, a, None, 0, Queued, 0, None, w.now, None, None, 0)];
      Append(t, 0, UserRole, Text);
    }

    /** The loop body of `fn_dispatch_tasks`; `ok` is false when an exception leaves the function. */
    method DispatchTask(w: World, row: DispatchRow) returns (ok: bool, sent: nat)
      modifies this
      ensures var spec := DispatchOne(cfg, w, old(View()), row);
              ok == spec.Some? && (ok ==> spec.value == Dispatch(View(), sent))
    {
      hide SubmitResult, NextStep;
      ok, sent := true, 0;
      if row.task >= |tasks| || CapReached(cfg, tasks, row.task) {
        return;
      }
      var saved := View();
      var step := NextTurn(w, row.task, row.prompt);
      if step.Raise? {
        RollBack(saved);
        var retried := Submit(w, row.task, Failure(row.error));
        if !retried {
          RollBack(saved);
        }
      } else if step.CallModel? {
        if row.httpOk {
          calls := calls + [Call(row.task, Llm, Waiting, w.now, None, 0, false)];
          sent := 1;
        } else {
          ok := Submit(w, row.task, Failure(row.error));
        }
      }
    }

    /** The cursor's filter reads the tables as they were when the query started. */
    method DispatchTasks(w: World, rows: seq<DispatchRow>) returns (ok: bool, sent: nat)
      modifies this
      ensures var spec := DispatchRows(cfg, w, old(View()), rows, |rows|);
              ok == spec.Some? && (ok ==> spec.value == Dispatch(View(), sent))
    {
      hide DispatchOne, Dispatchable, FirstTime;
      var start := View();
      ok, sent := true, 0;
      var i := 0;
      while i < |rows|
        invariant i <= |rows|
        invariant var spec := DispatchRows(cfg, w, start, rows, i);
                  ok == spec.Some? && (ok ==> spec.value == Dispatch(View(), sent))
      {
        if ok && sent < DISPATCH_LIMIT && FirstTime(rows, i) && Dispatchable(start, rows[i].task) {
          var n;
          ok, n := DispatchTask(w, rows[i]);
          sent := sent + n;
        }
        i := i + 1;
      }
    }

    // -------------------------------------------------------------------------------------------
    // Claiming
    // -------------------------------------------------------------------------------------------

    /** `guard_queued_call` */
    method Guard(w: World, c: CallId, view: GuardView) returns (allowed: bool)
      modifies this
      ensures GuardCall(cfg, w, old(View()), c, view) == Guarded(allowed, View())
    {
      hide CloseSession, LatestApproval;
      if c >= |calls| || !calls[c].status.Waiting? {
        return false;
      }
      var call := calls[c];
      var t := call.task;
      if t >= |tasks| || !tasks[t].status.Running? {
        return false;
      }
      var row := tasks[t];
      if !Active(cfg, w, row.agent) || view.denied.Some? {
        UpdateCall(c, call.(status := Lost, updatedAt := w.now));
        Append(t, row.steps, ErrorRole, Text);
        FinishTask(t, FailedRow(row, w, if view.denied.Some? then view.denied.value else "agent_inactive"));
        return false;
      }
      var held := LatestApproval(approvals, t, c);
      if (view.approvalRule && Gateable(call.kind)) || held.Some? {
        if held.Some? && held.value < |approvals| && approvals[held.value].status.Approved?
           && approvals[held.value].expiresAt > w.now && view.sameSnapshot {
          return true;
        }
        if held.Some? && held.value < |approvals| {
          approvals := approvals[held.value := approvals[held.value].(status := Rejected)];
        }
        PauseForHuman(w, t, row, Some(c));
        return false;
      }
      return true;
    }

    method Claim(w: World, q: Queue, limit: int, rows: seq<ClaimRow>) returns (selected: nat)
      modifies this
      ensures ClaimRows(cfg, w, old(View()), q, limit, rows, |rows|) == Claimed(View(), selected)
    {
      hide GuardCall, Claimable;
      var start := View();
      selected := 0;
      var i := 0;
      while i < |rows|
        invariant i <= |rows|
        invariant ClaimRows(cfg, w, start, q, limit, rows, i) == Claimed(View(), selected)
      {
        if selected < ClaimLimit(limit) && Claimable(start, q, rows[i].call) {
          var c := rows[i].call;
          var allowed := Guard(w, c, rows[i].view);
          if allowed && c < |calls| {
            UpdateCall(c, calls[c].(status := InFlight, updatedAt := w.now));
          }
          selected := selected + 1;
        }
        i := i + 1;
      }
    }

    // -------------------------------------------------------------------------------------------
    // Completing
    // -------------------------------------------------------------------------------------------

    method ChargeSchedule(t: TaskId, cost: Option<real>)
      modifies this`schedules
      ensures View() == Charge(old(View()), t, cost)
    {
      var k := ScheduleOf(tasks, sessions, t);
      if cost.None? || k.None? || k.value >= |schedules| {
        return;
      }
      schedules := schedules[k.value := schedules[k.value].(spent := schedules[k.value].spent + cost.value)];
      var row := schedules[k.value];
      if row.maxCost.Some? && row.spent >= row.maxCost.value {
        schedules := schedules[k.value := row.(active := false)];
      }
    }

    /** The subtransaction around `fn_submit_result`: whatever it did is undone if it raises. */
    method DeliverResult(w: World, c: CallId, payload: Payload, fault: bool)
      requires c < |calls|
      modifies this
      ensures View() == Deliver(cfg, w, old(View()), c, payload, fault)
    {
      hide SubmitResult;
      var t := calls[c].task;
      if t >= |tasks| || !tasks[t].status.Running? {
        return;
      }
      UpdateCall(c, calls[c].(submits := calls[c].submits + 1));
      var saved := View();
      var ok := Submit(w, t, payload);
      if fault || !ok {
        RollBack(saved);
        UpdateCall(c, calls[c].(rolledBack := true));
      }
    }

    method Pause(w: World, c: CallId)
      requires c < |calls|
      modifies this
      ensures View() == PauseAmbiguous(w, old(View()), c)
    {
      var t := calls[c].task;
      UpdateCall(c, calls[c].(status := Lost, updatedAt := w.now));
      if t < |tasks| && tasks[t].status.Running? {
        var row := tasks[t];
        PauseForHuman(w, t, row, None);
        Append(t, row.steps, ErrorRole, Text);
      }
    }

    method CompleteCall(w: World, c: CallId, reply: Reply) returns (ok: bool)
      modifies this
      ensures var spec := Complete(cfg, w, old(View()), c, reply);
              ok == spec.Some? && (ok ==> View() == spec.value)
    {
      hide Deliver, PauseAmbiguous, Charge;
      if c >= |calls| {
        return false;
      }
      ok := true;
      var call := calls[c];
      if !call.status.InFlight? {
        return;
      }
      if Ambiguous(call.kind) && reply.unknown {
        Pause(w, c);
        return;
      }
      var cost := CostOf(call.kind, reply);
      UpdateCall(c, call.(status := Harvested, updatedAt := w.now, cost := cost));
      ChargeSchedule(call.task, cost);
      DeliverResult(w, c, PayloadOf(call.kind, reply), reply.fault);
    }

    // -------------------------------------------------------------------------------------------
    // fn_watchdog
    // -------------------------------------------------------------------------------------------

    method ReclaimCall(w: World, q: Queue, timeout: int, c: CallId, fault: bool)
      modifies this
      ensures View() == Reclaim(cfg, w, old(View()), q, timeout, c, fault)
    {
      hide Deliver, PauseAmbiguous;
      if c >= |calls| || QueueOf(calls[c].kind) != q || !calls[c].status.InFlight?
         || calls[c].updatedAt >= w.now - TimeoutOf(calls[c].kind, timeout) {
        return;
      }
      var call := calls[c];
      UpdateCall(c, call.(status := Lost, updatedAt := w.now));
      if Ambiguous(call.kind) && call.task < |tasks| && tasks[call.task].status.Running? {
        Pause(w, c);
      } else {
        DeliverResult(w, c, Failure(TimeoutMessage(call.kind)), fault);
      }
    }

    method ReclaimQueue(w: World, q: Queue, timeout: int, faults: set<CallId>)
      modifies this
      ensures View() == ReclaimCalls(cfg, w, old(View()), q, timeout, faults, |old(calls)|)
    {
      hide Reclaim;
      var n, i := |calls|, 0;
      while i < n
        invariant i <= n
        invariant View() == ReclaimCalls(cfg, w, old(View()), q, timeout, faults, i)
      {
        ReclaimCall(w, q, timeout, i, i in faults);
        i := i + 1;
      }
    }

    method ExpireApprovalRows(w: World)
      modifies this
      ensures View() == ExpireApprovals(w, old(View()), |old(approvals)|)
    {
      hide CloseSession;
      var n, i := |approvals|, 0;
      while i < n
        invariant i <= n
        invariant View() == ExpireApprovals(w, old(View()), i)
      {
        if i < |approvals| && approvals[i].status.Undecided? && approvals[i].expiresAt < w.now {
          var t := approvals[i].task;
          approvals := approvals[i := approvals[i].(status := Rejected)];
          if t < |tasks| && tasks[t].status.WaitingHuman? {
            var row := tasks[t];
            Append(t, row.steps + 1, OperatorRole, Text);
            FinishTask(t, FailedRow(Stepped(row, w), w, "approval_timeout"));
          }
        }
        i := i + 1;
      }
    }

    method ExpireTurnRow(w: World, t: TaskId)
      modifies this
      ensures View() == ExpireTurn(cfg, w, old(View()), t)
    {
      hide CloseSession, LoseCalls, TurnExpired;
      if t < |tasks| && TurnExpired(cfg, w, tasks[t]) {
        var row := tasks[t];
        Append(t, row.steps + 1, ErrorRole, Text);
        UpdateTask(t, FailedRow(Stepped(row, w), w, "turn_timeout"));
        calls := LoseCalls(w, calls, {t});
        MaybeCompleteSession(row.session);
      }
    }

    method ExpireTurnRows(w: World)
      modifies this
      ensures View() == ExpireTurns(cfg, w, old(View()), |old(tasks)|)
    {
      hide ExpireTurn;
      var n, i := |tasks|, 0;
      while i < n
        invariant i <= n
        invariant View() == ExpireTurns(cfg, w, old(View()), i)
      {
        ExpireTurnRow(w, i);
        i := i + 1;
      }
    }

    method WakeRows(w: World)
      modifies this
      ensures View() == WakeTasks(w, old(View()), |old(tasks)|)
    {
      hide HasLiveChild, ChildResults;
      var n, i := |tasks|, 0;
      while i < n
        invariant i <= n
        invariant View() == WakeTasks(w, old(View()), i)
      {
        if i < |tasks| && tasks[i].status.WaitingChildren? && !HasLiveChild(tasks, i) {
          var row := tasks[i];
          Append(i, row.steps + 1, FunctionRole, DelegateResults(ChildResults(tasks, i)));
          UpdateTask(i, Stepped(row, w).(status := Queued));
        }
        i := i + 1;
      }
    }

    method Sweep(w: World, timeout: int, faults: set<CallId>)
      modifies this
      ensures View() == Watchdog(cfg, w, old(View()), timeout, faults)
    {
      hide ReclaimCalls, ExpireApprovals, ExpireTurns, WakeTasks;
      ReclaimQueue(w, Outbound, timeout, faults);
      ReclaimQueue(w, SqlCalls, timeout, faults);
      ReclaimQueue(w, FunctionCalls, timeout, faults);
      ReclaimQueue(w, ProcedureCalls, timeout, faults);
      ExpireApprovalRows(w);
      ExpireTurnRows(w);
      WakeRows(w);
    }

    // -------------------------------------------------------------------------------------------
    // The operator's side
    // -------------------------------------------------------------------------------------------

    method StartSession(w: World, a: AgentId, schedule: Option<ScheduleId>) returns (ok: bool)
      modifies this
      ensures var spec := CreateSession(cfg, w, old(View()), a, schedule);
              ok == spec.Some? && (ok ==> View() == spec.value)
    {
      if !Active(cfg, w, a) { return false; }
      OpenSession(w, a, schedule);
      ok := true;
    }

    method FireSchedule(w: World, a: AgentId, k: ScheduleId, stopped: bool, last: bool, forced: bool) returns (ok: bool)
      modifies this
      ensures var spec := Fire(cfg, w, old(View()), a, k, stopped, last, forced);
              ok == spec.Some? && (ok ==> View() == spec.value)
    {
      if k >= |schedules| { return false; }
      if !schedules[k].active { return !forced; }
      if stopped || OverBudget(schedules[k]) {
        if forced { return false; }
        schedules := schedules[k := schedules[k].(active := false)];
        return true;
      }
      var saved := View();
      var created := StartSession(w, a, Some(k));
      if !created {
        RollBack(saved);
        return !forced;
      }
      schedules := schedules[k := schedules[k].(active := !last)];
      ok := true;
    }

    method UpdateSchedule(k: ScheduleId, edit: Edit) returns (ok: bool)
      modifies this`schedules
      ensures var spec := SetSchedule(old(View()), k, edit);
              ok == spec.Some? && (ok ==> View() == spec.value)
    {
      if k >= |schedules| || (edit.maxCost.Some? && edit.maxCost.value <= 0.0) { return false; }
      schedules := schedules[k := Edited(schedules[k], edit)];
      ok := true;
    }

    method Continue(w: World, s: SessionId) returns (ok: bool)
      modifies this
      ensures var spec := ContinueSession(cfg, w, old(View()), s);
              ok == spec.Some? && (ok ==> View() == spec.value)
    {
      if s >= |sessions| || !Active(cfg, w, sessions[s].agent) || HasLiveRoot(tasks, s) { return false; }
      sessions := sessions[s := sessions[s].(status := Open)];
      var t := |tasks|;
      tasks := tasks + [Task(s, sessions[s].agent, None, 0, Queued, 0, None, w.now, None, None, 0)];
      Append(t, 0, UserRole, Text);
      ok := true;
    }

    method DecideApproval(w: World, a: ApprovalId, accept: bool) returns (ok: bool)
      modifies this
      ensures var spec := Decide(w, old(View()), a, accept);
              ok == spec.Some? && (ok ==> View() == spec.value)
    {
      hide CloseSession;
      if a >= |approvals| || !approvals[a].status.Undecided? || approvals[a].expiresAt <= w.now { return false; }
      ok := true;
      var approval := approvals[a];
      var t := approval.task;
      approvals := approvals[a := approval.(status := if accept then Approved else Rejected)];
      if t >= |tasks| || !tasks[t].status.WaitingHuman? { return; }
      var row := tasks[t];
      Append(t, row.steps + 1, OperatorRole, Text);
      var after := Stepped(row, w).(decisions := row.decisions + 1);
      if accept {
        UpdateTask(t, after.(status := if approval.call.Some? then Running else Queued));
      } else {
        FinishTask(t, FailedRow(after, w, "human_rejected"));
      }
    }

    method Cancel(w: World, s: SessionId) returns (ok: bool)
      modifies this
      ensures var spec := CancelSession(w, old(View()), s);
              ok == spec.Some? && (ok ==> View() == spec.value)
    {
      hide LoseCalls, RejectApprovals, TasksOf;
      if s >= |sessions| { return false; }
      var n, i := |tasks|, 0;
      while i < n
        invariant i <= n
        invariant View() == CancelTasks(w, old(View()), s, i)
      {
        if i < |tasks| && tasks[i].session == s && Live(tasks[i].status) {
          var row := tasks[i];
          Append(i, row.steps + 1, OperatorRole, Text);
          UpdateTask(i, Stepped(row, w).(status := Cancelled, error := Some("operator_cancelled")));
        }
        i := i + 1;
      }
      var mine := TasksOf(tasks, s);
      calls := LoseCalls(w, calls, mine);
      approvals := RejectApprovals(approvals, mine);
      if s < |sessions| && sessions[s].status.Open? {
        sessions := sessions[s := sessions[s].(status := Stopped)];
      }
      ok := true;
    }

    // -------------------------------------------------------------------------------------------
    // One transaction
    // -------------------------------------------------------------------------------------------

    /** Runs one transaction and rolls all of it back if it raises. */
    method Execute(tx: Tx)
      requires Valid()
      modifies this
      ensures View() == Apply(cfg, old(View()), tx)
      ensures Valid()
    {
      hide Inv;
      ApplyKeeps(cfg, View(), tx);
      Run(tx);
    }

    method Run(tx: Tx)
      modifies this
      ensures View() == Apply(cfg, old(View()), tx)
    {
      hide CreateSession, Fire, SetSchedule, ContinueSession, DispatchRows, ClaimRows, Complete, Watchdog, Decide, CancelSession;
      var w := tx.world;
      var saved := View();
      var ok := true;
      match tx.event {
        case Created(a) => ok := StartSession(w, a, None);
        case Fired(a, k, stopped, last, forced) => ok := FireSchedule(w, a, k, stopped, last, forced);
        case ScheduleSet(k, edit) => ok := UpdateSchedule(k, edit);
        case Continued(s) => ok := Continue(w, s);
        case Dispatched(rows) =>
          var n;
          ok, n := DispatchTasks(w, rows);
        case ClaimedBy(q, limit, rows) =>
          var n := Claim(w, q, limit, rows);
        case CompletedBy(c, reply) => ok := CompleteCall(w, c, reply);
        case Swept(timeout, faults) => Sweep(w, timeout, faults);
        case Decided(a, accept) => ok := DecideApproval(w, a, accept);
        case CancelledBy(s) => ok := Cancel(w, s);
      }
      if !ok {
        RollBack(saved);
      }
    }
  }
}
