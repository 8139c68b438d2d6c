/** What one transaction does to the task it concerns, in the columns of the tables: how an error, an
    answer, a tool's result, an unknown result, an operator's decision and a dispatch each end. */
module Effects {
  import opened Tables
  import opened Transactions
  import opened Invariant
  import opened Preservation
  import opened Runs
  import opened Authorization
  import opened Delegation
  import Forward

  // ---------------------------------------------------------------------------------------------
  // Errors
  // ---------------------------------------------------------------------------------------------

  /** The error rows of a task. */
  function Errors(logs: seq<Log>, t: TaskId): set<nat> {
    set l | 0 <= l < |logs| && logs[l].task == t && logs[l].role.ErrorRole?
  }

  lemma {:induction false} CountIsSize(logs: seq<Log>, t: TaskId)
    ensures Count(logs, ErrorOf(t)) == |Errors(logs, t)|
  {
    if logs == [] {
      assert Errors(logs, t) == {};
    } else {
      var n := |logs| - 1;
      CountIsSize(logs[..n], t);
      var last := if ErrorOf(t)(logs[n]) then {n} else {};
      assert Errors(logs, t) == Errors(logs[..n], t) + last;
    }
  }

  lemma ErrorsFrame(logs: seq<Log>, later: seq<Log>, t: TaskId)
    requires logs <= later && forall l :: |logs| <= l < |later| ==> later[l].task != t
    ensures Errors(later, t) == Errors(logs, t)
  {
  }

  lemma OneMoreError(logs: seq<Log>, t: TaskId, step: nat)
    ensures |Errors(logs + [Log(t, step, ErrorRole, Text)], t)| == |Errors(logs, t)| + 1
  {
    var more := logs + [Log(t, step, ErrorRole, Text)];
    assert Errors(more, t) == Errors(logs, t) + {|logs|};
  }

  /** Nothing but the row of task `t`, the log and its session is different. */
  predicate OnlyTask(db: Db, next: Db, t: TaskId) {
    && |next.tasks| == |db.tasks| && next.calls == db.calls && next.approvals == db.approvals && next.schedules == db.schedules
    && forall u :: 0 <= u < |db.tasks| && u != t ==> next.tasks[u] == db.tasks[u]
  }

  /** What an error does to a running task: one more error row, one more step, and the task has failed
      with it exactly when its error rows exceed the retries of its agent. */
  ghost predicate ErrorCounted(cfg: Config, db: Db, next: Db, t: TaskId, message: string)
    requires t < |db.tasks| && db.tasks[t].agent in cfg
  {
    var row := db.tasks[t];
    && t < |next.tasks|
    && next.logs == db.logs + [Log(t, row.steps + 1, ErrorRole, Text)]
    && next.tasks[t].steps == row.steps + 1
    && (next.tasks[t].status.Failed? <==> |Errors(next.logs, t)| > cfg[row.agent].maxRetries)
    && (if next.tasks[t].status.Failed? then next.tasks[t].error == Some(message) else next.tasks[t].status.Running? && next.tasks[t].error == row.error)
  }

  lemma FailureOutcome(cfg: Config, w: World, db: Db, t: TaskId, message: string)
    requires IsRunning(db, t) && Active(cfg, w, db.tasks[t].agent)
    ensures var next := SubmitResult(cfg, w, db, t, Failure(message));
            next.Some? && ErrorCounted(cfg, db, next.value, t, message) && OnlyTask(db, next.value, t)
  {
    hide HasLive, HasFailed, LatestRoot, Count;
    CountIsSize(db.logs + [Log(t, db.tasks[t].steps + 1, ErrorRole, Text)], t);
  }

  // ---------------------------------------------------------------------------------------------
  // Completions
  // ---------------------------------------------------------------------------------------------

  /** The database in which a completed call is submitted: harvested, charged and noted. */
  function Settled(db: Db, w: World, c: CallId, reply: Reply): Db
    requires c < |db.calls|
  {
    var call := db.calls[c];
    var cost := CostOf(call.kind, reply);
    var charged := Charge(SetCall(db, c, call.(status := Harvested, updatedAt := w.now, cost := cost)), call.task, cost);
    SetCall(charged, c, charged.calls[c].(submits := call.submits + 1))
  }

  lemma SettledRows(db: Db, w: World, c: CallId, reply: Reply)
    requires c < |db.calls|
    ensures var noted := Settled(db, w, c, reply);
            && noted.tasks == db.tasks && noted.logs == db.logs && noted.approvals == db.approvals && noted.sessions == db.sessions
            && noted.calls == db.calls[c := db.calls[c].(status := Harvested, updatedAt := w.now, cost := CostOf(db.calls[c].kind, reply),
                                                         submits := db.calls[c].submits + 1)]
  {
  }

  /** A worker's report of an outside change that may or may not have been made. */
  predicate Unknown(call: Call, reply: Reply) {
    reply.unknown && (call.kind == ToolCall(Mcp) || call.kind == ToolCall(HttpFunction(true)))
  }

  /** The completion of a call in flight of a running task, when its submission does not raise. */
  lemma Submitted(cfg: Config, w: World, db: Db, c: CallId, reply: Reply)
    requires c < |db.calls| && db.calls[c].status.InFlight? && !Unknown(db.calls[c], reply)
    requires !reply.fault && IsRunning(db, db.calls[c].task)
    ensures var next := SubmitResult(cfg, w, Settled(db, w, c, reply), db.calls[c].task, PayloadOf(db.calls[c].kind, reply));
            next.Some? ==> Apply(cfg, db, Tx(w, CompletedBy(c, reply))) == next.value
  {
    hide SubmitResult, Charge, PayloadOf, CostOf;
    var cost := CostOf(db.calls[c].kind, reply);
    ChargeRows(SetCall(db, c, db.calls[c].(status := Harvested, updatedAt := w.now, cost := cost)), db.calls[c].task, cost);
  }

  lemma ChargeRows(db: Db, t: TaskId, cost: Option<real>)
    ensures var next := Charge(db, t, cost); next.tasks == db.tasks && next.calls == db.calls && next.logs == db.logs
  {
  }

  lemma SameCounting(cfg: Config, db: Db, noted: Db, next: Db, t: TaskId, message: string)
    requires t < |db.tasks| && db.tasks[t].agent in cfg && noted.tasks == db.tasks && noted.logs == db.logs
    ensures ErrorCounted(cfg, noted, next, t, message) <==> ErrorCounted(cfg, db, next, t, message)
  {
  }

  lemma SessionOpen(cfg: Config, db: Db, s: SessionId)
    requires Inv(cfg, db) && s < |db.sessions|
    ensures db.sessions[s].status.Open? <==> HasLive(db.tasks, s)
  {
  }

  /** A completion keeps all tasks but its own, and all calls but the one that is completed. */
  ghost predicate Completes(db: Db, next: Db, c: CallId)
    requires c < |db.calls|
  {
    && |db.calls| <= |next.calls| && next.calls[c].status.Harvested? && next.calls[c].submits == db.calls[c].submits + 1
    && (forall d :: 0 <= d < |db.calls| && d != c ==> next.calls[d] == db.calls[d])
    && |db.tasks| <= |next.tasks|
    && (forall u :: 0 <= u < |db.tasks| && u != db.calls[c].task ==> next.tasks[u] == db.tasks[u])
  }

  lemma SubmittedCompletes(cfg: Config, w: World, db: Db, c: CallId, reply: Reply)
    requires c < |db.calls| && db.calls[c].status.InFlight? && !Unknown(db.calls[c], reply)
    requires !reply.fault && IsRunning(db, db.calls[c].task)
    requires SubmitResult(cfg, w, Settled(db, w, c, reply), db.calls[c].task, PayloadOf(db.calls[c].kind, reply)).Some?
    ensures Completes(db, Apply(cfg, db, Tx(w, CompletedBy(c, reply))), c)
  {
    hide SubmitResult, Charge, PayloadOf, Apply, Settled;
    Submitted(cfg, w, db, c, reply);
    SettledRows(db, w, c, reply);
    SubmitConcerns(cfg, w, Settled(db, w, c, reply), db.calls[c].task, PayloadOf(db.calls[c].kind, reply));
  }

  /** A call whose result is an error: a model call, or a tool other than an HTTP request, that went
      wrong. The error is counted, and the session is closed if nothing in it is live any more. */
  lemma ErrorOutcome(cfg: Config, w: World, db: Db, c: CallId, reply: Reply)
    requires Inv(cfg, db) && c < |db.calls| && db.calls[c].status.InFlight? && !Unknown(db.calls[c], reply)
    requires !(db.calls[c].kind.ToolCall? && db.calls[c].kind.tool.HttpFunction?)
    requires !reply.ok && !reply.fault && IsRunning(db, db.calls[c].task) && Active(cfg, w, db.tasks[db.calls[c].task].agent)
    ensures var t := db.calls[c].task;
            var next := Apply(cfg, db, Tx(w, CompletedBy(c, reply)));
            && ErrorCounted(cfg, db, next, t, reply.message) && Completes(db, next, c)
            && |next.calls| == |db.calls| && |next.tasks| == |db.tasks| && next.calls[c].cost.None?
            && db.tasks[t].session < |next.sessions|
            && (next.sessions[db.tasks[t].session].status.Open? <==> HasLive(next.tasks, db.tasks[t].session))
  {
    hide Inv, SubmitResult, ErrorCounted, HasLive, Apply, Settled, Completes;
    var t := db.calls[c].task;
    var noted := Settled(db, w, c, reply);
    var next := Apply(cfg, db, Tx(w, CompletedBy(c, reply)));
    SettledRows(db, w, c, reply);
    FailureOutcome(cfg, w, noted, t, reply.message);
    Submitted(cfg, w, db, c, reply);
    SubmittedCompletes(cfg, w, db, c, reply);
    SameCounting(cfg, db, noted, next, t, reply.message);
    ClosedWithoutLive(cfg, db, Tx(w, CompletedBy(c, reply)), t);
  }

  lemma ClosedWithoutLive(cfg: Config, db: Db, tx: Tx, t: TaskId)
    requires Inv(cfg, db) && t < |db.tasks|
    ensures var next := Apply(cfg, db, tx);
            && db.tasks[t].session < |next.sessions|
            && (next.sessions[db.tasks[t].session].status.Open? <==> HasLive(next.tasks, db.tasks[t].session))
  {
    hide HasLive, Apply, ForestOk, RowsOk, CallsOk, OnePending, ApprovalsOk, WaitersAsked, BudgetsOk, SpendOk, SlotsOk, Forward.TaskForward;
    ApplyKeeps(cfg, db, tx);
    Forward.ApplyForward(cfg, db, tx);
    SessionOpen(cfg, Apply(cfg, db, tx), db.tasks[t].session);
  }

  /** A tool's result: an HTTP request always brings one, any other tool only when it went well. */
  lemma ResultOutcome(cfg: Config, w: World, db: Db, c: CallId, reply: Reply)
    requires c < |db.calls| && db.calls[c].status.InFlight? && !Unknown(db.calls[c], reply) && db.calls[c].kind.ToolCall?
    requires db.calls[c].kind.tool.HttpFunction? || reply.ok
    requires !reply.fault && IsRunning(db, db.calls[c].task) && Active(cfg, w, db.tasks[db.calls[c].task].agent)
    ensures var t, row := db.calls[c].task, db.tasks[db.calls[c].task];
            var next := Apply(cfg, db, Tx(w, CompletedBy(c, reply)));
            && Completes(db, next, c) && |next.calls| == |db.calls| && |next.tasks| == |db.tasks|
            && next.tasks[t] == row.(steps := row.steps + 1, updatedAt := w.now)
            && next.logs == db.logs + [Log(t, row.steps + 1, if db.calls[c].kind.tool.Procedure? then ProcedureRole else FunctionRole, reply.content)]
            && next.approvals == db.approvals
  {
    hide Apply, Settled, Completes;
    SettledRows(db, w, c, reply);
    Submitted(cfg, w, db, c, reply);
    SubmittedCompletes(cfg, w, db, c, reply);
  }

  /** The agent may delegate to `target`: it is active and permitted, and neither the depth of the chain,
      an agent already on it nor the number of tasks in the session stands against it. */
  ghost predicate MayDelegate(cfg: Config, w: World, db: Db, t: TaskId, target: AgentId, permitted: bool)
    requires t < |db.tasks| && db.tasks[t].agent in cfg
  {
    var row := db.tasks[t];
    && target in w.active && target in cfg && permitted
    && row.depth < cfg[row.agent].maxDepth
    && !HasAgent(db.tasks, Ancestors(db.tasks, t), target)
    && Count(db.tasks, InSession(row.session)) < cfg[row.agent].maxSessionTasks
  }

  /** What an answer of the model leads to: the task's row, the log, and what is new in the other
      tables. */
  ghost predicate Answered(cfg: Config, w: World, db: Db, next: Db, t: TaskId, action: Action)
    requires t < |db.tasks| && db.tasks[t].agent in cfg
  {
    var row := db.tasks[t];
    var step := row.(steps := row.steps + 1, updatedAt := w.now);
    var said := [Log(t, row.steps + 1, AssistantRole, Text)];
    var wrong := [Log(t, row.steps + 1, ErrorRole, Text)];
    && t < |next.tasks|
    && match action
       case Raises => false
       case FinalAnswer(text) =>
         && next.tasks == db.tasks[t := step.(status := Completed, output := Some(Answer(text)))]
         && next.logs == db.logs + said && |next.calls| == |db.calls| && next.approvals == db.approvals
       case Enqueue(tool) =>
         && next.tasks == db.tasks[t := step]
         && next.logs == db.logs + said && next.approvals == db.approvals
         && |next.calls| == |db.calls| + 1
         && next.calls[|db.calls|] == Call(t, ToolCall(tool), Waiting, w.now, None, 0, false)
       case Delegate(target, permitted, wait) =>
         && |next.calls| == |db.calls| && next.approvals == db.approvals
         && if MayDelegate(cfg, w, db, t, target, permitted) then
              && next.logs == db.logs + said
              && next.tasks == db.tasks[t := if wait then step else step.(status := Completed, output := Some(Child(|db.tasks|)))]
                               + [Task(row.session, target, Some(t), row.depth + 1, Queued, 0, None, w.now, None, None, 0)]
            else next.tasks == db.tasks[t := step] && next.logs == db.logs + said + wrong
       case AwaitHuman =>
         && next.tasks == db.tasks[t := step.(status := WaitingHuman)]
         && next.logs == db.logs + said && |next.calls| == |db.calls|
         && next.approvals == db.approvals + [Approval(t, None, Undecided, w.now + 24 * 60 * 60)]
       case AwaitChildren =>
         && |next.calls| == |db.calls| && next.approvals == db.approvals
         && if exists u :: 0 <= u < |db.tasks| && db.tasks[u].parent == Some(t) && Live(db.tasks[u].status)
            then next.tasks == db.tasks[t := step.(status := WaitingChildren)] && next.logs == db.logs + said
            else next.tasks == db.tasks[t := step] && next.logs == db.logs + said + wrong
       case Noted =>
         && next.tasks == db.tasks[t := step] && |next.calls| == |db.calls| && next.approvals == db.approvals
         && next.logs == db.logs + said + said
       case Refused =>
         && next.tasks == db.tasks[t := step] && |next.calls| == |db.calls| && next.approvals == db.approvals
         && next.logs == db.logs + said + wrong
  }

  lemma SubmitAnswer(cfg: Config, w: World, db: Db, t: TaskId, action: Action)
    requires ForestOk(cfg, db.tasks) && IsRunning(db, t) && Active(cfg, w, db.tasks[t].agent)
    ensures var next := SubmitResult(cfg, w, db, t, LlmResponse(action));
            && (next.Some? <==> !action.Raises?)
            && (next.Some? ==> Answered(cfg, w, db, next.value, t, action))
  {
    hide HasLive, HasFailed, LatestRoot, Count, OnChain, HasAgent, ForestOk;
    if action.Delegate? {
      OnChainMeans(cfg, db.tasks, t, action.target);
    }
  }

  lemma SameAnswer(cfg: Config, w: World, db: Db, noted: Db, next: Db, t: TaskId, action: Action)
    requires t < |db.tasks| && db.tasks[t].agent in cfg
    requires noted.tasks == db.tasks && noted.logs == db.logs && noted.approvals == db.approvals && |noted.calls| == |db.calls|
    ensures Answered(cfg, w, noted, next, t, action) <==> Answered(cfg, w, db, next, t, action)
  {
    hide HasAgent, Count;
  }

  /** A model's answer, as the completion of its call. */
  lemma AnswerOutcome(cfg: Config, w: World, db: Db, c: CallId, reply: Reply)
    requires Inv(cfg, db) && c < |db.calls| && db.calls[c].status.InFlight? && db.calls[c].kind.Llm?
    requires reply.ok && !reply.fault && !reply.action.Raises?
    requires IsRunning(db, db.calls[c].task) && Active(cfg, w, db.tasks[db.calls[c].task].agent)
    ensures var t := db.calls[c].task;
            var next := Apply(cfg, db, Tx(w, CompletedBy(c, reply)));
            && Answered(cfg, w, db, next, t, reply.action) && Completes(db, next, c)
            && db.tasks[t].session < |next.sessions|
            && (next.sessions[db.tasks[t].session].status.Open? <==> HasLive(next.tasks, db.tasks[t].session))
  {
    assert ForestOk(cfg, db.tasks);
    hide Inv, ForestOk, SubmitResult, Answered, HasLive, Apply, Settled, Completes;
    var t := db.calls[c].task;
    var noted := Settled(db, w, c, reply);
    SettledRows(db, w, c, reply);
    SubmitAnswer(cfg, w, noted, t, reply.action);
    Submitted(cfg, w, db, c, reply);
    SubmittedCompletes(cfg, w, db, c, reply);
    SameAnswer(cfg, w, db, noted, Apply(cfg, db, Tx(w, CompletedBy(c, reply))), t, reply.action);
    ClosedWithoutLive(cfg, db, Tx(w, CompletedBy(c, reply)), t);
  }

  /** A submission that raises is undone alone; what the call brought stays harvested. */
  lemma RaisedOutcome(cfg: Config, w: World, db: Db, c: CallId, reply: Reply)
    requires c < |db.calls| && db.calls[c].status.InFlight? && !Unknown(db.calls[c], reply) && IsRunning(db, db.calls[c].task)
    requires reply.fault || (db.calls[c].kind.Llm? && reply.ok && reply.action.Raises? && Active(cfg, w, db.tasks[db.calls[c].task].agent))
    ensures var next := Apply(cfg, db, Tx(w, CompletedBy(c, reply)));
            && next.tasks == db.tasks && next.logs == db.logs && next.approvals == db.approvals && next.sessions == db.sessions
            && |next.calls| == |db.calls| && next.calls[c].status.Harvested? && next.calls[c].rolledBack
            && next.calls[c].submits == db.calls[c].submits + 1
  {
    hide Charge, CostOf, HasLive, HasFailed, LatestRoot, Count;
    var cost := CostOf(db.calls[c].kind, reply);
    var harvested := SetCall(db, c, db.calls[c].(status := Harvested, updatedAt := w.now, cost := cost));
    ChargeRows(harvested, db.calls[c].task, cost);
    ChargeKeeps(harvested, db.calls[c].task, cost);
  }

  lemma ChargeKeeps(db: Db, t: TaskId, cost: Option<real>)
    ensures var next := Charge(db, t, cost); next.approvals == db.approvals && next.sessions == db.sessions
  {
  }

  /** Whatever a worker brings to a task whose agent has been switched off ends that task. */
  lemma InactiveOutcome(cfg: Config, w: World, db: Db, c: CallId, reply: Reply)
    requires Inv(cfg, db) && c < |db.calls| && db.calls[c].status.InFlight? && !Unknown(db.calls[c], reply)
    requires !reply.fault && IsRunning(db, db.calls[c].task) && !Active(cfg, w, db.tasks[db.calls[c].task].agent)
    ensures var t, row := db.calls[c].task, db.tasks[db.calls[c].task];
            var next := Apply(cfg, db, Tx(w, CompletedBy(c, reply)));
            && Completes(db, next, c) && |next.calls| == |db.calls| && |next.tasks| == |db.tasks|
            && next.tasks[t] == row.(status := Failed, error := Some("agent_inactive"), updatedAt := w.now)
            && next.logs == db.logs + [Log(t, row.steps, ErrorRole, Text)]
            && row.session < |next.sessions|
            && (next.sessions[row.session].status.Open? <==> HasLive(next.tasks, row.session))
  {
    hide Inv, Apply, Settled, Completes, HasLive, HasFailed, LatestRoot, Act, PayloadOf;
    SettledRows(db, w, c, reply);
    Submitted(cfg, w, db, c, reply);
    SubmittedCompletes(cfg, w, db, c, reply);
    ClosedWithoutLive(cfg, db, Tx(w, CompletedBy(c, reply)), db.calls[c].task);
  }

  /** And a result for a task that is not running any more changes nothing but its call. */
  lemma DiscardedOutcome(cfg: Config, w: World, db: Db, c: CallId, reply: Reply)
    requires c < |db.calls| && db.calls[c].status.InFlight? && !Unknown(db.calls[c], reply) && !IsRunning(db, db.calls[c].task)
    ensures var next := Apply(cfg, db, Tx(w, CompletedBy(c, reply)));
            && next.tasks == db.tasks && next.logs == db.logs && next.approvals == db.approvals && next.sessions == db.sessions
            && |next.calls| == |db.calls| && next.calls[c].status.Harvested? && next.calls[c].submits == db.calls[c].submits
            && (forall d :: 0 <= d < |db.calls| && d != c ==> next.calls[d] == db.calls[d])
  {
    hide Charge, CostOf, SubmitResult;
    var cost := CostOf(db.calls[c].kind, reply);
    var harvested := SetCall(db, c, db.calls[c].(status := Harvested, updatedAt := w.now, cost := cost));
    ChargeRows(harvested, db.calls[c].task, cost);
    ChargeKeeps(harvested, db.calls[c].task, cost);
  }

  /** An unknown result stops for a human: the call is lost and never submitted, and a running task waits
      for an operator where it was. */
  lemma UnknownOutcome(cfg: Config, w: World, db: Db, c: CallId, reply: Reply)
    requires c < |db.calls| && db.calls[c].status.InFlight? && Unknown(db.calls[c], reply)
    ensures var t := db.calls[c].task;
            var next := Apply(cfg, db, Tx(w, CompletedBy(c, reply)));
            && next.calls == db.calls[c := db.calls[c].(status := Lost, updatedAt := w.now)]
            && next.sessions == db.sessions && next.schedules == db.schedules
            && (if IsRunning(db, t)
                then
                  && next.tasks == db.tasks[t := db.tasks[t].(status := WaitingHuman, updatedAt := w.now)]
                  && next.approvals == db.approvals + [Approval(t, None, Undecided, w.now + 24 * 60 * 60)]
                  && next.logs == db.logs + [Log(t, db.tasks[t].steps, ErrorRole, Text)]
                else next.tasks == db.tasks && next.approvals == db.approvals && next.logs == db.logs)
  {
  }

  /** So a completion in flight loses its call exactly when its result is unknown. */
  lemma LostExactlyWhenUnknown(cfg: Config, w: World, db: Db, c: CallId, reply: Reply)
    requires c < |db.calls| && db.calls[c].status.InFlight?
    ensures var next := Apply(cfg, db, Tx(w, CompletedBy(c, reply)));
            && c < |next.calls|
            && (Unknown(db.calls[c], reply) ==> next.calls[c].status.Lost?)
            && (!Unknown(db.calls[c], reply) ==> next.calls[c].status.Harvested?)
  {
    hide SubmitResult, Charge, CostOf;
    if !Unknown(db.calls[c], reply) {
      var cost := CostOf(db.calls[c].kind, reply);
      var harvested := SetCall(db, c, db.calls[c].(status := Harvested, updatedAt := w.now, cost := cost));
      ChargeRows(harvested, db.calls[c].task, cost);
      var charged := Charge(harvested, db.calls[c].task, cost);
      var noted := SetCall(charged, c, charged.calls[c].(submits := charged.calls[c].submits + 1));
      SubmitConcerns(cfg, w, noted, db.calls[c].task, PayloadOf(db.calls[c].kind, reply));
    }
  }

  /** A payload of no known kind is logged where the task is, and costs a step. */
  lemma RejectedPayloadOutcome(cfg: Config, w: World, db: Db, t: TaskId)
    requires IsRunning(db, t) && Active(cfg, w, db.tasks[t].agent)
    ensures var row := db.tasks[t];
            var next := SubmitResult(cfg, w, db, t, Unrecognized);
            && next.Some? && OnlyTask(db, next.value, t)
            && next.value.tasks[t] == row.(steps := row.steps + 1, updatedAt := w.now)
            && next.value.logs == db.logs + [Log(t, row.steps, ErrorRole, Text)]
  {
  }

  /** What a priced answer costs is recorded on its call and charged to the schedule its session belongs to,
      which is switched off exactly when that reaches its budget. Nothing else is ever charged. */
  lemma ChargeOutcome(cfg: Config, w: World, db: Db, c: CallId, reply: Reply)
    requires Inv(cfg, db) && c < |db.calls| && db.calls[c].status.InFlight?
    ensures db.calls[c].task < |db.tasks| && db.tasks[db.calls[c].task].session < |db.sessions|
    ensures var k := db.sessions[db.tasks[db.calls[c].task].session].schedule;
            var priced := db.calls[c].kind.Llm? && reply.ok && reply.cost.Some?;
            var next := Apply(cfg, db, Tx(w, CompletedBy(c, reply)));
            && c < |next.calls| && next.calls[c].cost == (if priced then reply.cost else None)
            && (k.Some? ==> k.value < |db.schedules|)
            && next.schedules == if !priced || k.None? then db.schedules
                                 else db.schedules[k.value := Charged(db.schedules[k.value], reply.cost.value)]
  {
    hide Inv, Apply, CostOf, Charge, Charged;
    CallHasSession(cfg, db, c);
    CostIsPriced(db.calls[c].kind, reply);
    if Unknown(db.calls[c], reply) {
      UnknownOutcome(cfg, w, db, c, reply);
    } else {
      var call := db.calls[c];
      var harvested := SetCall(db, c, call.(status := Harvested, updatedAt := w.now, cost := CostOf(call.kind, reply)));
      ChargeRows(harvested, call.task, CostOf(call.kind, reply));
      ChargeExactly(harvested, call.task, CostOf(call.kind, reply));
      DeliveredCharges(cfg, w, db, c, reply);
    }
  }

  lemma DeliveredCharges(cfg: Config, w: World, db: Db, c: CallId, reply: Reply)
    requires c < |db.calls| && db.calls[c].status.InFlight? && !Unknown(db.calls[c], reply)
    ensures var call := db.calls[c];
            var charged := Charge(SetCall(db, c, call.(status := Harvested, updatedAt := w.now, cost := CostOf(call.kind, reply))),
                                  call.task, CostOf(call.kind, reply));
            var next := Apply(cfg, db, Tx(w, CompletedBy(c, reply)));
            && c < |charged.calls| && c < |next.calls|
            && next.calls[c].cost == charged.calls[c].cost && next.schedules == charged.schedules
  {
    hide Deliver, CostOf, Charge, PayloadOf;
    var call := db.calls[c];
    var harvested := SetCall(db, c, call.(status := Harvested, updatedAt := w.now, cost := CostOf(call.kind, reply)));
    ChargeRows(harvested, call.task, CostOf(call.kind, reply));
    DeliverKeepsCharges(cfg, w, Charge(harvested, call.task, CostOf(call.kind, reply)), c, PayloadOf(call.kind, reply), reply.fault);
  }

  lemma CostIsPriced(kind: CallKind, reply: Reply)
    ensures CostOf(kind, reply) == if kind.Llm? && reply.ok && reply.cost.Some? then reply.cost else None
  {
  }

  lemma ChargeExactly(db: Db, t: TaskId, cost: Option<real>)
    requires t < |db.tasks| && db.tasks[t].session < |db.sessions|
    requires var k := db.sessions[db.tasks[t].session].schedule; k.Some? ==> k.value < |db.schedules|
    ensures var k := db.sessions[db.tasks[t].session].schedule;
            Charge(db, t, cost).schedules == if cost.None? || k.None? then db.schedules
                                             else db.schedules[k.value := Charged(db.schedules[k.value], cost.value)]
  {
  }

  lemma DeliverKeepsCharges(cfg: Config, w: World, db: Db, c: CallId, payload: Payload, fault: bool)
    requires c < |db.calls|
    ensures var next := Deliver(cfg, w, db, c, payload, fault);
            c < |next.calls| && next.calls[c].cost == db.calls[c].cost && next.schedules == db.schedules
  {
    hide SubmitResult;
    var noted := SetCall(db, c, db.calls[c].(submits := db.calls[c].submits + 1));
    SubmitConcerns(cfg, w, noted, db.calls[c].task, payload);
    SubmitKeepsSchedules(cfg, w, noted, db.calls[c].task, payload);
  }

  function Charged(s: Schedule, cost: real): Schedule {
    s.(spent := s.spent + cost, active := s.active && (s.maxCost.Some? ==> s.spent + cost < s.maxCost.value))
  }

  lemma CallHasSession(cfg: Config, db: Db, c: CallId)
    requires Inv(cfg, db) && c < |db.calls|
    ensures db.calls[c].task < |db.tasks| && db.tasks[db.calls[c].task].session < |db.sessions|
    ensures var k := db.sessions[db.tasks[db.calls[c].task].session].schedule; k.Some? ==> k.value < |db.schedules|
    ensures db.calls[c].cost.Some? ==> db.calls[c].status.Harvested?
  {
    assert CallOk(db.calls[c]);
  }

  lemma SubmitKeepsSchedules(cfg: Config, w: World, db: Db, t: TaskId, payload: Payload)
    ensures var next := SubmitResult(cfg, w, db, t, payload); next.Some? ==> next.value.schedules == db.schedules
  {
    hide OnChain, HasLive, HasFailed, HasLiveChild, LatestRoot, Count;
  }
}
