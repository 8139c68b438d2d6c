/** The task protocol's SQL functions as functions on the tables. A transaction is atomic, so each
    one maps a whole database to the next; where the source raises, the result is `None` and the
    caller decides what is rolled back.

    What the control plane cannot know in advance is an input: what the model answered, what a worker
    reports, whether a permission or URL check passes, whether a subtransaction fails. */
module Transactions {
  import opened Tables

  const APPROVAL_SECONDS := 86400
  const DISPATCH_LIMIT := 4

  /** What one model response asks for, after `fn_submit_result` has parsed and validated it.
      `Refused` stands for every branch that only logs an error and lets the model try again
      (unknown action, missing answer, denied permission, rejected SQL or URL); `Noted` for every
      branch that only logs what it did (memories, proposals, fixes); `Raises` for a failing cast. */
  datatype Action =
    | FinalAnswer(text: string)
    | Enqueue(tool: Tool)
    | Delegate(target: AgentId, permitted: bool, wait: bool)
    | AwaitHuman
    | AwaitChildren
    | Noted
    | Refused
    | Raises

  datatype Payload =
    | LlmResponse(action: Action)
    | ResultOf(role: Role, content: Note)
    | Failure(message: string)
    | Unrecognized

  // ---------------------------------------------------------------------------------------------
  // Row operations
  // ---------------------------------------------------------------------------------------------

  function SetTask(db: Db, t: TaskId, row: Task): Db {
    if t < |db.tasks| then db.(tasks := db.tasks[t := row]) else db
  }

  function SetCall(db: Db, c: CallId, row: Call): Db {
    if c < |db.calls| then db.(calls := db.calls[c := row]) else db
  }

  /** `append_log` */
  function AppendLog(db: Db, t: TaskId, step: nat, role: Role, note: Note := Text): Db {
    db.(logs := db.logs + [Log(t, step, role, note)])
  }

  function InsertCall(db: Db, w: World, t: TaskId, kind: CallKind): Db {
    db.(calls := db.calls + [Call(t, kind, Waiting, w.now, None, 0, false)])
  }

  predicate IsRunning(db: Db, t: TaskId) {
    t < |db.tasks| && db.tasks[t].status.Running?
  }

  function Stepped(row: Task, w: World): Task {
    row.(steps := row.steps + 1, updatedAt := w.now)
  }

  function FailedRow(row: Task, w: World, error: string): Task {
    row.(status := Failed, error := Some(error), updatedAt := w.now)
  }

  /** `maybe_complete_session` */
  function CloseSession(db: Db, s: SessionId): Db {
    if s >= |db.sessions| || HasLive(db.tasks, s) || !db.sessions[s].status.Open? then db
    else
      var answer := AnswerOf(LatestRoot(db.tasks, s));
      var row := db.sessions[s];
      if HasFailed(db.tasks, s) && answer.None?
      then db.(sessions := db.sessions[s := row.(status := Broken)])
      else db.(sessions := db.sessions[s :=
        row.(status := Done, finalAnswer := if answer.Some? then answer else row.finalAnswer)])
  }

  /** Moves a task to a terminal row and closes its session if that was the last live task. */
  function Finish(db: Db, t: TaskId, row: Task): Db {
    CloseSession(SetTask(db, t, row), row.session)
  }

  // ---------------------------------------------------------------------------------------------
  // fn_submit_result
  // ---------------------------------------------------------------------------------------------

  function SubmitResult(cfg: Config, w: World, db: Db, t: TaskId, payload: Payload): Option<Db> {
    if !IsRunning(db, t) then None
    else
      var row := db.tasks[t];
      if !Active(cfg, w, row.agent) then
        Some(Finish(AppendLog(db, t, row.steps, ErrorRole), t, FailedRow(row, w, "agent_inactive")))
      else match payload
        case Unrecognized =>
          Some(SetTask(AppendLog(db, t, row.steps, ErrorRole), t, Stepped(row, w)))
        case Failure(message) =>
          var logged := AppendLog(db, t, row.steps + 1, ErrorRole);
          if Count(logged.logs, ErrorOf(t)) > cfg[row.agent].maxRetries
          then Some(Finish(logged, t, FailedRow(Stepped(row, w), w, message)))
          else Some(SetTask(logged, t, Stepped(row, w)))
        case ResultOf(role, content) =>
          Some(SetTask(AppendLog(db, t, row.steps + 1, role, content), t, Stepped(row, w)))
        case LlmResponse(action) =>
          Act(cfg, w, AppendLog(db, t, row.steps + 1, AssistantRole), t, row, action)
  }

  /** The `llm_response` half, for a running task with row `row`. */
  function Act(cfg: Config, w: World, db: Db, t: TaskId, row: Task, action: Action): Option<Db>
    requires row.agent in cfg
  {
    match action
    case Raises => None
    case Refused => Some(Refuse(w, db, t, row))
    case Noted => Some(SetTask(AppendLog(db, t, row.steps + 1, AssistantRole), t, Stepped(row, w)))
    case Enqueue(tool) => Some(SetTask(InsertCall(db, w, t, ToolCall(tool)), t, Stepped(row, w)))
    case FinalAnswer(text) =>
      var answered := Finish(SetFinalAnswer(db, row.session, text), t,
        Stepped(row, w).(status := Completed, output := Some(Answer(text))));
      Some(answered)
    case AwaitHuman =>
      Some(Hold(w, db, t, Stepped(row, w), None))
    case AwaitChildren =>
      if HasLiveChild(db.tasks, t)
      then Some(SetTask(db, t, Stepped(row, w).(status := WaitingChildren)))
      else Some(Refuse(w, db, t, row))
    case Delegate(target, permitted, wait) =>
      if !Active(cfg, w, target) || !permitted
         || row.depth + 1 > cfg[row.agent].maxDepth
         || OnChain(db.tasks, t, target)
         || Count(db.tasks, InSession(row.session)) >= cfg[row.agent].maxSessionTasks
      then Some(Refuse(w, db, t, row))
      else
        var child := |db.tasks|;
        var spawned := InsertTask(db, w, row.session, target, Some(t), row.depth + 1);
        Some(SetTask(spawned, t,
          if wait then Stepped(row, w)
          else Stepped(row, w).(status := Completed, output := Some(Child(child)))))
  }

  function Refuse(w: World, db: Db, t: TaskId, row: Task): Db {
    SetTask(AppendLog(db, t, row.steps + 1, ErrorRole), t, Stepped(row, w))
  }

  function SetFinalAnswer(db: Db, s: SessionId, text: string): Db {
    if s < |db.sessions|
    then db.(sessions := db.sessions[s := db.sessions[s].(finalAnswer := Some(text))])
    else db
  }

  function InsertTask(db: Db, w: World, s: SessionId, a: AgentId, parent: Option<TaskId>, depth: nat): Db {
    db.(tasks := db.tasks + [Task(s, a, parent, depth, Queued, 0, None, w.now, None, None, 0)])
  }

  /** Pauses a task for a human: status `waiting_human` plus a pending approval. */
  function Hold(w: World, db: Db, t: TaskId, row: Task, call: Option<CallId>): Db {
    SetTask(db, t, row.(status := WaitingHuman, updatedAt := w.now))
    .(approvals := db.approvals + [Approval(t, call, Undecided, w.now + APPROVAL_SECONDS)])
  }

  // ---------------------------------------------------------------------------------------------
  // fn_next_step and fn_dispatch_tasks
  // ---------------------------------------------------------------------------------------------

  /** Whether assembling the prompt succeeds, and whether it starts a compaction on the way. */
  datatype Prompt = PromptFails | PromptBuilt(compactor: Option<AgentId>)

  datatype NextStepResult = Raised | NoCall(db: Db) | CallLlm(db: Db)

  function NextStep(cfg: Config, w: World, db: Db, t: TaskId, prompt: Prompt): NextStepResult {
    if t >= |db.tasks| || !(db.tasks[t].status.Queued? || db.tasks[t].status.Running?) then Raised
    else
      var row := db.tasks[t];
      var started :=
        if row.status.Queued?
        then row.(status := Running, updatedAt := w.now,
                  startedAt := if row.startedAt.Some? then row.startedAt else Some(w.now))
        else row;
      if !Active(cfg, w, row.agent) then
        NoCall(Finish(AppendLog(db, t, row.steps, ErrorRole), t, FailedRow(started, w, "agent_inactive")))
      else if row.steps >= cfg[row.agent].maxSteps then
        NoCall(Finish(AppendLog(db, t, row.steps, ErrorRole), t, FailedRow(started, w, "max_steps")))
      else match prompt
        case PromptFails => Raised
        case PromptBuilt(compactor) =>
          var running := SetTask(db, t, started);
          if compactor.Some? && row.parent.None? && Active(cfg, w, compactor.value)
          then CallLlm(StartCompaction(running, w, compactor.value))
          else CallLlm(running)
  }

  function InsertSession(db: Db, w: World, a: AgentId, schedule: Option<ScheduleId>): Db {
    var s := |db.sessions|;
    var t := |db.tasks|;
    AppendLog(
      InsertTask(db.(sessions := db.sessions + [Session(a, schedule, Open, None)]), w, s, a, None, 0),
      t, 0, UserRole)
  }

  /** The end of `maybe_trigger_compaction`: the compactor's own session, with the turns in its log. */
  function StartCompaction(db: Db, w: World, a: AgentId): Db {
    AppendLog(InsertSession(db, w, a, None), |db.tasks|, 1, UserRole)
  }

  /** The candidate filter of the dispatch query. */
  predicate Dispatchable(db: Db, t: TaskId) {
    && t < |db.tasks|
    && (db.tasks[t].status.Queued? || db.tasks[t].status.Running?)
    && !HasPending(db.calls, t)
  }

  /** `max_concurrent_tasks` is already used up by the agent's other tasks. */
  predicate CapReached(cfg: Config, tasks: seq<Task>, t: TaskId)
    requires t < |tasks|
  {
    var a := tasks[t].agent;
    a in cfg &&
    Count(tasks[..t], OccupiesSlotOf(a)) + Count(tasks[t + 1..], OccupiesSlotOf(a)) >= cfg[a].maxConcurrent
  }

  /** One row of the dispatch cursor: `httpOk` is false when `build_llm_http` raises; `error` is the
      message of whatever exception is raised. */
  datatype DispatchRow = DispatchRow(task: TaskId, prompt: Prompt, httpOk: bool, error: string)

  datatype Dispatch = Dispatch(db: Db, sent: nat)

  /** The loop body of `fn_dispatch_tasks`; `None` when an exception leaves the whole function. */
  function DispatchOne(cfg: Config, w: World, db: Db, row: DispatchRow): Option<Dispatch> {
    if row.task >= |db.tasks| || CapReached(cfg, db.tasks, row.task) then Some(Dispatch(db, 0))
    else match NextStep(cfg, w, db, row.task, row.prompt)
      case Raised =>
        var retried := SubmitResult(cfg, w, db, row.task, Failure(row.error));
        Some(Dispatch(if retried.Some? then retried.value else db, 0))
      case NoCall(next) => Some(Dispatch(next, 0))
      case CallLlm(next) =>
        if row.httpOk then Some(Dispatch(InsertCall(next, w, row.task, Llm), 1))
        else
          var failed := SubmitResult(cfg, w, next, row.task, Failure(row.error));
          if failed.Some? then Some(Dispatch(failed.value, 0)) else None
  }

  /** A cursor returns each row of the table once. */
  predicate FirstTime(rows: seq<DispatchRow>, n: nat)
    requires n < |rows|
  {
    forall i :: 0 <= i < n ==> rows[i].task != rows[n].task
  }

  /** The first `n` rows of the cursor. The cursor's filter is evaluated once, on `start`. */
  function DispatchRows(cfg: Config, w: World, start: Db, rows: seq<DispatchRow>, n: nat): Option<Dispatch>
    requires n <= |rows|
  {
    if n == 0 then Some(Dispatch(start, 0))
    else
      var sofar := DispatchRows(cfg, w, start, rows, n - 1);
      if sofar.None? || sofar.value.sent >= DISPATCH_LIMIT
         || !FirstTime(rows, n - 1) || !Dispatchable(start, rows[n - 1].task) then sofar
      else
        var next := DispatchOne(cfg, w, sofar.value.db, rows[n - 1]);
        if next.None? then None
        else Some(Dispatch(next.value.db, sofar.value.sent + next.value.sent))
  }

  // ---------------------------------------------------------------------------------------------
  // fn_claim_outbound, fn_claim_sql, fn_claim_function_calls, fn_claim_procedure_calls
  // ---------------------------------------------------------------------------------------------

  /** What `guard_queued_call` finds: the reason of a revoked grant or a deny rule, a rule that asks
      for approval, and whether the approved snapshot still describes the request. */
  datatype GuardView = GuardView(denied: Option<string>, approvalRule: bool, sameSnapshot: bool)

  datatype Guarded = Guarded(allowed: bool, db: Db)

  function GuardCall(cfg: Config, w: World, db: Db, c: CallId, view: GuardView): Guarded {
    if !Guardable(db, c) then Guarded(false, db)
    else
      var call := db.calls[c];
      if !Active(cfg, w, db.tasks[call.task].agent) || view.denied.Some? then
        Guarded(false, DenyCall(w, db, c, if view.denied.Some? then view.denied.value else "agent_inactive"))
      else
        var held := LatestApproval(db.approvals, call.task, c);
        if !(view.approvalRule && Gateable(call.kind)) && held.None? then Guarded(true, db)
        else if held.Some? && held.value < |db.approvals| && db.approvals[held.value].status.Approved?
                && db.approvals[held.value].expiresAt > w.now && view.sameSnapshot then Guarded(true, db)
        else Guarded(false, AskFor(w, db, c, held))
  }

  predicate Guardable(db: Db, c: CallId) {
    c < |db.calls| && db.calls[c].status.Waiting? && IsRunning(db, db.calls[c].task)
  }

  function DenyCall(w: World, db: Db, c: CallId, reason: string): Db
    requires Guardable(db, c)
  {
    var t := db.calls[c].task;
    var lost := SetCall(db, c, db.calls[c].(status := Lost, updatedAt := w.now));
    Finish(AppendLog(lost, t, db.tasks[t].steps, ErrorRole), t, FailedRow(db.tasks[t], w, reason))
  }

  /** Holds the call back behind a new approval; an older one no longer counts. */
  function AskFor(w: World, db: Db, c: CallId, held: Option<ApprovalId>): Db
    requires Guardable(db, c)
  {
    var t := db.calls[c].task;
    Hold(w, RejectApproval(db, held), t, db.tasks[t], Some(c))
  }

  function RejectApproval(db: Db, a: Option<ApprovalId>): Db {
    if a.Some? && a.value < |db.approvals|
    then db.(approvals := db.approvals[a.value := db.approvals[a.value].(status := Rejected)])
    else db
  }

  datatype ClaimRow = ClaimRow(call: CallId, view: GuardView)

  function ClaimOne(cfg: Config, w: World, db: Db, row: ClaimRow): Db {
    var guarded := GuardCall(cfg, w, db, row.call, row.view);
    if guarded.allowed && row.call < |guarded.db.calls|
    then SetCall(guarded.db, row.call, guarded.db.calls[row.call].(status := InFlight, updatedAt := w.now))
    else guarded.db
  }

  predicate Claimable(db: Db, q: Queue, c: CallId) {
    && c < |db.calls|
    && QueueOf(db.calls[c].kind) == q
    && db.calls[c].status.Waiting?
    && IsRunning(db, db.calls[c].task)
  }

  /** `LIMIT GREATEST(1, LEAST(p_limit, 16))` */
  function ClaimLimit(limit: int): nat {
    if limit < 1 then 1 else if limit > 16 then 16 else limit
  }

  datatype Claimed = Claimed(db: Db, selected: nat)

  function ClaimRows(cfg: Config, w: World, start: Db, q: Queue, limit: int, rows: seq<ClaimRow>, n: nat): Claimed
    requires n <= |rows|
  {
    if n == 0 then Claimed(start, 0)
    else
      var sofar := ClaimRows(cfg, w, start, q, limit, rows, n - 1);
      if sofar.selected >= ClaimLimit(limit) || !Claimable(start, q, rows[n - 1].call) then sofar
      else Claimed(ClaimOne(cfg, w, sofar.db, rows[n - 1]), sofar.selected + 1)
  }

  // ---------------------------------------------------------------------------------------------
  // fn_complete_outbound, fn_complete_sql, fn_complete_function_call, fn_complete_procedure_call
  // ---------------------------------------------------------------------------------------------

  /** What a worker reports for a call. `unknown` is a transport error or a 5xx status; `fault`
      makes the nested `fn_submit_result` raise. */
  datatype Reply = Reply(ok: bool, unknown: bool, action: Action, content: Note, message: string, cost: Option<real>, fault: bool)

  function PayloadOf(kind: CallKind, reply: Reply): Payload {
    match kind
    case Llm => if reply.ok then LlmResponse(reply.action) else Failure(reply.message)
    case ToolCall(HttpFunction(_)) => ResultOf(FunctionRole, reply.content)
    case ToolCall(Procedure) => if reply.ok then ResultOf(ProcedureRole, reply.content) else Failure(reply.message)
    case ToolCall(_) => if reply.ok then ResultOf(FunctionRole, reply.content) else Failure(reply.message)
  }

  /** Only a successful model response with a recognised, priced usage has a cost. */
  function CostOf(kind: CallKind, reply: Reply): Option<real> {
    if kind.Llm? && reply.ok then reply.cost else None
  }

  function Charge(db: Db, t: TaskId, cost: Option<real>): Db {
    var k := ScheduleOf(db.tasks, db.sessions, t);
    if cost.None? || k.None? || k.value >= |db.schedules| then db
    else
      var row := db.schedules[k.value];
      var spent := row.spent + cost.value;
      db.(schedules := db.schedules[k.value :=
        row.(spent := spent,
             active := row.active && !OverBudget(row.(spent := spent)))])
  }

  /** Hands a settled call's outcome to the task, if it is still running. A failing submit is
      rolled back alone. */
  function Deliver(cfg: Config, w: World, db: Db, c: CallId, payload: Payload, fault: bool): Db
    requires c < |db.calls|
  {
    var t := db.calls[c].task;
    if !IsRunning(db, t) then db
    else
      var noted := SetCall(db, c, db.calls[c].(submits := db.calls[c].submits + 1));
      var submitted := if fault then None else SubmitResult(cfg, w, noted, t, payload);
      if submitted.Some? then submitted.value
      else SetCall(noted, c, noted.calls[c].(rolledBack := true))
  }

  /** `pause_ambiguous_outbound` */
  function PauseAmbiguous(w: World, db: Db, c: CallId): Db
    requires c < |db.calls|
  {
    var t := db.calls[c].task;
    var lost := SetCall(db, c, db.calls[c].(status := Lost, updatedAt := w.now));
    if !IsRunning(db, t) then lost
    else AppendLog(Hold(w, lost, t, db.tasks[t], None), t, db.tasks[t].steps, ErrorRole)
  }

  /** `None` when the call does not exist. */
  function Complete(cfg: Config, w: World, db: Db, c: CallId, reply: Reply): Option<Db> {
    if c >= |db.calls| then None
    else
      var call := db.calls[c];
      if !call.status.InFlight? then Some(db)
      else if Ambiguous(call.kind) && reply.unknown then Some(PauseAmbiguous(w, db, c))
      else
        var cost := CostOf(call.kind, reply);
        var harvested := SetCall(db, c, call.(status := Harvested, updatedAt := w.now, cost := cost));
        Some(Deliver(cfg, w, Charge(harvested, call.task, cost), c, PayloadOf(call.kind, reply), reply.fault))
  }

  // ---------------------------------------------------------------------------------------------
  // fn_watchdog
  // ---------------------------------------------------------------------------------------------

  function TimeoutOf(kind: CallKind, timeout: int): int {
    var floor := if QueueOf(kind).ProcedureCalls? then 150 else 15;
    if timeout > floor then timeout else floor
  }

  function TimeoutMessage(kind: CallKind): string {
    match QueueOf(kind)
    case Outbound => "outbound timeout"
    case SqlCalls => "sql execution timeout"
    case FunctionCalls => "function execution timeout"
    case ProcedureCalls => "procedure execution timeout"
  }

  function Reclaim(cfg: Config, w: World, db: Db, q: Queue, timeout: int, c: CallId, fault: bool): Db {
    if c >= |db.calls| || QueueOf(db.calls[c].kind) != q || !db.calls[c].status.InFlight?
       || db.calls[c].updatedAt >= w.now - TimeoutOf(db.calls[c].kind, timeout) then db
    else
      var call := db.calls[c];
      var lost := SetCall(db, c, call.(status := Lost, updatedAt := w.now));
      if Ambiguous(call.kind) && IsRunning(db, call.task) then PauseAmbiguous(w, lost, c)
      else Deliver(cfg, w, lost, c, Failure(TimeoutMessage(call.kind)), fault)
  }

  /** The first `n` calls swept for queue `q`; `faults` are the calls whose submit raises. */
  function ReclaimCalls(cfg: Config, w: World, db: Db, q: Queue, timeout: int, faults: set<CallId>, n: nat): Db {
    if n == 0 then db
    else Reclaim(cfg, w, ReclaimCalls(cfg, w, db, q, timeout, faults, n - 1), q, timeout, n - 1, n - 1 in faults)
  }

  function ExpireApproval(w: World, db: Db, a: ApprovalId): Db {
    if a >= |db.approvals| || !db.approvals[a].status.Undecided? || db.approvals[a].expiresAt >= w.now then db
    else
      var t := db.approvals[a].task;
      var rejected := RejectApproval(db, Some(a));
      if t >= |db.tasks| || !db.tasks[t].status.WaitingHuman? then rejected
      else
        Finish(AppendLog(rejected, t, db.tasks[t].steps + 1, OperatorRole), t,
               FailedRow(Stepped(db.tasks[t], w), w, "approval_timeout"))
  }

  function ExpireApprovals(w: World, db: Db, n: nat): Db {
    if n == 0 then db else ExpireApproval(w, ExpireApprovals(w, db, n - 1), n - 1)
  }

  predicate TurnExpired(cfg: Config, w: World, row: Task) {
    && HoldsSlot(row.status)
    && row.agent in cfg && cfg[row.agent].maxTurnSeconds.Some?
    && row.startedAt.Some?
    && row.startedAt.value < w.now - cfg[row.agent].maxTurnSeconds.value
  }

  /** Marks the pending outbound and SQL calls of the given tasks lost; the function and procedure
      tables are left alone. */
  function LoseCalls(w: World, calls: seq<Call>, ofTask: set<TaskId>): seq<Call> {
    seq(|calls|, (i: nat) requires i < |calls| =>
      if calls[i].task in ofTask && Pending(calls[i])
         && (QueueOf(calls[i].kind).Outbound? || QueueOf(calls[i].kind).SqlCalls?)
      then calls[i].(status := Lost, updatedAt := w.now)
      else calls[i])
  }

  function ExpireTurn(cfg: Config, w: World, db: Db, t: TaskId): Db {
    if t >= |db.tasks| || !TurnExpired(cfg, w, db.tasks[t]) then db
    else
      var row := db.tasks[t];
      var logged := AppendLog(db, t, row.steps + 1, ErrorRole);
      Finish(logged.(calls := LoseCalls(w, db.calls, {t})), t, FailedRow(Stepped(row, w), w, "turn_timeout"))
  }

  function ExpireTurns(cfg: Config, w: World, db: Db, n: nat): Db {
    if n == 0 then db else ExpireTurn(cfg, w, ExpireTurns(cfg, w, db, n - 1), n - 1)
  }

  function Wake(w: World, db: Db, t: TaskId): Db {
    if t >= |db.tasks| || !db.tasks[t].status.WaitingChildren? || HasLiveChild(db.tasks, t) then db
    else
      SetTask(AppendLog(db, t, db.tasks[t].steps + 1, FunctionRole, DelegateResults(ChildResults(db.tasks, t))),
              t, Stepped(db.tasks[t], w).(status := Queued))
  }

  function WakeTasks(w: World, db: Db, n: nat): Db {
    if n == 0 then db else Wake(w, WakeTasks(w, db, n - 1), n - 1)
  }

  function ReclaimAll(cfg: Config, w: World, db: Db, timeout: int, faults: set<CallId>): Db {
    var a := ReclaimCalls(cfg, w, db, Outbound, timeout, faults, |db.calls|);
    var b := ReclaimCalls(cfg, w, a, SqlCalls, timeout, faults, |a.calls|);
    var c := ReclaimCalls(cfg, w, b, FunctionCalls, timeout, faults, |b.calls|);
    ReclaimCalls(cfg, w, c, ProcedureCalls, timeout, faults, |c.calls|)
  }

  function Watchdog(cfg: Config, w: World, db: Db, timeout: int, faults: set<CallId>): Db {
    var reclaimed := ReclaimAll(cfg, w, db, timeout, faults);
    var decided := ExpireApprovals(w, reclaimed, |reclaimed.approvals|);
    var expired := ExpireTurns(cfg, w, decided, |decided.tasks|);
    WakeTasks(w, expired, |expired.tasks|)
  }

  // ---------------------------------------------------------------------------------------------
  // The operator's side
  // ---------------------------------------------------------------------------------------------

  /** `fn_create_session`; only a firing schedule passes itself. */
  function CreateSession(cfg: Config, w: World, db: Db, a: AgentId, schedule: Option<ScheduleId>): Option<Db> {
    if !Active(cfg, w, a) then None else Some(InsertSession(db, w, a, schedule))
  }

  /** The schedule has spent what it may spend. */
  predicate OverBudget(s: Schedule) {
    s.maxCost.Some? && s.spent >= s.maxCost.value
  }

  function SetActive(db: Db, k: ScheduleId, active: bool): Db
    requires k < |db.schedules|
  {
    db.(schedules := db.schedules[k := db.schedules[k].(active := active)])
  }

  /** One schedule in `fn_run_schedules` (or, `forced`, in `fn_run_schedule_now`). `stopped` and `last`
      say whether its run count or end date has been, or is now, reached. */
  function Fire(cfg: Config, w: World, db: Db, a: AgentId, k: ScheduleId, stopped: bool, last: bool, forced: bool): Option<Db> {
    if k >= |db.schedules| then None
    else if !db.schedules[k].active then (if forced then None else Some(db))
    else if stopped || OverBudget(db.schedules[k]) then (if forced then None else Some(SetActive(db, k, false)))
    else
      var created := CreateSession(cfg, w, db, a, Some(k));
      if created.None? then (if forced then None else Some(db))
      else Some(created.value.(schedules := SetActive(db, k, !last).schedules))
  }

  /** `fn_set_schedule`: whether it runs and what it may spend, with no look at what it has spent. */
  datatype Edit = Edit(active: Option<bool>, maxCost: Option<real>, clearMaxCost: bool)

  function Edited(s: Schedule, edit: Edit): Schedule {
    s.(active := if edit.active.Some? then edit.active.value else s.active,
       maxCost := if edit.clearMaxCost then None else if edit.maxCost.Some? then edit.maxCost else s.maxCost)
  }

  function SetSchedule(db: Db, k: ScheduleId, edit: Edit): Option<Db> {
    if k >= |db.schedules| || (edit.maxCost.Some? && edit.maxCost.value <= 0.0) then None
    else Some(db.(schedules := db.schedules[k := Edited(db.schedules[k], edit)]))
  }

  predicate HasLiveRoot(tasks: seq<Task>, s: SessionId) {
    exists i :: 0 <= i < |tasks| && tasks[i].session == s && tasks[i].parent.None? && Live(tasks[i].status)
  }

  /** `fn_continue_session` */
  function ContinueSession(cfg: Config, w: World, db: Db, s: SessionId): Option<Db> {
    if s >= |db.sessions| || !Active(cfg, w, db.sessions[s].agent) || HasLiveRoot(db.tasks, s) then None
    else
      var reopened := db.(sessions := db.sessions[s := db.sessions[s].(status := Open)]);
      Some(AppendLog(InsertTask(reopened, w, s, db.sessions[s].agent, None, 0), |db.tasks|, 0, UserRole))
  }

  /** `fn_decide_approval` */
  function Decide(w: World, db: Db, a: ApprovalId, accept: bool): Option<Db> {
    if a >= |db.approvals| || !db.approvals[a].status.Undecided? || db.approvals[a].expiresAt <= w.now then None
    else
      var approval := db.approvals[a];
      var t := approval.task;
      var decided := db.(approvals := db.approvals[a := approval.(status := if accept then Approved else Rejected)]);
      if t >= |db.tasks| || !db.tasks[t].status.WaitingHuman? then Some(decided)
      else
        var row := db.tasks[t];
        var logged := AppendLog(decided, t, row.steps + 1, OperatorRole);
        var after := Stepped(row, w).(decisions := row.decisions + 1);
        if accept
        then Some(SetTask(logged, t, after.(status := if approval.call.Some? then Running else Queued)))
        else Some(Finish(logged, t, FailedRow(after, w, "human_rejected")))
  }

  /** `fn_cancel_session`: the first `n` tasks. */
  function CancelTasks(w: World, db: Db, s: SessionId, n: nat): Db {
    if n == 0 then db
    else
      var sofar := CancelTasks(w, db, s, n - 1);
      if n - 1 >= |sofar.tasks| || sofar.tasks[n - 1].session != s || Terminal(sofar.tasks[n - 1].status) then sofar
      else
        var row := sofar.tasks[n - 1];
        SetTask(AppendLog(sofar, n - 1, row.steps + 1, OperatorRole), n - 1,
                Stepped(row, w).(status := Cancelled, error := Some("operator_cancelled")))
  }

  function TasksOf(tasks: seq<Task>, s: SessionId): set<TaskId> {
    set i | 0 <= i < |tasks| && tasks[i].session == s
  }

  function RejectApprovals(approvals: seq<Approval>, ofTask: set<TaskId>): seq<Approval> {
    seq(|approvals|, (i: nat) requires i < |approvals| =>
      if approvals[i].task in ofTask && approvals[i].status.Undecided?
      then approvals[i].(status := Rejected) else approvals[i])
  }

  function CancelSession(w: World, db: Db, s: SessionId): Option<Db> {
    if s >= |db.sessions| then None
    else
      var stopped := CancelTasks(w, db, s, |db.tasks|);
      var mine := TasksOf(stopped.tasks, s);
      var quiet := stopped.(calls := LoseCalls(w, stopped.calls, mine),
                            approvals := RejectApprovals(stopped.approvals, mine));
      if s < |quiet.sessions| && quiet.sessions[s].status.Open?
      then Some(quiet.(sessions := quiet.sessions[s := quiet.sessions[s].(status := Stopped)]))
      else Some(quiet)
  }

  // ---------------------------------------------------------------------------------------------
  // Runs
  // ---------------------------------------------------------------------------------------------

  datatype Event =
    | Created(agent: AgentId)
    | Fired(agent: AgentId, schedule: ScheduleId, stopped: bool, last: bool, forced: bool)
    | ScheduleSet(schedule: ScheduleId, edit: Edit)
    | Continued(session: SessionId)
    | Dispatched(rows: seq<DispatchRow>)
    | ClaimedBy(queue: Queue, limit: int, claims: seq<ClaimRow>)
    | CompletedBy(call: CallId, reply: Reply)
    | Swept(timeout: int, faults: set<CallId>)
    | Decided(approval: ApprovalId, accept: bool)
    | CancelledBy(session: SessionId)

  datatype Tx = Tx(world: World, event: Event)

  /** A transaction that raises leaves the database as it was. */
  function Apply(cfg: Config, db: Db, tx: Tx): Db {
    var w := tx.world;
    match tx.event
    case Created(a) => Committed(db, CreateSession(cfg, w, db, a, None))
    case Fired(a, k, stopped, last, forced) => Committed(db, Fire(cfg, w, db, a, k, stopped, last, forced))
    case ScheduleSet(k, edit) => Committed(db, SetSchedule(db, k, edit))
    case Continued(s) => Committed(db, ContinueSession(cfg, w, db, s))
    case Dispatched(rows) =>
      var d := DispatchRows(cfg, w, db, rows, |rows|);
      if d.Some? then d.value.db else db
    case ClaimedBy(q, limit, rows) => ClaimRows(cfg, w, db, q, limit, rows, |rows|).db
    case CompletedBy(c, reply) => Committed(db, Complete(cfg, w, db, c, reply))
    case Swept(timeout, faults) => Watchdog(cfg, w, db, timeout, faults)
    case Decided(a, accept) => Committed(db, Decide(w, db, a, accept))
    case CancelledBy(s) => Committed(db, CancelSession(w, db, s))
  }

  function Committed(before: Db, after: Option<Db>): Db {
    if after.Some? then after.value else before
  }
}
