/** The rows the control plane keeps: tasks, sessions, queued calls, approvals,
    schedules and the execution log.

    Rows of these tables are never deleted, so a table is a sequence and a row's id is its
    position: ids are unique, opaque to the protocol and ordered as `created_at` is. The four call
    tables share one sequence; `QueueOf` says which table a call belongs to. */
module Tables {

  datatype Option<+T> = None | Some(value: T)

  type TaskId = nat
  type SessionId = nat
  type CallId = nat
  type ApprovalId = nat
  type ScheduleId = nat
  type AgentId = nat

  /** One row of `policies`; the `ensure_policy` trigger gives every agent one. */
  datatype Policy = Policy(
    maxSteps: nat,
    maxRetries: nat,
    maxConcurrent: nat,
    maxTurnSeconds: Option<nat>,
    maxDepth: nat,
    maxSessionTasks: nat)

  /** The agents and their policies, constant during a run. */
  type Config = map<AgentId, Policy>

  /** What a transaction reads from outside the modelled tables: the clock and which agents are
      active at that moment. */
  datatype World = World(now: int, active: set<AgentId>)

  datatype TaskStatus =
    | Queued | Running | WaitingHuman | WaitingChildren
    | Completed | Failed | Cancelled

  datatype Output = Answer(text: string) | Child(task: TaskId)

  /** `decisions` counts the operator decisions taken on the task. Nothing reads it: it is
      history, kept so that the step budget can be stated. */
  datatype Task = Task(
    session: SessionId,
    agent: AgentId,
    parent: Option<TaskId>,
    depth: nat,
    status: TaskStatus,
    steps: nat,
    startedAt: Option<int>,
    updatedAt: int,
    output: Option<Output>,
    error: Option<string>,
    decisions: nat)

  datatype SessionStatus = Open | Done | Broken | Stopped

  datatype Session = Session(
    agent: AgentId,
    schedule: Option<ScheduleId>,
    status: SessionStatus,
    finalAnswer: Option<string>)

  datatype Queue = Outbound | SqlCalls | FunctionCalls | ProcedureCalls

  /** What a model turn may ask the runtime to run. `HttpFunction` is an `http_get` or
      `http_request`; `Mcp` is always a POST; `Search` is a query embedding (agents, capabilities
      or memories). */
  datatype Tool =
    | HttpFunction(mutating: bool) | Mcp | Search | Sql | PlFunction | Procedure

  datatype CallKind = Llm | ToolCall(tool: Tool)

  datatype CallStatus = Waiting | InFlight | Harvested | Lost

  /** `submits` and `rolledBack` are history: how often the call's outcome was handed to
      `fn_submit_result`, and whether that subtransaction was rolled back. */
  datatype Call = Call(
    task: TaskId,
    kind: CallKind,
    status: CallStatus,
    updatedAt: int,
    cost: Option<real>,
    submits: nat,
    rolledBack: bool)

  datatype ApprovalStatus = Undecided | Approved | Rejected

  /** `call` is the queued request an execution approval holds back; a plain `await_human` or an
      ambiguous outbound result has none. */
  datatype Approval = Approval(
    task: TaskId,
    call: Option<CallId>,
    status: ApprovalStatus,
    expiresAt: int)

  datatype Schedule = Schedule(
    active: bool,
    spent: real,
    maxCost: Option<real>)

  datatype Role = UserRole | AssistantRole | FunctionRole | ProcedureRole | ErrorRole | OperatorRole

  datatype ChildResult = ChildResult(
    agent: AgentId,
    status: TaskStatus,
    output: Option<Output>,
    error: Option<string>)

  type FunctionId = nat
  type ProcedureId = nat

  /** What the protocol reads back from a log row's content: a function's result may name the function
      and the procedure that bound it. */
  datatype Note =
    | Text
    | DelegateResults(results: seq<ChildResult>)
    | BoundResult(callee: FunctionId, procedure: Option<ProcedureId>)

  datatype Log = Log(task: TaskId, step: nat, role: Role, note: Note)

  datatype Db = Db(
    tasks: seq<Task>,
    sessions: seq<Session>,
    calls: seq<Call>,
    approvals: seq<Approval>,
    schedules: seq<Schedule>,
    logs: seq<Log>)

  predicate Terminal(s: TaskStatus) {
    s.Completed? || s.Failed? || s.Cancelled?
  }

  predicate Live(s: TaskStatus) {
    !Terminal(s)
  }

  /** A status that takes one of its agent's `max_concurrent_tasks` slots. */
  predicate HoldsSlot(s: TaskStatus) {
    s.Running? || s.WaitingHuman? || s.WaitingChildren?
  }

  predicate Pending(c: Call) {
    c.status.Waiting? || c.status.InFlight?
  }

  function QueueOf(k: CallKind): Queue {
    match k
    case Llm => Outbound
    case ToolCall(Sql) => SqlCalls
    case ToolCall(PlFunction) => FunctionCalls
    case ToolCall(Procedure) => ProcedureCalls
    case ToolCall(_) => Outbound
  }

  /** A call whose loss leaves it unknown whether an outside system was changed. */
  predicate Ambiguous(k: CallKind) {
    k.ToolCall? && (k.tool.Mcp? || (k.tool.HttpFunction? && k.tool.mutating))
  }

  /** Calls an execution rule can name; a model turn or a search has no such action. */
  predicate Gateable(k: CallKind) {
    k.ToolCall? && !k.tool.Search?
  }

  predicate Active(cfg: Config, w: World, a: AgentId) {
    a in w.active && a in cfg
  }

  // ---------------------------------------------------------------------------------------------
  // Queries
  // ---------------------------------------------------------------------------------------------

  /** `count(*) FILTER (WHERE p)` over a table. */
  function Count<T>(rows: seq<T>, p: T -> bool): nat {
    if rows == [] then 0
    else Count(rows[..|rows| - 1], p) + (if p(rows[|rows| - 1]) then 1 else 0)
  }

  /** `sum(f)` over a table. */
  function Sum<T>(rows: seq<T>, f: T -> real): real {
    if rows == [] then 0.0
    else Sum(rows[..|rows| - 1], f) + f(rows[|rows| - 1])
  }

  function OccupiesSlotOf(a: AgentId): Task -> bool {
    (t: Task) => t.agent == a && HoldsSlot(t.status)
  }

  function InSession(s: SessionId): Task -> bool {
    (t: Task) => t.session == s
  }

  function ErrorOf(t: TaskId): Log -> bool {
    (l: Log) => l.task == t && l.role.ErrorRole?
  }

  function LlmOf(t: TaskId): Call -> bool {
    (c: Call) => c.task == t && c.kind.Llm?
  }

  function SettledLlmOf(t: TaskId): Call -> bool {
    (c: Call) => c.task == t && c.kind.Llm? && !Pending(c)
  }

  function RolledBackLlmOf(t: TaskId): Call -> bool {
    (c: Call) => c.task == t && c.kind.Llm? && c.rolledBack
  }

  predicate HasLive(tasks: seq<Task>, s: SessionId) {
    exists i :: 0 <= i < |tasks| && tasks[i].session == s && Live(tasks[i].status)
  }

  predicate HasFailed(tasks: seq<Task>, s: SessionId) {
    exists i :: 0 <= i < |tasks| && tasks[i].session == s && tasks[i].status.Failed?
  }

  predicate HasPending(calls: seq<Call>, t: TaskId) {
    exists c :: 0 <= c < |calls| && calls[c].task == t && Pending(calls[c])
  }

  predicate HasLiveChild(tasks: seq<Task>, t: TaskId) {
    exists i :: 0 <= i < |tasks| && tasks[i].parent == Some(t) && Live(tasks[i].status)
  }

  /** The agents of a task and all its ancestors, as the recursive `ancestors` query of `delegate`
      walks them. A parent's row is always older than its child's. */
  predicate OnChain(tasks: seq<Task>, t: TaskId, a: AgentId)
    decreases t
  {
    t < |tasks| &&
    (tasks[t].agent == a ||
     (tasks[t].parent.Some? && tasks[t].parent.value < t && OnChain(tasks, tasks[t].parent.value, a)))
  }

  /** The row of the completed root task of `s` that was updated last, if there is one. */
  function LatestRoot(tasks: seq<Task>, s: SessionId): Option<Task> {
    if tasks == [] then None
    else
      var best := LatestRoot(tasks[..|tasks| - 1], s);
      var t := tasks[|tasks| - 1];
      if t.session == s && t.status.Completed? && t.parent.None?
         && (best.None? || best.value.updatedAt <= t.updatedAt)
      then Some(t) else best
  }

  function AnswerOf(t: Option<Task>): Option<string> {
    if t.Some? && t.value.output.Some? && t.value.output.value.Answer?
    then Some(t.value.output.value.text) else None
  }

  /** One entry per child of `t`, oldest first: the `delegate_results` of a woken task. */
  function ChildResults(tasks: seq<Task>, t: TaskId): seq<ChildResult> {
    if tasks == [] then []
    else
      var c := tasks[|tasks| - 1];
      ChildResults(tasks[..|tasks| - 1], t) +
      (if c.parent == Some(t) then [ChildResult(c.agent, c.status, c.output, c.error)] else [])
  }

  /** The newest approval that holds back call `c`. */
  function LatestApproval(approvals: seq<Approval>, t: TaskId, c: CallId): Option<ApprovalId> {
    if approvals == [] then None
    else
      var a := approvals[|approvals| - 1];
      if a.task == t && a.call == Some(c) then Some(|approvals| - 1)
      else LatestApproval(approvals[..|approvals| - 1], t, c)
  }

  /** The schedule a call's cost is charged to: the one that spawned its task's session. */
  function ScheduleOf(tasks: seq<Task>, sessions: seq<Session>, t: TaskId): Option<ScheduleId> {
    if t < |tasks| && tasks[t].session < |sessions| then sessions[tasks[t].session].schedule else None
  }

  function CostTo(tasks: seq<Task>, sessions: seq<Session>, k: ScheduleId): Call -> real {
    (c: Call) => if c.cost.Some? && ScheduleOf(tasks, sessions, c.task) == Some(k) then c.cost.value else 0.0
  }

  // ---------------------------------------------------------------------------------------------
  // What the queries do when a table grows or one of its rows changes
  // ---------------------------------------------------------------------------------------------

  lemma CountAppend<T>(rows: seq<T>, x: T, p: T -> bool)
    ensures Count(rows + [x], p) == Count(rows, p) + (if p(x) then 1 else 0)
  {
    assert (rows + [x])[..|rows|] == rows;
  }

  lemma {:induction false} CountUpdate<T>(rows: seq<T>, i: nat, x: T, p: T -> bool)
    requires i < |rows|
    ensures Count(rows[i := x], p) + (if p(rows[i]) then 1 else 0) == Count(rows, p) + (if p(x) then 1 else 0)
  {
    var n := |rows| - 1;
    if i == n {
      assert rows[i := x][..n] == rows[..n];
    } else {
      assert rows[i := x][..n] == rows[..n][i := x];
      CountUpdate(rows[..n], i, x, p);
    }
  }

  lemma {:induction false} CountSplit<T>(rows: seq<T>, i: nat, p: T -> bool)
    requires i < |rows|
    ensures Count(rows, p) == Count(rows[..i], p) + Count(rows[i + 1..], p) + (if p(rows[i]) then 1 else 0)
  {
    var n := |rows| - 1;
    if i == n {
      assert rows[i + 1..] == [];
    } else {
      CountSplit(rows[..n], i, p);
      assert rows[..n][..i] == rows[..i];
      assert rows[..n][i + 1..] == rows[i + 1..][..n - i - 1];
    }
  }

  lemma SumAppend<T>(rows: seq<T>, x: T, f: T -> real)
    ensures Sum(rows + [x], f) == Sum(rows, f) + f(x)
  {
    assert (rows + [x])[..|rows|] == rows;
  }

  lemma {:induction false} SumUpdate<T>(rows: seq<T>, i: nat, x: T, f: T -> real)
    requires i < |rows|
    ensures Sum(rows[i := x], f) == Sum(rows, f) - f(rows[i]) + f(x)
  {
    var n := |rows| - 1;
    if i == n {
      assert rows[i := x][..n] == rows[..n];
    } else {
      assert rows[i := x][..n] == rows[..n][i := x];
      SumUpdate(rows[..n], i, x, f);
    }
  }

  lemma {:induction false} SumSame<T>(rows: seq<T>, f: T -> real, g: T -> real)
    requires forall i :: 0 <= i < |rows| ==> f(rows[i]) == g(rows[i])
    ensures Sum(rows, f) == Sum(rows, g)
  {
    if rows != [] {
      var n := |rows| - 1;
      assert f(rows[n]) == g(rows[n]);
      SumSame(rows[..n], f, g);
    }
  }

  lemma {:induction false} CountPointwise<T>(rows: seq<T>, later: seq<T>, p: T -> bool)
    requires |rows| == |later| && forall i :: 0 <= i < |rows| ==> p(rows[i]) == p(later[i])
    ensures Count(rows, p) == Count(later, p)
  {
    if rows != [] {
      var n := |rows| - 1;
      assert p(rows[n]) == p(later[n]);
      CountPointwise(rows[..n], later[..n], p);
    }
  }

  lemma {:induction false} SumPointwise<T>(rows: seq<T>, later: seq<T>, f: T -> real)
    requires |rows| == |later| && forall i :: 0 <= i < |rows| ==> f(rows[i]) == f(later[i])
    ensures Sum(rows, f) == Sum(later, f)
  {
    if rows != [] {
      var n := |rows| - 1;
      assert f(rows[n]) == f(later[n]);
      SumPointwise(rows[..n], later[..n], f);
    }
  }

  /** Growing the task table, or changing columns other than `agent` and `parent`, leaves every
      existing ancestor chain as it was. */
  lemma {:induction false} OnChainFrame(tasks: seq<Task>, later: seq<Task>, t: TaskId, a: AgentId)
    requires t < |tasks| <= |later|
    requires forall i :: 0 <= i < |tasks| ==> later[i].agent == tasks[i].agent && later[i].parent == tasks[i].parent
    ensures OnChain(later, t, a) == OnChain(tasks, t, a)
    decreases t
  {
    if tasks[t].parent.Some? && tasks[t].parent.value < t {
      OnChainFrame(tasks, later, tasks[t].parent.value, a);
    }
  }

  lemma {:induction false} LatestApprovalFound(approvals: seq<Approval>, t: TaskId, c: CallId)
    ensures match LatestApproval(approvals, t, c)
            case Some(a) => a < |approvals| && approvals[a].task == t && approvals[a].call == Some(c)
            case None => forall i :: 0 <= i < |approvals| ==> !(approvals[i].task == t && approvals[i].call == Some(c))
  {
    if approvals != [] {
      LatestApprovalFound(approvals[..|approvals| - 1], t, c);
    }
  }
}
