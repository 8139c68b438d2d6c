/** What holds of the tables between any two transactions.

    Inside a transaction two clauses may be out of step for a moment: a task whose model call has
    just been settled has not been charged its step yet (`owing`), and a session whose last live
    task has just finished has not been closed yet (`stale`). `InvExcept` carries both. */
module Invariant {
  import opened Tables
  import opened Transactions

  const NOBODY: int := -1

  // ---------------------------------------------------------------------------------------------
  // The clauses
  // ---------------------------------------------------------------------------------------------

  /** Delegation is a forest: a child is younger than its parent, in the same session, one hop
      deeper, within its parent agent's depth bound, its agent is new on the chain, and the session had
      fewer tasks than its parent agent's bound when it was added. */
  predicate ForestRow(cfg: Config, tasks: seq<Task>, i: nat)
    requires i < |tasks|
  {
    && tasks[i].agent in cfg
    && match tasks[i].parent
       case None => tasks[i].depth == 0
       case Some(p) =>
         && p < i
         && tasks[p].agent in cfg
         && tasks[i].session == tasks[p].session
         && tasks[i].depth == tasks[p].depth + 1 <= cfg[tasks[p].agent].maxDepth
         && !OnChain(tasks, p, tasks[i].agent)
         && Count(tasks[..i], InSession(tasks[i].session)) < cfg[tasks[p].agent].maxSessionTasks
  }

  ghost predicate ForestOk(cfg: Config, tasks: seq<Task>) {
    forall i :: 0 <= i < |tasks| ==> ForestRow(cfg, tasks, i)
  }

  /** The step budget of a row, whatever it waits for. */
  predicate RowOk(cfg: Config, row: Task) {
    && row.agent in cfg
    && row.steps <= cfg[row.agent].maxSteps + row.decisions + 2
    && (Live(row.status) ==> row.steps <= cfg[row.agent].maxSteps + row.decisions + 1)
    && (row.status.WaitingHuman? || row.status.WaitingChildren? ==> row.steps <= cfg[row.agent].maxSteps + row.decisions)
  }

  /** Where the task of a pending call can be, and how far its budget can have gone. */
  predicate PendingOk(cfg: Config, row: Task, call: Call) {
    Live(row.status) ==>
      && row.agent in cfg
      && (row.status.Running? || (row.status.WaitingHuman? && call.status.Waiting? && Gateable(call.kind)))
      && (call.kind.Llm? ==> row.steps < cfg[row.agent].maxSteps)
      && row.steps <= cfg[row.agent].maxSteps + row.decisions
  }

  ghost predicate RowsOk(cfg: Config, tasks: seq<Task>) {
    forall i :: 0 <= i < |tasks| ==> RowOk(cfg, tasks[i])
  }

  /** A call's own history. */
  predicate CallOk(call: Call) {
    && call.submits <= 1
    && (Pending(call) ==> call.submits == 0)
    && (call.rolledBack ==> call.submits == 1)
    && (call.cost.Some? ==> call.kind.Llm? && call.status.Harvested?)
  }

  ghost predicate CallsOk(cfg: Config, tasks: seq<Task>, calls: seq<Call>) {
    forall c :: 0 <= c < |calls| ==>
      && calls[c].task < |tasks|
      && CallOk(calls[c])
      && (Pending(calls[c]) ==> PendingOk(cfg, tasks[calls[c].task], calls[c]))
  }

  /** No task has two calls outstanding, in any of the four queues. */
  ghost predicate OnePending(calls: seq<Call>) {
    forall c, d :: 0 <= c < d < |calls| && Pending(calls[c]) && Pending(calls[d]) ==> calls[c].task != calls[d].task
  }

  /** An undecided approval of a live task finds that task waiting for it, and still holds back the
      very call it was asked for. */
  predicate ApprovalOk(tasks: seq<Task>, calls: seq<Call>, a: Approval) {
    && a.task < |tasks|
    && (a.call.Some? ==>
          && a.call.value < |calls|
          && calls[a.call.value].task == a.task
          && Gateable(calls[a.call.value].kind))
    && (a.status.Undecided? && Live(tasks[a.task].status) ==>
          && tasks[a.task].status.WaitingHuman?
          && (a.call.Some? ==> calls[a.call.value].status.Waiting?))
  }

  ghost predicate ApprovalsOk(tasks: seq<Task>, calls: seq<Call>, approvals: seq<Approval>) {
    && (forall a :: 0 <= a < |approvals| ==> ApprovalOk(tasks, calls, approvals[a]))
    && (forall a, b :: 0 <= a < b < |approvals| ==> Distinct(tasks, approvals[a], approvals[b]))
    && (forall a, c :: 0 <= a < |approvals| && 0 <= c < |calls| ==> Holds(tasks, approvals[a], c, calls[c]))
  }

  /** Two undecided approvals are never of the same live task. */
  predicate Distinct(tasks: seq<Task>, a: Approval, b: Approval) {
    a.status.Undecided? && b.status.Undecided? && a.task == b.task < |tasks| ==> Terminal(tasks[a.task].status)
  }

  /** If the task of an undecided approval has a pending call, that call is what is held back. */
  predicate Holds(tasks: seq<Task>, a: Approval, c: CallId, call: Call) {
    a.status.Undecided? && a.task == call.task < |tasks| && Pending(call) ==>
      Terminal(tasks[a.task].status) || a.call == Some(c)
  }

  predicate Asked(approvals: seq<Approval>, t: TaskId) {
    exists a :: 0 <= a < |approvals| && approvals[a].task == t && approvals[a].status.Undecided?
  }

  ghost predicate WaitersAsked(tasks: seq<Task>, approvals: seq<Approval>) {
    forall t :: 0 <= t < |tasks| && tasks[t].status.WaitingHuman? ==> Asked(approvals, t)
  }

  /** The model-call budget. Rolled-back submissions are the only ones that do not pay a step. */
  predicate BudgetOk(cfg: Config, row: Task, t: TaskId, calls: seq<Call>, owing: int) {
    && row.agent in cfg
    && Count(calls, LlmOf(t)) <= cfg[row.agent].maxSteps + Count(calls, RolledBackLlmOf(t))
    && (Live(row.status) ==>
          Count(calls, SettledLlmOf(t)) <= row.steps + Count(calls, RolledBackLlmOf(t)) + (if t == owing then 1 else 0))
  }

  ghost predicate BudgetsOk(cfg: Config, tasks: seq<Task>, calls: seq<Call>, owing: int) {
    forall t :: 0 <= t < |tasks| ==> BudgetOk(cfg, tasks[t], t, calls, owing)
  }

  /** Calls never name a task that does not exist yet, so a new task starts with none. */
  ghost predicate SpendOk(tasks: seq<Task>, calls: seq<Call>, sessions: seq<Session>, schedules: seq<Schedule>) {
    && (forall s :: 0 <= s < |sessions| && sessions[s].schedule.Some? ==> sessions[s].schedule.value < |schedules|)
    && (forall k :: 0 <= k < |schedules| ==>
          schedules[k].spent == Sum(calls, CostTo(tasks, sessions, k)))
  }

  /** A session is open exactly when some task in it is live. */
  ghost predicate SessionsOk(tasks: seq<Task>, sessions: seq<Session>, stale: int) {
    && (forall i :: 0 <= i < |tasks| ==> tasks[i].session < |sessions|)
    && (forall i :: 0 <= i < |tasks| && Live(tasks[i].status) && tasks[i].session < |sessions| ==>
          sessions[tasks[i].session].status.Open?)
    && (forall s :: 0 <= s < |sessions| && sessions[s].status.Open? && s != stale ==> HasLive(tasks, s))
  }

  ghost predicate SlotsOk(cfg: Config, tasks: seq<Task>) {
    forall a :: a in cfg ==> Count(tasks, OccupiesSlotOf(a)) <= cfg[a].maxConcurrent
  }

  ghost predicate InvExcept(cfg: Config, db: Db, owing: int, stale: int) {
    && ForestOk(cfg, db.tasks)
    && RowsOk(cfg, db.tasks)
    && CallsOk(cfg, db.tasks, db.calls)
    && OnePending(db.calls)
    && ApprovalsOk(db.tasks, db.calls, db.approvals)
    && WaitersAsked(db.tasks, db.approvals)
    && BudgetsOk(cfg, db.tasks, db.calls, owing)
    && SpendOk(db.tasks, db.calls, db.sessions, db.schedules)
    && SessionsOk(db.tasks, db.sessions, stale)
    && SlotsOk(cfg, db.tasks)
  }

  ghost predicate Inv(cfg: Config, db: Db) {
    InvExcept(cfg, db, NOBODY, NOBODY)
  }
}
