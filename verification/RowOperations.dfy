/** What each row operation keeps of the invariant. */
module RowOperations {
  import opened Tables
  import opened Transactions
  import opened Invariant

  // ---------------------------------------------------------------------------------------------
  // Changing one task row
  // ---------------------------------------------------------------------------------------------

  /** The columns of a task that never change. */
  predicate SameIdentity(row: Task, next: Task) {
    row.session == next.session && row.agent == next.agent && row.parent == next.parent && row.depth == next.depth
  }

  lemma ForestSetTask(cfg: Config, tasks: seq<Task>, t: TaskId, next: Task)
    requires ForestOk(cfg, tasks) && t < |tasks| && SameIdentity(tasks[t], next)
    ensures ForestOk(cfg, tasks[t := next])
  {
    var later := tasks[t := next];
    forall i | 0 <= i < |later| ensures ForestRow(cfg, later, i) {
      assert ForestRow(cfg, tasks, i);
      if tasks[i].parent.Some? {
        OnChainFrame(tasks, later, tasks[i].parent.value, tasks[i].agent);
        CountPointwise(tasks[..i], later[..i], InSession(tasks[i].session));
      }
    }
  }

  lemma SpendFrame(tasks: seq<Task>, later: seq<Task>, calls: seq<Call>, sessions: seq<Session>, after: seq<Session>,
                   schedules: seq<Schedule>)
    requires SpendOk(tasks, calls, sessions, schedules)
    requires |tasks| <= |later| && |sessions| <= |after|
    requires forall i :: 0 <= i < |tasks| ==> later[i].session == tasks[i].session < |sessions|
    requires forall s :: 0 <= s < |sessions| ==> after[s].schedule == sessions[s].schedule
    requires forall s :: |sessions| <= s < |after| ==> after[s].schedule.Some? ==> after[s].schedule.value < |schedules|
    requires forall c :: 0 <= c < |calls| ==> calls[c].task < |tasks|
    ensures SpendOk(later, calls, after, schedules)
  {
    forall k | 0 <= k < |schedules| ensures schedules[k].spent == Sum(calls, CostTo(later, after, k)) {
      SumSame(calls, CostTo(tasks, sessions, k), CostTo(later, after, k));
    }
  }

  lemma SpendSetTask(cfg: Config, tasks: seq<Task>, calls: seq<Call>, sessions: seq<Session>, schedules: seq<Schedule>,
                     t: TaskId, next: Task, stale: int)
    requires SpendOk(tasks, calls, sessions, schedules) && CallsOk(cfg, tasks, calls) && SessionsOk(tasks, sessions, stale)
    requires t < |tasks| && next.session == tasks[t].session
    ensures SpendOk(tasks[t := next], calls, sessions, schedules)
  {
    SpendFrame(tasks, tasks[t := next], calls, sessions, sessions, schedules);
  }

  lemma SessionsSetTask(tasks: seq<Task>, sessions: seq<Session>, t: TaskId, next: Task, stale: int, after: int)
    requires SessionsOk(tasks, sessions, stale) && t < |tasks| && next.session == tasks[t].session
    requires Live(next.status) ==> Live(tasks[t].status)
    requires if Live(tasks[t].status) && !Live(next.status)
             then after == next.session && (stale == NOBODY || stale == after)
             else after == stale
    ensures SessionsOk(tasks[t := next], sessions, after)
  {
    var later := tasks[t := next];
    forall s | 0 <= s < |sessions| && sessions[s].status.Open? && s != after ensures HasLive(later, s) {
      assert HasLive(tasks, s);
      var i :| 0 <= i < |tasks| && tasks[i].session == s && Live(tasks[i].status);
      assert later[i].session == s && Live(later[i].status);
    }
  }

  lemma SlotsSetTask(cfg: Config, tasks: seq<Task>, t: TaskId, next: Task)
    requires SlotsOk(cfg, tasks) && t < |tasks| && next.agent == tasks[t].agent
    requires HoldsSlot(next.status) ==> HoldsSlot(tasks[t].status) || !CapReached(cfg, tasks, t)
    ensures SlotsOk(cfg, tasks[t := next])
  {
    forall a | a in cfg ensures Count(tasks[t := next], OccupiesSlotOf(a)) <= cfg[a].maxConcurrent {
      CountUpdate(tasks, t, next, OccupiesSlotOf(a));
      CountSplit(tasks, t, OccupiesSlotOf(a));
    }
  }

  lemma ApprovalsSetTask(tasks: seq<Task>, calls: seq<Call>, approvals: seq<Approval>, t: TaskId, next: Task)
    requires ApprovalsOk(tasks, calls, approvals) && WaitersAsked(tasks, approvals) && t < |tasks|
    requires Live(next.status) ==> Live(tasks[t].status)
    requires Live(next.status) && Asked(approvals, t) ==> next.status.WaitingHuman?
    requires next.status.WaitingHuman? ==> Asked(approvals, t)
    ensures ApprovalsOk(tasks[t := next], calls, approvals) && WaitersAsked(tasks[t := next], approvals)
  {
    var later := tasks[t := next];
    forall a | 0 <= a < |approvals| ensures ApprovalOk(later, calls, approvals[a]) {
      assert ApprovalOk(tasks, calls, approvals[a]);
    }
    forall a, b | 0 <= a < b < |approvals| ensures Distinct(later, approvals[a], approvals[b]) {
      assert Distinct(tasks, approvals[a], approvals[b]);
    }
    forall a, c | 0 <= a < |approvals| && 0 <= c < |calls| ensures Holds(later, approvals[a], c, calls[c]) {
      assert Holds(tasks, approvals[a], c, calls[c]);
    }
  }

  lemma CallsSetTask(cfg: Config, tasks: seq<Task>, calls: seq<Call>, t: TaskId, next: Task)
    requires CallsOk(cfg, tasks, calls) && t < |tasks|
    requires forall c :: 0 <= c < |calls| && calls[c].task == t && Pending(calls[c]) ==> PendingOk(cfg, next, calls[c])
    ensures CallsOk(cfg, tasks[t := next], calls)
  {
  }

  /** A settled model call is paid for by the step that follows it. */
  function PaidBy(row: Task, next: Task, t: TaskId, owing: int): int {
    if owing == t && (next.steps > row.steps || Terminal(next.status)) then NOBODY else owing
  }

  lemma BudgetsSetTask(cfg: Config, tasks: seq<Task>, calls: seq<Call>, t: TaskId, next: Task, owing: int)
    requires BudgetsOk(cfg, tasks, calls, owing) && t < |tasks| && next.agent == tasks[t].agent
    requires next.steps >= tasks[t].steps
    requires Live(next.status) ==> Live(tasks[t].status)
    ensures BudgetsOk(cfg, tasks[t := next], calls, PaidBy(tasks[t], next, t, owing))
  {
    var later := tasks[t := next];
    forall u | 0 <= u < |later| ensures BudgetOk(cfg, later[u], u, calls, PaidBy(tasks[t], next, t, owing)) {
      assert BudgetOk(cfg, tasks[u], u, calls, owing);
    }
  }

  function StaleAfter(row: Task, next: Task, stale: int): int {
    if Live(row.status) && !Live(next.status) then row.session else stale
  }

  /** What a task may become, seen from its own row, its calls and its approvals. */
  ghost predicate MayBecome(cfg: Config, db: Db, t: TaskId, next: Task) {
    && t < |db.tasks|
    && var row := db.tasks[t];
    && SameIdentity(row, next)
    && RowOk(cfg, next)
    && next.steps >= row.steps
    && (Live(next.status) ==> Live(row.status))
    && (HoldsSlot(next.status) ==> HoldsSlot(row.status) || !CapReached(cfg, db.tasks, t))
    && (forall c :: 0 <= c < |db.calls| && db.calls[c].task == t && Pending(db.calls[c]) ==> PendingOk(cfg, next, db.calls[c]))
    && (Live(next.status) && Asked(db.approvals, t) ==> next.status.WaitingHuman?)
    && (next.status.WaitingHuman? ==> Asked(db.approvals, t))
  }

  lemma SetTaskKeeps(cfg: Config, db: Db, t: TaskId, next: Task, owing: int, stale: int)
    requires InvExcept(cfg, db, owing, stale) && MayBecome(cfg, db, t, next)
    requires stale == NOBODY || stale == next.session
    ensures InvExcept(cfg, SetTask(db, t, next), PaidBy(db.tasks[t], next, t, owing), StaleAfter(db.tasks[t], next, stale))
  {
    ForestSetTask(cfg, db.tasks, t, next);
    CallsSetTask(cfg, db.tasks, db.calls, t, next);
    ApprovalsSetTask(db.tasks, db.calls, db.approvals, t, next);
    BudgetsSetTask(cfg, db.tasks, db.calls, t, next, owing);
    SpendSetTask(cfg, db.tasks, db.calls, db.sessions, db.schedules, t, next, stale);
    SessionsSetTask(db.tasks, db.sessions, t, next, stale, StaleAfter(db.tasks[t], next, stale));
    SlotsSetTask(cfg, db.tasks, t, next);
  }

  // ---------------------------------------------------------------------------------------------
  // Logging, closing sessions
  // ---------------------------------------------------------------------------------------------

  /** `maybe_complete_session` is what brings the session table back in step. */
  lemma CloseSessionKeeps(cfg: Config, db: Db, s: SessionId, owing: int)
    requires InvExcept(cfg, db, owing, s) || InvExcept(cfg, db, owing, NOBODY)
    ensures InvExcept(cfg, CloseSession(db, s), owing, NOBODY)
  {
    hide ForestOk, RowsOk, OnePending, ApprovalsOk, WaitersAsked, BudgetsOk, SpendOk, SlotsOk, LatestRoot, HasFailed, PendingOk, CallOk;
    var next := CloseSession(db, s);
    if next != db {
      SpendFrame(db.tasks, db.tasks, db.calls, db.sessions, next.sessions, db.schedules);
    }
  }

  lemma FinishKeeps(cfg: Config, db: Db, t: TaskId, next: Task, owing: int)
    requires InvExcept(cfg, db, owing, NOBODY) && MayBecome(cfg, db, t, next) && Terminal(next.status)
    requires owing == NOBODY || owing == t
    ensures Inv(cfg, Finish(db, t, next))
  {
    SetTaskKeeps(cfg, db, t, next, owing, NOBODY);
    CloseSessionKeeps(cfg, SetTask(db, t, next), next.session, NOBODY);
  }

  lemma SetFinalAnswerKeeps(cfg: Config, db: Db, s: SessionId, text: string, owing: int)
    requires InvExcept(cfg, db, owing, NOBODY)
    ensures InvExcept(cfg, SetFinalAnswer(db, s, text), owing, NOBODY)
  {
    SpendFrame(db.tasks, db.tasks, db.calls, db.sessions, SetFinalAnswer(db, s, text).sessions, db.schedules);
  }

  // ---------------------------------------------------------------------------------------------
  // Changing or adding one call
  // ---------------------------------------------------------------------------------------------

  /** A running task has no approval to wait for. */
  lemma RunningNotAsked(tasks: seq<Task>, calls: seq<Call>, approvals: seq<Approval>, t: TaskId)
    requires ApprovalsOk(tasks, calls, approvals) && t < |tasks|
    requires Live(tasks[t].status) && !tasks[t].status.WaitingHuman?
    ensures !Asked(approvals, t)
  {
  }

  lemma ApprovalsSetCall(tasks: seq<Task>, calls: seq<Call>, approvals: seq<Approval>, c: CallId, next: Call)
    requires ApprovalsOk(tasks, calls, approvals) && c < |calls| && calls[c].task < |tasks|
    requires next.task == calls[c].task && next.kind == calls[c].kind && (Pending(next) ==> Pending(calls[c]))
    requires Live(tasks[next.task].status) && Asked(approvals, next.task) ==> next.status == calls[c].status
    ensures ApprovalsOk(tasks, calls[c := next], approvals)
  {
    var later := calls[c := next];
    forall a | 0 <= a < |approvals| ensures ApprovalOk(tasks, later, approvals[a]) {
      assert ApprovalOk(tasks, calls, approvals[a]);
    }
    forall a, d | 0 <= a < |approvals| && 0 <= d < |later| ensures Holds(tasks, approvals[a], d, later[d]) {
      assert Holds(tasks, approvals[a], d, calls[d]);
    }
  }

  /** Settling a model call leaves its task one step in debt; rolling its submission back forgives it. */
  function OwingAfter(call: Call, next: Call, owing: int): int {
    if call.kind.Llm? && Pending(call) && !Pending(next) then call.task
    else if call.kind.Llm? && !call.rolledBack && next.rolledBack && owing == call.task then NOBODY
    else owing
  }

  lemma BudgetsSetCall(cfg: Config, tasks: seq<Task>, calls: seq<Call>, c: CallId, next: Call, owing: int)
    requires BudgetsOk(cfg, tasks, calls, owing) && c < |calls|
    requires next.task == calls[c].task && next.kind == calls[c].kind && (Pending(next) ==> Pending(calls[c]))
    requires calls[c].rolledBack ==> next.rolledBack
    requires calls[c].kind.Llm? && Pending(calls[c]) && !Pending(next) ==> owing == NOBODY && !next.rolledBack
    ensures BudgetsOk(cfg, tasks, calls[c := next], OwingAfter(calls[c], next, owing))
  {
    forall t | 0 <= t < |tasks| ensures BudgetOk(cfg, tasks[t], t, calls[c := next], OwingAfter(calls[c], next, owing)) {
      assert BudgetOk(cfg, tasks[t], t, calls, owing);
      CountUpdate(calls, c, next, LlmOf(t));
      CountUpdate(calls, c, next, SettledLlmOf(t));
      CountUpdate(calls, c, next, RolledBackLlmOf(t));
    }
  }

  lemma SpendSetCall(tasks: seq<Task>, calls: seq<Call>, sessions: seq<Session>, schedules: seq<Schedule>, c: CallId, next: Call)
    requires SpendOk(tasks, calls, sessions, schedules) && c < |calls|
    requires next.task == calls[c].task && next.cost == calls[c].cost
    ensures SpendOk(tasks, calls[c := next], sessions, schedules)
  {
    forall k | 0 <= k < |schedules| ensures schedules[k].spent == Sum(calls[c := next], CostTo(tasks, sessions, k)) {
      SumUpdate(calls, c, next, CostTo(tasks, sessions, k));
    }
  }

  /** What may be written to a call row outside a harvest. */
  ghost predicate CallMayBecome(cfg: Config, db: Db, c: CallId, next: Call, owing: int) {
    && c < |db.calls|
    && var call := db.calls[c];
    && next.task == call.task < |db.tasks| && next.kind == call.kind
    && CallOk(next)
    && (Pending(next) ==> Pending(call) && PendingOk(cfg, db.tasks[next.task], next))
    && (call.rolledBack ==> next.rolledBack)
    && (call.kind.Llm? && Pending(call) && !Pending(next) ==> owing == NOBODY && !next.rolledBack)
    && (Live(db.tasks[next.task].status) && Asked(db.approvals, next.task) ==> next.status == call.status)
  }

  lemma SetCallKeeps(cfg: Config, db: Db, c: CallId, next: Call, owing: int, stale: int)
    requires InvExcept(cfg, db, owing, stale) && CallMayBecome(cfg, db, c, next, owing)
    requires next.cost == db.calls[c].cost
    ensures InvExcept(cfg, SetCall(db, c, next), OwingAfter(db.calls[c], next, owing), stale)
  {
    ApprovalsSetCall(db.tasks, db.calls, db.approvals, c, next);
    BudgetsSetCall(cfg, db.tasks, db.calls, c, next, owing);
    SpendSetCall(db.tasks, db.calls, db.sessions, db.schedules, c, next);
  }

  /** Harvesting a call with a cost moves that cost, once, to the schedule it belongs to. */
  lemma HarvestSpend(tasks: seq<Task>, calls: seq<Call>, sessions: seq<Session>, schedules: seq<Schedule>,
                     c: CallId, next: Call, after: Db)
    requires SpendOk(tasks, calls, sessions, schedules) && c < |calls|
    requires next.task == calls[c].task && calls[c].cost.None?
    requires after.tasks == tasks && after.sessions == sessions && after.schedules == schedules
    ensures SpendOk(tasks, calls[c := next], sessions, Charge(after, next.task, next.cost).schedules)
  {
    var charged := Charge(after, next.task, next.cost).schedules;
    forall k | 0 <= k < |charged|
      ensures charged[k].spent == Sum(calls[c := next], CostTo(tasks, sessions, k))
    {
      SumUpdate(calls, c, next, CostTo(tasks, sessions, k));
    }
  }

  lemma HarvestKeeps(cfg: Config, db: Db, c: CallId, next: Call)
    requires Inv(cfg, db) && CallMayBecome(cfg, db, c, next, NOBODY) && Pending(db.calls[c]) && !Pending(next)
    ensures InvExcept(cfg, Charge(SetCall(db, c, next), next.task, next.cost), OwingAfter(db.calls[c], next, NOBODY), NOBODY)
  {
    assert CallOk(db.calls[c]);
    ApprovalsSetCall(db.tasks, db.calls, db.approvals, c, next);
    BudgetsSetCall(cfg, db.tasks, db.calls, c, next, NOBODY);
    HarvestSpend(db.tasks, db.calls, db.sessions, db.schedules, c, next, SetCall(db, c, next));
  }

  /** With nothing pending, every model call of the task is settled. */
  lemma {:induction false} AllSettled(calls: seq<Call>, t: TaskId)
    requires forall c :: 0 <= c < |calls| && calls[c].task == t ==> !Pending(calls[c])
    ensures Count(calls, LlmOf(t)) == Count(calls, SettledLlmOf(t))
  {
    if calls != [] {
      AllSettled(calls[..|calls| - 1], t);
    }
  }

  lemma BudgetsInsertCall(cfg: Config, tasks: seq<Task>, calls: seq<Call>, t: TaskId, call: Call, owing: int)
    requires BudgetsOk(cfg, tasks, calls, owing) && t < |tasks| && call.task == t && call.status.Waiting? && !call.rolledBack
    requires call.kind.Llm? ==> !HasPending(calls, t) && owing != t && Live(tasks[t].status)
    requires tasks[t].agent in cfg && tasks[t].steps < cfg[tasks[t].agent].maxSteps
    ensures BudgetsOk(cfg, tasks, calls + [call], owing)
  {
    forall u | 0 <= u < |tasks| ensures BudgetOk(cfg, tasks[u], u, calls + [call], owing) {
      assert BudgetOk(cfg, tasks[u], u, calls, owing);
      CountAppend(calls, call, LlmOf(u));
      CountAppend(calls, call, SettledLlmOf(u));
      CountAppend(calls, call, RolledBackLlmOf(u));
      if u == t && call.kind.Llm? {
        AllSettled(calls, t);
      }
    }
  }

  lemma InsertCallKeeps(cfg: Config, db: Db, w: World, t: TaskId, kind: CallKind, owing: int)
    requires InvExcept(cfg, db, owing, NOBODY) && IsRunning(db, t) && !HasPending(db.calls, t)
    requires db.tasks[t].agent in cfg && db.tasks[t].steps < cfg[db.tasks[t].agent].maxSteps
    requires kind.Llm? ==> owing != t
    ensures InvExcept(cfg, InsertCall(db, w, t, kind), owing, NOBODY)
  {
    hide ForestOk, ApprovalsOk, WaitersAsked, BudgetsOk, SpendOk, SessionsOk, SlotsOk;
    var call := Call(t, kind, Waiting, w.now, None, 0, false);
    InsertCallApprovals(db.tasks, db.calls, db.approvals, call);
    BudgetsInsertCall(cfg, db.tasks, db.calls, t, call, owing);
    InsertCallSpend(db.tasks, db.calls, db.sessions, db.schedules, call);
  }

  lemma InsertCallApprovals(tasks: seq<Task>, calls: seq<Call>, approvals: seq<Approval>, call: Call)
    requires ApprovalsOk(tasks, calls, approvals) && call.task < |tasks| && tasks[call.task].status.Running?
    ensures ApprovalsOk(tasks, calls + [call], approvals)
  {
    var later := calls + [call];
    RunningNotAsked(tasks, calls, approvals, call.task);
    forall a | 0 <= a < |approvals| ensures ApprovalOk(tasks, later, approvals[a]) {
      assert ApprovalOk(tasks, calls, approvals[a]);
    }
    forall a, d | 0 <= a < |approvals| && 0 <= d < |later| ensures Holds(tasks, approvals[a], d, later[d]) {
      assert d < |calls| ==> Holds(tasks, approvals[a], d, calls[d]);
    }
  }

  lemma InsertCallSpend(tasks: seq<Task>, calls: seq<Call>, sessions: seq<Session>, schedules: seq<Schedule>, call: Call)
    requires SpendOk(tasks, calls, sessions, schedules) && call.cost.None?
    ensures SpendOk(tasks, calls + [call], sessions, schedules)
  {
    forall k | 0 <= k < |schedules| ensures schedules[k].spent == Sum(calls + [call], CostTo(tasks, sessions, k)) {
      SumAppend(calls, call, CostTo(tasks, sessions, k));
    }
  }

  // ---------------------------------------------------------------------------------------------
  // Approvals
  // ---------------------------------------------------------------------------------------------

  /** `call` is the queued request of task `t` that an approval holds back; without one, nothing of
      the task is pending. */
  predicate HeldBack(calls: seq<Call>, t: TaskId, call: Option<CallId>) {
    match call
    case None => !HasPending(calls, t)
    case Some(c) => c < |calls| && calls[c].task == t && calls[c].status.Waiting? && Gateable(calls[c].kind)
  }

  /** Pausing a running task for a human. `call` is the task's pending call, if it has one. */
  lemma HoldKeeps(cfg: Config, w: World, db: Db, t: TaskId, row: Task, call: Option<CallId>, owing: int)
    requires InvExcept(cfg, db, owing, NOBODY) && IsRunning(db, t)
    requires SameIdentity(db.tasks[t], row) && row.steps >= db.tasks[t].steps
    requires RowOk(cfg, row.(status := WaitingHuman))
    requires HeldBack(db.calls, t, call)
    requires call.Some? ==> row.steps == db.tasks[t].steps && row.decisions == db.tasks[t].decisions
    ensures InvExcept(cfg, Hold(w, db, t, row, call),
                      PaidBy(db.tasks[t], row.(status := WaitingHuman), t, owing), NOBODY)
  {
    hide ForestOk, RowsOk, CallsOk, OnePending, ApprovalsOk, WaitersAsked, BudgetsOk, SpendOk, SessionsOk, SlotsOk;
    var next := row.(status := WaitingHuman, updatedAt := w.now);
    HoldTask(cfg, db.tasks, t, next);
    HoldCalls(cfg, db.tasks, db.calls, t, next, call);
    RunningNotAsked(db.tasks, db.calls, db.approvals, t);
    var asked := Approval(t, call, Undecided, w.now + APPROVAL_SECONDS);
    HoldApprovals(db.tasks, db.calls, db.approvals, t, next, asked);
    BudgetsSetTask(cfg, db.tasks, db.calls, t, next, owing);
    SpendSetTask(cfg, db.tasks, db.calls, db.sessions, db.schedules, t, next, NOBODY);
    SessionsSetTask(db.tasks, db.sessions, t, next, NOBODY, NOBODY);
    assert Hold(w, db, t, row, call) == db.(tasks := db.tasks[t := next], approvals := db.approvals + [asked]);
  }

  lemma HoldTask(cfg: Config, tasks: seq<Task>, t: TaskId, next: Task)
    requires ForestOk(cfg, tasks) && RowsOk(cfg, tasks) && SlotsOk(cfg, tasks)
    requires t < |tasks| && tasks[t].status.Running? && SameIdentity(tasks[t], next) && RowOk(cfg, next)
    ensures ForestOk(cfg, tasks[t := next]) && RowsOk(cfg, tasks[t := next]) && SlotsOk(cfg, tasks[t := next])
  {
    ForestSetTask(cfg, tasks, t, next);
    SlotsSetTask(cfg, tasks, t, next);
  }

  lemma HoldCalls(cfg: Config, tasks: seq<Task>, calls: seq<Call>, t: TaskId, next: Task, call: Option<CallId>)
    requires CallsOk(cfg, tasks, calls) && OnePending(calls) && t < |tasks| && tasks[t].status.Running?
    requires SameIdentity(tasks[t], next) && next.status.WaitingHuman?
    requires HeldBack(calls, t, call)
    requires call.Some? ==> next.steps == tasks[t].steps && next.decisions == tasks[t].decisions
    ensures CallsOk(cfg, tasks[t := next], calls)
  {
    forall c | 0 <= c < |calls| && calls[c].task == t && Pending(calls[c]) ensures PendingOk(cfg, next, calls[c]) {
      OnlyPending(calls, call, c);
    }
    CallsSetTask(cfg, tasks, calls, t, next);
  }

  /** A pending call of a task is the only one. */
  lemma OnlyPending(calls: seq<Call>, held: Option<CallId>, c: CallId)
    requires OnePending(calls) && c < |calls| && Pending(calls[c])
    requires held.Some? ==> held.value < |calls| && calls[held.value].task == calls[c].task && Pending(calls[held.value])
    requires held.None? ==> !HasPending(calls, calls[c].task)
    ensures held == Some(c)
  {
  }

  lemma HoldApprovals(tasks: seq<Task>, calls: seq<Call>, approvals: seq<Approval>, t: TaskId, next: Task, asked: Approval)
    requires ApprovalsOk(tasks, calls, approvals) && WaitersAsked(tasks, approvals) && OnePending(calls)
    requires t < |tasks| && tasks[t].status.Running? && next.status.WaitingHuman? && !Asked(approvals, t)
    requires asked.task == t && asked.status.Undecided?
    requires HeldBack(calls, t, asked.call)
    ensures ApprovalsOk(tasks[t := next], calls, approvals + [asked])
    ensures WaitersAsked(tasks[t := next], approvals + [asked])
  {
    var later := tasks[t := next];
    var all := approvals + [asked];
    forall a | 0 <= a < |all| ensures ApprovalOk(later, calls, all[a]) {
      assert a < |approvals| ==> ApprovalOk(tasks, calls, approvals[a]);
    }
    forall a, b | 0 <= a < b < |all| ensures Distinct(later, all[a], all[b]) {
      assert b < |approvals| ==> Distinct(tasks, approvals[a], approvals[b]);
    }
    forall a, c | 0 <= a < |all| && 0 <= c < |calls| ensures Holds(later, all[a], c, calls[c]) {
      if a < |approvals| {
        assert Holds(tasks, approvals[a], c, calls[c]);
      } else if calls[c].task == t && Pending(calls[c]) {
        OnlyPending(calls, asked.call, c);
      }
    }
    forall u | 0 <= u < |later| && later[u].status.WaitingHuman? ensures Asked(all, u) {
      if u == t {
        assert all[|approvals|].task == t;
      } else {
        var a :| 0 <= a < |approvals| && approvals[a].task == u && approvals[a].status.Undecided?;
        assert all[a].task == u;
      }
    }
  }

  /** Deciding an approval whose task does not wait for it. */
  lemma DecideKeeps(cfg: Config, db: Db, a: ApprovalId, status: ApprovalStatus, owing: int, stale: int)
    requires InvExcept(cfg, db, owing, stale) && a < |db.approvals| && !status.Undecided?
    requires db.approvals[a].status.Undecided? ==> !(db.approvals[a].task < |db.tasks| && db.tasks[db.approvals[a].task].status.WaitingHuman?)
    ensures InvExcept(cfg, db.(approvals := db.approvals[a := db.approvals[a].(status := status)]), owing, stale)
  {
    var later := db.approvals[a := db.approvals[a].(status := status)];
    ApprovalsDecided(db.tasks, db.calls, db.approvals, later);
    forall t | 0 <= t < |db.tasks| && db.tasks[t].status.WaitingHuman? ensures Asked(later, t) {
      var b :| 0 <= b < |db.approvals| && db.approvals[b].task == t && db.approvals[b].status.Undecided?;
      assert later[b].task == t;
    }
  }

  /** Approvals only ever leave the undecided state. */
  lemma ApprovalsDecided(tasks: seq<Task>, calls: seq<Call>, approvals: seq<Approval>, later: seq<Approval>)
    requires ApprovalsOk(tasks, calls, approvals) && |later| == |approvals|
    requires forall a :: 0 <= a < |approvals| ==>
      later[a].task == approvals[a].task && later[a].call == approvals[a].call
      && (later[a].status.Undecided? ==> approvals[a].status.Undecided?)
    ensures ApprovalsOk(tasks, calls, later)
  {
    forall a | 0 <= a < |later| ensures ApprovalOk(tasks, calls, later[a]) {
      assert ApprovalOk(tasks, calls, approvals[a]);
    }
    forall a, b | 0 <= a < b < |later| ensures Distinct(tasks, later[a], later[b]) {
      assert Distinct(tasks, approvals[a], approvals[b]);
    }
    forall a, c | 0 <= a < |later| && 0 <= c < |calls| ensures Holds(tasks, later[a], c, calls[c]) {
      assert Holds(tasks, approvals[a], c, calls[c]);
    }
  }

  /** A decision releases the task that waits for it: it was the only one asked. */
  lemma ReleaseApprovals(tasks: seq<Task>, calls: seq<Call>, approvals: seq<Approval>, a: ApprovalId, next: Task, status: ApprovalStatus)
    requires ApprovalsOk(tasks, calls, approvals) && WaitersAsked(tasks, approvals) && a < |approvals|
    requires approvals[a].status.Undecided? && !status.Undecided? && approvals[a].task < |tasks|
    requires tasks[approvals[a].task].status.WaitingHuman? && !next.status.WaitingHuman?
    ensures ApprovalsOk(tasks[approvals[a].task := next], calls, approvals[a := approvals[a].(status := status)])
    ensures WaitersAsked(tasks[approvals[a].task := next], approvals[a := approvals[a].(status := status)])
  {
    var t := approvals[a].task;
    var later := tasks[t := next];
    var all := approvals[a := approvals[a].(status := status)];
    forall b | 0 <= b < |all| ensures ApprovalOk(later, calls, all[b]) {
      assert ApprovalOk(tasks, calls, approvals[b]);
      if b < a {
        assert Distinct(tasks, approvals[b], approvals[a]);
      } else if b > a {
        assert Distinct(tasks, approvals[a], approvals[b]);
      }
    }
    forall b, d | 0 <= b < d < |all| ensures Distinct(later, all[b], all[d]) {
      assert Distinct(tasks, approvals[b], approvals[d]);
      assert ApprovalOk(later, calls, all[b]);
    }
    forall b, c | 0 <= b < |all| && 0 <= c < |calls| ensures Holds(later, all[b], c, calls[c]) {
      assert Holds(tasks, approvals[b], c, calls[c]);
      assert ApprovalOk(later, calls, all[b]);
    }
    forall u | 0 <= u < |later| && later[u].status.WaitingHuman? ensures Asked(all, u) {
      var b :| 0 <= b < |approvals| && approvals[b].task == u && approvals[b].status.Undecided?;
      assert all[b].task == u;
    }
  }

  lemma ReleaseKeeps(cfg: Config, db: Db, a: ApprovalId, next: Task, status: ApprovalStatus)
    requires Inv(cfg, db) && a < |db.approvals| && db.approvals[a].status.Undecided? && !status.Undecided?
    requires var t := db.approvals[a].task;
             && t < |db.tasks| && db.tasks[t].status.WaitingHuman?
             && SameIdentity(db.tasks[t], next) && RowOk(cfg, next) && next.steps >= db.tasks[t].steps
             && (next.status.Running? || next.status.Queued?)
             && (forall c :: 0 <= c < |db.calls| && db.calls[c].task == t && Pending(db.calls[c]) ==> PendingOk(cfg, next, db.calls[c]))
    ensures Inv(cfg, SetTask(db.(approvals := db.approvals[a := db.approvals[a].(status := status)]), db.approvals[a].task, next))
  {
    hide ForestOk, CallsOk, OnePending, ApprovalsOk, WaitersAsked, BudgetsOk, SpendOk, SessionsOk, SlotsOk;
    var t := db.approvals[a].task;
    ForestSetTask(cfg, db.tasks, t, next);
    CallsSetTask(cfg, db.tasks, db.calls, t, next);
    ReleaseApprovals(db.tasks, db.calls, db.approvals, a, next, status);
    BudgetsSetTask(cfg, db.tasks, db.calls, t, next, NOBODY);
    SpendSetTask(cfg, db.tasks, db.calls, db.sessions, db.schedules, t, next, NOBODY);
    SessionsSetTask(db.tasks, db.sessions, t, next, NOBODY, NOBODY);
    SlotsSetTask(cfg, db.tasks, t, next);
  }

  /** The approvals of finished tasks may be rejected. */
  lemma RejectKeeps(cfg: Config, db: Db, mine: set<TaskId>, stale: int)
    requires InvExcept(cfg, db, NOBODY, stale)
    requires forall t :: t in mine && t < |db.tasks| ==> Terminal(db.tasks[t].status)
    ensures InvExcept(cfg, db.(approvals := RejectApprovals(db.approvals, mine)), NOBODY, stale)
  {
    var later := RejectApprovals(db.approvals, mine);
    ApprovalsDecided(db.tasks, db.calls, db.approvals, later);
    forall t | 0 <= t < |db.tasks| && db.tasks[t].status.WaitingHuman? ensures Asked(later, t) {
      var b :| 0 <= b < |db.approvals| && db.approvals[b].task == t && db.approvals[b].status.Undecided?;
      assert later[b].task == t;
    }
  }

  // ---------------------------------------------------------------------------------------------
  // Losing the calls of finished tasks
  // ---------------------------------------------------------------------------------------------

  lemma LoseBudgets(cfg: Config, w: World, tasks: seq<Task>, calls: seq<Call>, mine: set<TaskId>)
    requires BudgetsOk(cfg, tasks, calls, NOBODY)
    requires forall t :: t in mine && t < |tasks| ==> Terminal(tasks[t].status)
    ensures BudgetsOk(cfg, tasks, LoseCalls(w, calls, mine), NOBODY)
  {
    var later := LoseCalls(w, calls, mine);
    forall t | 0 <= t < |tasks| ensures BudgetOk(cfg, tasks[t], t, later, NOBODY) {
      assert BudgetOk(cfg, tasks[t], t, calls, NOBODY);
      CountPointwise(calls, later, LlmOf(t));
      CountPointwise(calls, later, RolledBackLlmOf(t));
      if t !in mine {
        CountPointwise(calls, later, SettledLlmOf(t));
      }
    }
  }

  lemma LoseApprovals(w: World, tasks: seq<Task>, calls: seq<Call>, approvals: seq<Approval>, mine: set<TaskId>)
    requires ApprovalsOk(tasks, calls, approvals)
    requires forall t :: t in mine && t < |tasks| ==> Terminal(tasks[t].status)
    ensures ApprovalsOk(tasks, LoseCalls(w, calls, mine), approvals)
  {
    var later := LoseCalls(w, calls, mine);
    forall a | 0 <= a < |approvals| ensures ApprovalOk(tasks, later, approvals[a]) {
      assert ApprovalOk(tasks, calls, approvals[a]);
    }
    forall a, c | 0 <= a < |approvals| && 0 <= c < |later| ensures Holds(tasks, approvals[a], c, later[c]) {
      assert Holds(tasks, approvals[a], c, calls[c]);
    }
  }

  lemma LoseSpend(w: World, tasks: seq<Task>, calls: seq<Call>, sessions: seq<Session>, schedules: seq<Schedule>, mine: set<TaskId>)
    requires SpendOk(tasks, calls, sessions, schedules)
    ensures SpendOk(tasks, LoseCalls(w, calls, mine), sessions, schedules)
  {
    forall k | 0 <= k < |schedules|
      ensures schedules[k].spent == Sum(LoseCalls(w, calls, mine), CostTo(tasks, sessions, k))
    {
      SumPointwise(calls, LoseCalls(w, calls, mine), CostTo(tasks, sessions, k));
    }
  }

  lemma LoseRows(cfg: Config, w: World, tasks: seq<Task>, calls: seq<Call>, mine: set<TaskId>)
    requires CallsOk(cfg, tasks, calls) && OnePending(calls)
    ensures CallsOk(cfg, tasks, LoseCalls(w, calls, mine)) && OnePending(LoseCalls(w, calls, mine))
  {
  }

  lemma LoseKeeps(cfg: Config, w: World, db: Db, mine: set<TaskId>, stale: int)
    requires InvExcept(cfg, db, NOBODY, stale)
    requires forall t :: t in mine && t < |db.tasks| ==> Terminal(db.tasks[t].status)
    ensures InvExcept(cfg, db.(calls := LoseCalls(w, db.calls, mine)), NOBODY, stale)
  {
    hide ForestOk, RowsOk, CallsOk, OnePending, ApprovalsOk, WaitersAsked, BudgetsOk, SpendOk, SessionsOk, SlotsOk, LoseCalls;
    LoseRows(cfg, w, db.tasks, db.calls, mine);
    LoseApprovals(w, db.tasks, db.calls, db.approvals, mine);
    LoseBudgets(cfg, w, db.tasks, db.calls, mine);
    LoseSpend(w, db.tasks, db.calls, db.sessions, db.schedules, mine);
  }

  // ---------------------------------------------------------------------------------------------
  // New tasks and sessions
  // ---------------------------------------------------------------------------------------------

  /** A task that no call names yet has made none. */
  lemma {:induction false} NoCallsYet(calls: seq<Call>, t: TaskId)
    requires forall c :: 0 <= c < |calls| ==> calls[c].task != t
    ensures Count(calls, LlmOf(t)) == 0 && Count(calls, SettledLlmOf(t)) == 0
  {
    if calls != [] {
      NoCallsYet(calls[..|calls| - 1], t);
    }
  }

  lemma InsertTaskKeeps(cfg: Config, db: Db, w: World, s: SessionId, a: AgentId, parent: Option<TaskId>, depth: nat, owing: int, stale: int)
    requires InvExcept(cfg, db, owing, stale) && (stale == NOBODY || stale == s)
    requires s < |db.sessions| && db.sessions[s].status.Open? && a in cfg
    requires match parent
             case None => depth == 0
             case Some(p) => p < |db.tasks| && db.tasks[p].agent in cfg && db.tasks[p].session == s
                             && depth == db.tasks[p].depth + 1 <= cfg[db.tasks[p].agent].maxDepth
                             && !OnChain(db.tasks, p, a)
                             && Count(db.tasks, InSession(s)) < cfg[db.tasks[p].agent].maxSessionTasks
    ensures InvExcept(cfg, InsertTask(db, w, s, a, parent, depth), owing, NOBODY)
  {
    hide ForestOk, OnePending, ApprovalsOk, BudgetsOk, SpendOk, SlotsOk;
    var row := Task(s, a, parent, depth, Queued, 0, None, w.now, None, None, 0);
    ForestInsertTask(cfg, db.tasks, row);
    CallsInsertTask(cfg, db.tasks, db.calls, row);
    InsertTaskApprovals(db.tasks, db.calls, db.approvals, row);
    BudgetsInsertTask(cfg, db.tasks, db.calls, row, owing);
    SpendFrame(db.tasks, db.tasks + [row], db.calls, db.sessions, db.sessions, db.schedules);
    SessionsInsertTask(db.tasks, db.sessions, row, stale);
    SlotsInsertTask(cfg, db.tasks, row);
    assert InsertTask(db, w, s, a, parent, depth) == db.(tasks := db.tasks + [row]);
  }

  lemma SlotsInsertTask(cfg: Config, tasks: seq<Task>, row: Task)
    requires SlotsOk(cfg, tasks) && !HoldsSlot(row.status)
    ensures SlotsOk(cfg, tasks + [row])
  {
    forall b | b in cfg ensures Count(tasks + [row], OccupiesSlotOf(b)) <= cfg[b].maxConcurrent {
      CountAppend(tasks, row, OccupiesSlotOf(b));
    }
  }

  lemma ForestInsertTask(cfg: Config, tasks: seq<Task>, row: Task)
    requires ForestOk(cfg, tasks) && row.agent in cfg
    requires row.parent.None? ==> row.depth == 0
    requires row.parent.Some? ==>
      var p := row.parent.value;
      && p < |tasks| && tasks[p].agent in cfg && row.session == tasks[p].session
      && row.depth == tasks[p].depth + 1 <= cfg[tasks[p].agent].maxDepth
      && !OnChain(tasks, p, row.agent)
      && Count(tasks, InSession(row.session)) < cfg[tasks[p].agent].maxSessionTasks
    ensures ForestOk(cfg, tasks + [row])
  {
    var later := tasks + [row];
    forall i | 0 <= i < |later| ensures ForestRow(cfg, later, i) {
      assert i < |tasks| ==> ForestRow(cfg, tasks, i);
      if later[i].parent.Some? {
        OnChainFrame(tasks, later, later[i].parent.value, later[i].agent);
        assert later[..i] == tasks[..i];
      }
    }
  }

  lemma CallsInsertTask(cfg: Config, tasks: seq<Task>, calls: seq<Call>, row: Task)
    requires CallsOk(cfg, tasks, calls) && RowsOk(cfg, tasks) && RowOk(cfg, row)
    ensures CallsOk(cfg, tasks + [row], calls) && RowsOk(cfg, tasks + [row])
  {
  }

  lemma BudgetsInsertTask(cfg: Config, tasks: seq<Task>, calls: seq<Call>, row: Task, owing: int)
    requires BudgetsOk(cfg, tasks, calls, owing) && row.agent in cfg
    requires forall c :: 0 <= c < |calls| ==> calls[c].task < |tasks|
    ensures BudgetsOk(cfg, tasks + [row], calls, owing)
  {
    forall u | 0 <= u < |tasks + [row]| ensures BudgetOk(cfg, (tasks + [row])[u], u, calls, owing) {
      if u < |tasks| {
        assert BudgetOk(cfg, tasks[u], u, calls, owing);
      } else {
        NoCallsYet(calls, u);
      }
    }
  }

  lemma SessionsInsertTask(tasks: seq<Task>, sessions: seq<Session>, row: Task, stale: int)
    requires SessionsOk(tasks, sessions, stale) && Live(row.status)
    requires row.session < |sessions| && sessions[row.session].status.Open? && (stale == NOBODY || stale == row.session)
    ensures SessionsOk(tasks + [row], sessions, NOBODY)
  {
    var later := tasks + [row];
    forall r | 0 <= r < |sessions| && sessions[r].status.Open? ensures HasLive(later, r) {
      if r == row.session {
        assert later[|tasks|].session == r && Live(later[|tasks|].status);
      } else {
        var i :| 0 <= i < |tasks| && tasks[i].session == r && Live(tasks[i].status);
        assert later[i].session == r && Live(later[i].status);
      }
    }
  }

  lemma InsertTaskApprovals(tasks: seq<Task>, calls: seq<Call>, approvals: seq<Approval>, row: Task)
    requires ApprovalsOk(tasks, calls, approvals) && WaitersAsked(tasks, approvals) && row.status.Queued?
    ensures ApprovalsOk(tasks + [row], calls, approvals) && WaitersAsked(tasks + [row], approvals)
  {
    var later := tasks + [row];
    forall a | 0 <= a < |approvals| ensures ApprovalOk(later, calls, approvals[a]) {
      assert ApprovalOk(tasks, calls, approvals[a]);
    }
    forall a, b | 0 <= a < b < |approvals| ensures Distinct(later, approvals[a], approvals[b]) {
      assert Distinct(tasks, approvals[a], approvals[b]);
    }
    forall a, c | 0 <= a < |approvals| && 0 <= c < |calls| ensures Holds(later, approvals[a], c, calls[c]) {
      assert ApprovalOk(tasks, calls, approvals[a]) && Holds(tasks, approvals[a], c, calls[c]);
    }
  }

  /** Opening a session ahead of inserting its first task. */
  lemma OpenSessionKeeps(cfg: Config, db: Db, sessions: seq<Session>, s: SessionId)
    requires Inv(cfg, db) && |db.sessions| <= |sessions| && s < |sessions| <= |db.sessions| + 1 && sessions[s].status.Open?
    requires forall r :: 0 <= r < |db.sessions| ==> sessions[r].schedule == db.sessions[r].schedule
    requires forall r :: 0 <= r < |db.sessions| && r != s ==> sessions[r] == db.sessions[r]
    requires |sessions| > |db.sessions| ==> s == |db.sessions|
    requires sessions[s].schedule.Some? ==> sessions[s].schedule.value < |db.schedules|
    ensures InvExcept(cfg, db.(sessions := sessions), NOBODY, s)
  {
    SpendFrame(db.tasks, db.tasks, db.calls, db.sessions, sessions, db.schedules);
  }

  lemma InsertSessionKeeps(cfg: Config, db: Db, w: World, a: AgentId, schedule: Option<ScheduleId>)
    requires Inv(cfg, db) && a in cfg && (schedule.Some? ==> schedule.value < |db.schedules|)
    ensures Inv(cfg, InsertSession(db, w, a, schedule))
  {
    var s := |db.sessions|;
    var openedDb := db.(sessions := db.sessions + [Session(a, schedule, Open, None)]);
    OpenSessionKeeps(cfg, db, openedDb.sessions, s);
    InsertTaskKeeps(cfg, openedDb, w, s, a, None, 0, NOBODY, s);
  }
}
