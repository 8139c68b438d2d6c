/** How a task gets its next model turn and how a queued call gets sent: exactly when, and what happens
    otherwise, in the columns of the tables. */
module DispatchEffects {
  import opened Tables
  import opened Transactions
  import opened Invariant
  import opened Preservation
  import opened Authorization
  import opened Effects
  import opened SweepEffects

  // ---------------------------------------------------------------------------------------------
  // The cap
  // ---------------------------------------------------------------------------------------------

  function Rows<T>(rows: seq<T>, p: T -> bool): set<nat> {
    set i | 0 <= i < |rows| && p(rows[i])
  }

  lemma {:induction false} CountIsRows<T>(rows: seq<T>, p: T -> bool)
    ensures Count(rows, p) == |Rows(rows, p)|
  {
    if rows == [] {
      assert Rows(rows, p) == {};
    } else {
      var n := |rows| - 1;
      CountIsRows(rows[..n], p);
      assert Rows(rows, p) == Rows(rows[..n], p) + (if p(rows[n]) then {n} else {});
    }
  }

  /** The other tasks of the same agent that hold a slot. */
  function OthersInSlots(tasks: seq<Task>, t: TaskId): set<nat>
    requires t < |tasks|
  {
    set u | 0 <= u < |tasks| && u != t && tasks[u].agent == tasks[t].agent && HoldsSlot(tasks[u].status)
  }

  lemma CapExactly(cfg: Config, tasks: seq<Task>, t: TaskId)
    requires t < |tasks| && tasks[t].agent in cfg
    ensures CapReached(cfg, tasks, t) <==> |OthersInSlots(tasks, t)| >= cfg[tasks[t].agent].maxConcurrent
  {
    var p := OccupiesSlotOf(tasks[t].agent);
    CountSplit(tasks, t, p);
    CountIsRows(tasks, p);
    assert OthersInSlots(tasks, t) == Rows(tasks, p) - {t};
  }

  // ---------------------------------------------------------------------------------------------
  // One task's turn
  // ---------------------------------------------------------------------------------------------

  /** The task may get a turn: it is queued or running, and none of its calls is outstanding. */
  predicate Ready(db: Db, t: TaskId) {
    && t < |db.tasks| && (db.tasks[t].status.Queued? || db.tasks[t].status.Running?)
    && forall c :: 0 <= c < |db.calls| && db.calls[c].task == t ==> !db.calls[c].status.Waiting? && !db.calls[c].status.InFlight?
  }

  function Started(w: World, row: Task): Task {
    if row.status.Running? then row
    else row.(status := Running, updatedAt := w.now, startedAt := if row.startedAt.Some? then row.startedAt else Some(w.now))
  }

  /** The turn ends before it begins: the agent is off, or the steps are used up. */
  ghost predicate TurnRefused(w: World, db: Db, next: Db, t: TaskId, reason: string)
    requires t < |db.tasks|
  {
    && next.tasks == db.tasks[t := Started(w, db.tasks[t]).(status := Failed, error := Some(reason), updatedAt := w.now)]
    && next.logs == db.logs + [Log(t, db.tasks[t].steps, ErrorRole, Text)]
    && next.calls == db.calls && next.approvals == db.approvals
  }

  /** The turn is under way: the task runs, perhaps next to a new compaction, and a model call is queued. */
  ghost predicate TurnBegun(w: World, db: Db, next: Db, t: TaskId, compactor: Option<AgentId>)
    requires t < |db.tasks|
  {
    && next.calls == db.calls + [Call(t, Llm, Waiting, w.now, None, 0, false)] && next.approvals == db.approvals
    && (if compactor.None? then
          next.tasks == db.tasks[t := Started(w, db.tasks[t])] && next.logs == db.logs && next.sessions == db.sessions
        else
          && next.sessions == db.sessions + [Session(compactor.value, None, Open, None)]
          && next.tasks == db.tasks[t := Started(w, db.tasks[t])]
                           + [Task(|db.sessions|, compactor.value, None, 0, Queued, 0, None, w.now, None, None, 0)]
          && next.logs == db.logs + [Log(|db.tasks|, 0, UserRole, Text), Log(|db.tasks|, 1, UserRole, Text)])
  }

  /** Only a root task's turn compacts, and only by an active compactor. */
  function Compacting(cfg: Config, w: World, row: Task, prompt: Prompt): Option<AgentId> {
    if prompt.PromptBuilt? && prompt.compactor.Some? && row.parent.None? && prompt.compactor.value in w.active && prompt.compactor.value in cfg
    then prompt.compactor else None
  }

  function OneRow(t: TaskId, prompt: Prompt, httpOk: bool, error: string): Event {
    Dispatched([DispatchRow(t, prompt, httpOk, error)])
  }

  lemma OneRowDispatched(cfg: Config, w: World, db: Db, t: TaskId, prompt: Prompt, httpOk: bool, error: string)
    ensures var row := DispatchRow(t, prompt, httpOk, error);
            var next := Apply(cfg, db, Tx(w, OneRow(t, prompt, httpOk, error)));
            next == if !Dispatchable(db, t) || DispatchOne(cfg, w, db, row).None? then db else DispatchOne(cfg, w, db, row).value.db
  {
    hide DispatchOne, Dispatchable;
    var rows := [DispatchRow(t, prompt, httpOk, error)];
    assert DispatchRows(cfg, w, db, rows, 0) == Some(Dispatch(db, 0));
    assert FirstTime(rows, 0);
  }

  /** A task that is not ready, or whose agent's other tasks hold all its slots, gets no turn. */
  lemma NoTurn(cfg: Config, w: World, db: Db, t: TaskId, prompt: Prompt, httpOk: bool, error: string)
    requires !Ready(db, t) || (db.tasks[t].agent in cfg && |OthersInSlots(db.tasks, t)| >= cfg[db.tasks[t].agent].maxConcurrent)
    ensures Apply(cfg, db, Tx(w, OneRow(t, prompt, httpOk, error))) == db
  {
    hide Apply, NextStep, SubmitResult;
    OneRowDispatched(cfg, w, db, t, prompt, httpOk, error);
    if Ready(db, t) {
      CapExactly(cfg, db.tasks, t);
      hide CapReached, OthersInSlots;
    }
  }

  /** The turn could not be sent, with or without a new compaction: its error is counted. */
  ghost predicate TurnFailed(cfg: Config, db: Db, next: Db, t: TaskId, error: string)
    requires t < |db.tasks| && db.tasks[t].agent in cfg
  {
    && t < |next.tasks| && next.tasks[t].steps == db.tasks[t].steps + 1 && next.calls == db.calls
    && (next.tasks[t].status.Failed? <==> |Errors(db.logs, t)| + 1 > cfg[db.tasks[t].agent].maxRetries)
    && (if next.tasks[t].status.Failed? then next.tasks[t].error == Some(error) else next.tasks[t].status.Running?)
  }

  lemma SendingFails(cfg: Config, w: World, db: Db, begun: Db, t: TaskId, error: string)
    requires t < |db.tasks| && db.tasks[t].agent in cfg && db.tasks[t].agent in w.active
    requires IsRunning(begun, t) && begun.tasks[t].agent == db.tasks[t].agent && begun.tasks[t].steps == db.tasks[t].steps
    requires begun.calls == db.calls
    requires db.logs <= begun.logs && forall l :: |db.logs| <= l < |begun.logs| ==> begun.logs[l].task != t
    ensures var next := SubmitResult(cfg, w, begun, t, Failure(error)); next.Some? && TurnFailed(cfg, db, next.value, t, error)
  {
    hide SubmitResult, Errors;
    FailureOutcome(cfg, w, begun, t, error);
    ErrorsFrame(db.logs, begun.logs, t);
    OneMoreError(begun.logs, t, begun.tasks[t].steps + 1);
  }

  /** What `NextStep` does for a turn that begins. */
  lemma Begins(cfg: Config, w: World, db: Db, t: TaskId, prompt: Prompt)
    requires t < |db.tasks| && (db.tasks[t].status.Queued? || db.tasks[t].status.Running?) && db.tasks[t].agent in cfg
    requires db.tasks[t].agent in w.active && db.tasks[t].steps < cfg[db.tasks[t].agent].maxSteps && prompt.PromptBuilt?
    ensures var step := NextStep(cfg, w, db, t, prompt);
            && step.CallLlm?
            && TurnBegun(w, db, InsertCall(step.db, w, t, Llm), t, Compacting(cfg, w, db.tasks[t], prompt))
            && t < |step.db.tasks| && step.db.tasks[t] == Started(w, db.tasks[t]) && step.db.calls == db.calls
            && db.logs <= step.db.logs && forall l :: |db.logs| <= l < |step.db.logs| ==> step.db.logs[l].task != t
  {
  }

  lemma Refuses(cfg: Config, w: World, db: Db, t: TaskId, prompt: Prompt)
    requires t < |db.tasks| && (db.tasks[t].status.Queued? || db.tasks[t].status.Running?) && db.tasks[t].agent in cfg
    requires db.tasks[t].agent !in w.active || db.tasks[t].steps >= cfg[db.tasks[t].agent].maxSteps
    ensures var step := NextStep(cfg, w, db, t, prompt);
            step.NoCall? && TurnRefused(w, db, step.db, t, if db.tasks[t].agent !in w.active then "agent_inactive" else "max_steps")
  {
    hide HasLive, HasFailed, LatestRoot;
  }

  /** Any other ready task: it is refused its turn, gets it, or is told what went wrong with it. */
  lemma TurnOutcome(cfg: Config, w: World, db: Db, t: TaskId, prompt: Prompt, httpOk: bool, error: string)
    requires Ready(db, t) && db.tasks[t].agent in cfg && |OthersInSlots(db.tasks, t)| < cfg[db.tasks[t].agent].maxConcurrent
    ensures var row := db.tasks[t];
            var next := Apply(cfg, db, Tx(w, OneRow(t, prompt, httpOk, error)));
            if row.agent !in w.active then TurnRefused(w, db, next, t, "agent_inactive")
            else if row.steps >= cfg[row.agent].maxSteps then TurnRefused(w, db, next, t, "max_steps")
            else if prompt.PromptFails? then
              if row.status.Running? then ErrorCounted(cfg, db, next, t, error) && OnlyTask(db, next, t) else next == db
            else if httpOk then TurnBegun(w, db, next, t, Compacting(cfg, w, row, prompt))
            else TurnFailed(cfg, db, next, t, error)
  {
    OneRowDispatched(cfg, w, db, t, prompt, httpOk, error);
    CapExactly(cfg, db.tasks, t);
    hide Apply, CapReached, OthersInSlots, SubmitResult, TurnRefused, TurnBegun, TurnFailed, ErrorCounted, OnlyTask, Compacting, Started;
    var row := db.tasks[t];
    assert Dispatchable(db, t);
    if row.agent !in w.active || row.steps >= cfg[row.agent].maxSteps {
      Refuses(cfg, w, db, t, prompt);
    } else if prompt.PromptFails? {
      TurnNotBuilt(cfg, w, db, t, error);
    } else {
      Begins(cfg, w, db, t, prompt);
      var begun := NextStep(cfg, w, db, t, prompt).db;
      StartedRow(w, row);
      if !httpOk {
        SendingFails(cfg, w, db, begun, t, error);
      }
    }
  }

  lemma StartedRow(w: World, row: Task)
    requires row.status.Queued? || row.status.Running?
    ensures var s := Started(w, row); s.status.Running? && s.agent == row.agent && s.steps == row.steps
  {
  }

  lemma TurnNotBuilt(cfg: Config, w: World, db: Db, t: TaskId, error: string)
    requires t < |db.tasks| && (db.tasks[t].status.Queued? || db.tasks[t].status.Running?) && db.tasks[t].agent in cfg
    requires db.tasks[t].agent in w.active
    ensures var next := SubmitResult(cfg, w, db, t, Failure(error));
            && (next.Some? <==> db.tasks[t].status.Running?)
            && (next.Some? ==> ErrorCounted(cfg, db, next.value, t, error) && OnlyTask(db, next.value, t))
  {
    hide ErrorCounted, OnlyTask, Count;
    if db.tasks[t].status.Running? {
      FailureOutcome(cfg, w, db, t, error);
    }
  }

  // ---------------------------------------------------------------------------------------------
  // The limits
  // ---------------------------------------------------------------------------------------------

  lemma {:induction false} DispatchRowsLimit(cfg: Config, w: World, db: Db, rows: seq<DispatchRow>, n: nat)
    requires n <= |rows|
    ensures var d := DispatchRows(cfg, w, db, rows, n);
            d.Some? ==> d.value.sent <= 4 && |d.value.db.calls| == |db.calls| + d.value.sent
  {
    hide DispatchOne, Dispatchable, FirstTime;
    if n > 0 {
      DispatchRowsLimit(cfg, w, db, rows, n - 1);
      var sofar := DispatchRows(cfg, w, db, rows, n - 1);
      if sofar.Some? {
        DispatchOneAdds(cfg, w, sofar.value.db, rows[n - 1]);
      }
    }
  }

  lemma DispatchOneAdds(cfg: Config, w: World, db: Db, row: DispatchRow)
    ensures var d := DispatchOne(cfg, w, db, row);
            d.Some? ==> d.value.sent <= 1 && |d.value.db.calls| == |db.calls| + d.value.sent
  {
    hide NextStep, SubmitResult, CapReached;
    NextStepAddsNoCall(cfg, w, db, row.task, row.prompt);
    ErrorAddsNothing(cfg, w, db, row.task, row.error);
    var step := NextStep(cfg, w, db, row.task, row.prompt);
    if step.CallLlm? {
      ErrorAddsNothing(cfg, w, step.db, row.task, row.error);
    }
  }

  lemma NextStepAddsNoCall(cfg: Config, w: World, db: Db, t: TaskId, prompt: Prompt)
    ensures var step := NextStep(cfg, w, db, t, prompt); !step.Raised? ==> |step.db.calls| == |db.calls|
  {
    hide HasLive, HasFailed, LatestRoot;
  }

  /** One dispatch queues at most four model calls. */
  lemma AtMostFour(cfg: Config, w: World, db: Db, rows: seq<DispatchRow>)
    ensures |Apply(cfg, db, Tx(w, Dispatched(rows))).calls| <= |db.calls| + 4
  {
    hide DispatchRows;
    DispatchRowsLimit(cfg, w, db, rows, |rows|);
  }

  /** The calls that were put in flight. */
  function Sent(db: Db, next: Db): set<nat> {
    set c | 0 <= c < |next.calls| && c < |db.calls| && next.calls[c].status.InFlight? && !db.calls[c].status.InFlight?
  }

  lemma {:induction false} ClaimRowsLimit(cfg: Config, w: World, db: Db, q: Queue, limit: int, rows: seq<ClaimRow>, n: nat)
    requires n <= |rows|
    ensures var next := ClaimRows(cfg, w, db, q, limit, rows, n);
            && |next.db.calls| == |db.calls| && |Sent(db, next.db)| <= next.selected <= ClaimLimit(limit)
  {
    hide ClaimOne, Claimable;
    if n == 0 {
      assert Sent(db, db) == {};
    } else {
      ClaimRowsLimit(cfg, w, db, q, limit, rows, n - 1);
      var sofar := ClaimRows(cfg, w, db, q, limit, rows, n - 1).db;
      var next := ClaimOne(cfg, w, sofar, rows[n - 1]);
      ClaimOneSends(cfg, w, sofar, rows[n - 1]);
      assert Sent(db, next) <= Sent(db, sofar) + {rows[n - 1].call};
      SubsetSize(Sent(db, next), Sent(db, sofar) + {rows[n - 1].call});
    }
  }

  lemma {:induction false} SubsetSize(a: set<nat>, b: set<nat>)
    requires a <= b
    ensures |a| <= |b|
    decreases |a|
  {
    if a != {} {
      var x :| x in a;
      SubsetSize(a - {x}, b - {x});
    }
  }

  lemma ClaimOneSends(cfg: Config, w: World, db: Db, row: ClaimRow)
    ensures var next := ClaimOne(cfg, w, db, row);
            && |next.calls| == |db.calls|
            && forall c :: 0 <= c < |db.calls| && c != row.call ==> next.calls[c].status == db.calls[c].status
  {
    hide HasLive, HasFailed, LatestRoot, LatestApproval;
  }

  /** One claim puts at most as many calls in flight as it may, and never more than sixteen. */
  lemma AtMostTheLimit(cfg: Config, w: World, db: Db, q: Queue, limit: int, rows: seq<ClaimRow>)
    ensures |Sent(db, Apply(cfg, db, Tx(w, ClaimedBy(q, limit, rows))))| <= if limit < 1 then 1 else if limit > 16 then 16 else limit
  {
    hide ClaimRows, Sent;
    ClaimRowsLimit(cfg, w, db, q, limit, rows, |rows|);
  }

  // ---------------------------------------------------------------------------------------------
  // One call
  // ---------------------------------------------------------------------------------------------

  /** What is needed to send a queued call: an active agent, no denial, and, if a rule asks for it or an
      approval was ever asked, that the newest one was given, is still valid and for this very request. No
      rule can ask for one of a model turn or a search. */
  ghost predicate MaySend(cfg: Config, w: World, db: Db, c: CallId, view: GuardView)
    requires c < |db.calls| && db.calls[c].task < |db.tasks|
  {
    && Active(cfg, w, db.tasks[db.calls[c].task].agent) && view.denied.None?
    && if exists a: nat :: NewestFor(db.approvals, a, c)
       then exists a: nat :: NewestFor(db.approvals, a, c) && db.approvals[a].status.Approved? && w.now < db.approvals[a].expiresAt && view.sameSnapshot
       else !(view.approvalRule && db.calls[c].kind != Llm && db.calls[c].kind != ToolCall(Search))
  }

  /** The call is given up and its task fails. */
  ghost predicate Denied(w: World, db: Db, next: Db, c: CallId, reason: string)
    requires c < |db.calls| && db.calls[c].task < |db.tasks|
  {
    var t := db.calls[c].task;
    && next.calls == db.calls[c := db.calls[c].(status := Lost, updatedAt := w.now)]
    && next.tasks == db.tasks[t := db.tasks[t].(status := Failed, error := Some(reason), updatedAt := w.now)]
    && next.logs == db.logs + [Log(t, db.tasks[t].steps, ErrorRole, Text)] && next.approvals == db.approvals
  }

  /** The call stays queued behind a new approval, and an earlier one is worth nothing any more. */
  ghost predicate HeldFor(w: World, db: Db, next: Db, c: CallId)
    requires c < |db.calls| && db.calls[c].task < |db.tasks|
  {
    var t := db.calls[c].task;
    && next.calls == db.calls && next.logs == db.logs
    && next.tasks == db.tasks[t := db.tasks[t].(status := WaitingHuman, updatedAt := w.now)]
    && |next.approvals| == |db.approvals| + 1
    && next.approvals[|db.approvals|] == Approval(t, Some(c), Undecided, w.now + 24 * 60 * 60)
    && forall a :: 0 <= a < |db.approvals| ==>
         next.approvals[a] == if NewestFor(db.approvals, a, c) then db.approvals[a].(status := Rejected) else db.approvals[a]
  }

  lemma NewestIsHeld(cfg: Config, db: Db, c: CallId)
    requires Inv(cfg, db) && c < |db.calls|
    ensures var held := LatestApproval(db.approvals, db.calls[c].task, c);
            forall a: nat :: NewestFor(db.approvals, a, c) <==> held == Some(a)
  {
    forall a | 0 <= a < |db.approvals| && db.approvals[a].call == Some(c) ensures db.approvals[a].task == db.calls[c].task {
      assert ApprovalOk(db.tasks, db.calls, db.approvals[a]);
    }
    hide Inv, LatestApproval;
    LatestIsNewest(db.approvals, db.calls[c].task, c);
    var held := LatestApproval(db.approvals, db.calls[c].task, c);
    forall a: nat ensures NewestFor(db.approvals, a, c) <==> held == Some(a) {
      assert held.Some? ==> NewestFor(db.approvals, held.value, c);
    }
  }

  lemma AllowedExactly(cfg: Config, w: World, db: Db, c: CallId, view: GuardView)
    requires Inv(cfg, db) && Guardable(db, c)
    ensures var g := GuardCall(cfg, w, db, c, view);
            && (g.allowed <==> MaySend(cfg, w, db, c, view))
            && (g.allowed ==> g.db == db)
  {
    NewestIsHeld(cfg, db, c);
    hide Inv, LatestApproval, NewestFor, DenyCall, AskFor;
    var held := LatestApproval(db.approvals, db.calls[c].task, c);
    if held.Some? {
      assert NewestFor(db.approvals, held.value, c);
      HeldExists(db.approvals, db.calls[c].task, c);
    }
  }

  lemma {:induction false} HeldExists(approvals: seq<Approval>, t: TaskId, c: CallId)
    ensures LatestApproval(approvals, t, c).Some? ==> LatestApproval(approvals, t, c).value < |approvals|
  {
    if approvals != [] {
      HeldExists(approvals[..|approvals| - 1], t, c);
    }
  }

  lemma DenialOutcome(w: World, db: Db, c: CallId, reason: string)
    requires Guardable(db, c)
    ensures Denied(w, db, DenyCall(w, db, c, reason), c, reason)
  {
    hide HasLive, HasFailed, LatestRoot;
  }

  lemma HoldOutcome(cfg: Config, w: World, db: Db, c: CallId)
    requires Inv(cfg, db) && Guardable(db, c)
    ensures HeldFor(w, db, AskFor(w, db, c, LatestApproval(db.approvals, db.calls[c].task, c)), c)
  {
    NewestIsHeld(cfg, db, c);
    HeldExists(db.approvals, db.calls[c].task, c);
    hide Inv, LatestApproval, NewestFor;
  }

  function OneClaim(q: Queue, limit: int, c: CallId, view: GuardView): Event {
    ClaimedBy(q, limit, [ClaimRow(c, view)])
  }

  lemma OneClaimed(cfg: Config, w: World, db: Db, q: Queue, limit: int, c: CallId, view: GuardView)
    ensures Apply(cfg, db, Tx(w, OneClaim(q, limit, c, view)))
            == if Claimable(db, q, c) then ClaimOne(cfg, w, db, ClaimRow(c, view)) else db
  {
    hide ClaimOne;
    assert ClaimRows(cfg, w, db, q, limit, [ClaimRow(c, view)], 0) == Claimed(db, 0);
  }

  /** The claim of one queued call of a running task: it is sent exactly when it may be. A call in another
      table, of a task that is not running, or not queued is left alone. */
  lemma SentExactly(cfg: Config, w: World, db: Db, q: Queue, limit: int, c: CallId, view: GuardView)
    requires Inv(cfg, db)
    ensures var next := Apply(cfg, db, Tx(w, OneClaim(q, limit, c, view)));
            if !(c < |db.calls| && QueueOf(db.calls[c].kind) == q && db.calls[c].status.Waiting? && IsRunning(db, db.calls[c].task)) then next == db
            else if MaySend(cfg, w, db, c, view) then next == db.(calls := db.calls[c := db.calls[c].(status := InFlight, updatedAt := w.now)])
            else if view.denied.Some? then Denied(w, db, next, c, view.denied.value)
            else if !Active(cfg, w, db.tasks[db.calls[c].task].agent) then Denied(w, db, next, c, "agent_inactive")
            else HeldFor(w, db, next, c)
  {
    OneClaimed(cfg, w, db, q, limit, c, view);
    if Guardable(db, c) {
      AllowedExactly(cfg, w, db, c, view);
      HoldOutcome(cfg, w, db, c);
      DenialOutcome(w, db, c, if view.denied.Some? then view.denied.value else "agent_inactive");
    }
    hide Inv, LatestApproval, NewestFor, DenyCall, AskFor, Denied, HeldFor, MaySend, Apply;
  }
}
