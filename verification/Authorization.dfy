/** Execution approvals: a request for which an approval was ever asked runs only on an approval. */
module Authorization {
  import opened Tables
  import opened Transactions
  import opened Invariant
  import opened Preservation
  import opened Runs

  /** Approval `a` is the newest that holds back call `c`. */
  predicate NewestFor(approvals: seq<Approval>, a: ApprovalId, c: CallId) {
    a < |approvals| && approvals[a].call == Some(c) && forall b :: a < b < |approvals| ==> approvals[b].call != Some(c)
  }

  predicate Authorized(approvals: seq<Approval>, c: CallId) {
    forall a :: 0 <= a < |approvals| && NewestFor(approvals, a, c) ==> approvals[a].status.Approved?
  }

  ghost predicate InFlightAuthorized(db: Db) {
    forall c :: 0 <= c < |db.calls| && db.calls[c].status.InFlight? ==> Authorized(db.approvals, c)
  }

  // ---------------------------------------------------------------------------------------------
  // Everything but a claim
  // ---------------------------------------------------------------------------------------------

  /** Nothing is sent, no decided approval changes, and no new one is asked for a queued call. */
  ghost predicate Unclaimed(db: Db, next: Db) {
    && |db.calls| <= |next.calls|
    && (forall c :: 0 <= c < |next.calls| && next.calls[c].status.InFlight? ==> c < |db.calls| && db.calls[c].status.InFlight?)
    && |db.approvals| <= |next.approvals|
    && (forall a :: 0 <= a < |db.approvals| ==> next.approvals[a].call == db.approvals[a].call)
    && (forall a :: 0 <= a < |db.approvals| && db.approvals[a].status.Approved? ==> next.approvals[a].status.Approved?)
    && (forall a :: |db.approvals| <= a < |next.approvals| ==> next.approvals[a].call.None?)
  }

  lemma UnclaimedKeeps(db: Db, next: Db)
    requires InFlightAuthorized(db) && Unclaimed(db, next)
    ensures InFlightAuthorized(next)
  {
    forall c, a | 0 <= c < |next.calls| && next.calls[c].status.InFlight? && 0 <= a < |next.approvals| && NewestFor(next.approvals, a, c)
      ensures next.approvals[a].status.Approved?
    {
      assert a < |db.approvals|;
      forall b | a < b < |db.approvals| ensures db.approvals[b].call != Some(c) {
        assert next.approvals[b].call != Some(c);
      }
      assert NewestFor(db.approvals, a, c) && Authorized(db.approvals, c);
    }
  }

  lemma UnclaimedTransitive(a: Db, b: Db, c: Db)
    requires Unclaimed(a, b) && Unclaimed(b, c)
    ensures Unclaimed(a, c)
  {
  }

  lemma SubmitUnclaimed(cfg: Config, w: World, db: Db, t: TaskId, payload: Payload)
    ensures SubmitResult(cfg, w, db, t, payload).Some? ==> Unclaimed(db, SubmitResult(cfg, w, db, t, payload).value)
  {
    hide HasLive, HasFailed, LatestRoot, Act, Count;
    if IsRunning(db, t) && Active(cfg, w, db.tasks[t].agent) && payload.LlmResponse? {
      ActUnclaimed(cfg, w, AppendLog(db, t, db.tasks[t].steps + 1, AssistantRole), t, db.tasks[t], payload.action);
    }
  }

  lemma ActUnclaimed(cfg: Config, w: World, db: Db, t: TaskId, row: Task, action: Action)
    requires row.agent in cfg
    ensures Act(cfg, w, db, t, row, action).Some? ==> Unclaimed(db, Act(cfg, w, db, t, row, action).value)
  {
    hide HasLive, HasFailed, LatestRoot, OnChain, HasLiveChild, Count;
  }

  lemma NextStepUnclaimed(cfg: Config, w: World, db: Db, t: TaskId, prompt: Prompt)
    ensures var r := NextStep(cfg, w, db, t, prompt); !r.Raised? ==> Unclaimed(db, r.db)
  {
    hide HasLive, HasFailed, LatestRoot;
  }

  lemma DispatchOneUnclaimed(cfg: Config, w: World, db: Db, row: DispatchRow)
    ensures var r := DispatchOne(cfg, w, db, row); r.Some? ==> Unclaimed(db, r.value.db)
  {
    hide SubmitResult, NextStep, CapReached;
    NextStepUnclaimed(cfg, w, db, row.task, row.prompt);
    SubmitUnclaimed(cfg, w, db, row.task, Failure(row.error));
    var step := NextStep(cfg, w, db, row.task, row.prompt);
    if step.CallLlm? {
      SubmitUnclaimed(cfg, w, step.db, row.task, Failure(row.error));
    }
  }

  lemma {:induction false} DispatchRowsUnclaimed(cfg: Config, w: World, db: Db, rows: seq<DispatchRow>, n: nat)
    requires n <= |rows|
    ensures var r := DispatchRows(cfg, w, db, rows, n); r.Some? ==> Unclaimed(db, r.value.db)
  {
    hide DispatchOne, Dispatchable, FirstTime;
    if n > 0 {
      DispatchRowsUnclaimed(cfg, w, db, rows, n - 1);
      var sofar := DispatchRows(cfg, w, db, rows, n - 1);
      if sofar.Some? {
        DispatchOneUnclaimed(cfg, w, sofar.value.db, rows[n - 1]);
      }
    }
  }

  lemma DeliverUnclaimed(cfg: Config, w: World, db: Db, c: CallId, payload: Payload, fault: bool)
    requires c < |db.calls| && !db.calls[c].status.InFlight?
    ensures Unclaimed(db, Deliver(cfg, w, db, c, payload, fault))
  {
    hide SubmitResult;
    var noted := SetCall(db, c, db.calls[c].(submits := db.calls[c].submits + 1));
    SubmitUnclaimed(cfg, w, noted, db.calls[c].task, payload);
  }

  lemma CompleteUnclaimed(cfg: Config, w: World, db: Db, c: CallId, reply: Reply)
    ensures var r := Complete(cfg, w, db, c, reply); r.Some? ==> Unclaimed(db, r.value)
  {
    hide Deliver, PayloadOf, CostOf;
    if c < |db.calls| && db.calls[c].status.InFlight? && !(Ambiguous(db.calls[c].kind) && reply.unknown) {
      var call := db.calls[c];
      var cost := CostOf(call.kind, reply);
      var harvested := SetCall(db, c, call.(status := Harvested, updatedAt := w.now, cost := cost));
      var charged := Charge(harvested, call.task, cost);
      assert charged.calls == harvested.calls && charged.approvals == db.approvals;
      hide Charge;
      DeliverUnclaimed(cfg, w, charged, c, PayloadOf(call.kind, reply), reply.fault);
    }
  }

  lemma ReclaimUnclaimed(cfg: Config, w: World, db: Db, q: Queue, timeout: int, c: CallId, fault: bool)
    ensures Unclaimed(db, Reclaim(cfg, w, db, q, timeout, c, fault))
  {
    hide Deliver, TimeoutMessage;
    if c < |db.calls| {
      var lost := SetCall(db, c, db.calls[c].(status := Lost, updatedAt := w.now));
      DeliverUnclaimed(cfg, w, lost, c, Failure(TimeoutMessage(db.calls[c].kind)), fault);
    }
  }

  lemma {:induction false} ReclaimCallsUnclaimed(cfg: Config, w: World, db: Db, q: Queue, timeout: int, faults: set<CallId>, n: nat)
    ensures Unclaimed(db, ReclaimCalls(cfg, w, db, q, timeout, faults, n))
  {
    hide Reclaim;
    if n > 0 {
      ReclaimCallsUnclaimed(cfg, w, db, q, timeout, faults, n - 1);
      ReclaimUnclaimed(cfg, w, ReclaimCalls(cfg, w, db, q, timeout, faults, n - 1), q, timeout, n - 1, n - 1 in faults);
    }
  }

  lemma ExpireApprovalUnclaimed(w: World, db: Db, a: ApprovalId)
    ensures Unclaimed(db, ExpireApproval(w, db, a))
  {
    hide HasLive, HasFailed, LatestRoot;
  }

  lemma {:induction false} ExpireApprovalsUnclaimed(w: World, db: Db, n: nat)
    ensures Unclaimed(db, ExpireApprovals(w, db, n))
  {
    hide ExpireApproval;
    if n > 0 {
      ExpireApprovalsUnclaimed(w, db, n - 1);
      ExpireApprovalUnclaimed(w, ExpireApprovals(w, db, n - 1), n - 1);
    }
  }

  lemma ExpireTurnUnclaimed(cfg: Config, w: World, db: Db, t: TaskId)
    ensures Unclaimed(db, ExpireTurn(cfg, w, db, t))
  {
    hide HasLive, HasFailed, LatestRoot;
  }

  lemma {:induction false} ExpireTurnsUnclaimed(cfg: Config, w: World, db: Db, n: nat)
    ensures Unclaimed(db, ExpireTurns(cfg, w, db, n))
  {
    hide ExpireTurn;
    if n > 0 {
      ExpireTurnsUnclaimed(cfg, w, db, n - 1);
      ExpireTurnUnclaimed(cfg, w, ExpireTurns(cfg, w, db, n - 1), n - 1);
    }
  }

  lemma {:induction false} WakeTasksUnclaimed(w: World, db: Db, n: nat)
    ensures Unclaimed(db, WakeTasks(w, db, n))
  {
    hide HasLiveChild, ChildResults;
    if n > 0 {
      WakeTasksUnclaimed(w, db, n - 1);
    }
  }

  lemma WatchdogUnclaimed(cfg: Config, w: World, db: Db, timeout: int, faults: set<CallId>)
    ensures Unclaimed(db, Watchdog(cfg, w, db, timeout, faults))
  {
    hide Unclaimed, ReclaimCalls, ExpireApprovals, ExpireTurns, WakeTasks;
    var a := ReclaimCalls(cfg, w, db, Outbound, timeout, faults, |db.calls|);
    var b := ReclaimCalls(cfg, w, a, SqlCalls, timeout, faults, |a.calls|);
    var c := ReclaimCalls(cfg, w, b, FunctionCalls, timeout, faults, |b.calls|);
    var d := ReclaimCalls(cfg, w, c, ProcedureCalls, timeout, faults, |c.calls|);
    var e := ExpireApprovals(w, d, |d.approvals|);
    var f := ExpireTurns(cfg, w, e, |e.tasks|);
    ReclaimCallsUnclaimed(cfg, w, db, Outbound, timeout, faults, |db.calls|);
    ReclaimCallsUnclaimed(cfg, w, a, SqlCalls, timeout, faults, |a.calls|);
    ReclaimCallsUnclaimed(cfg, w, b, FunctionCalls, timeout, faults, |b.calls|);
    ReclaimCallsUnclaimed(cfg, w, c, ProcedureCalls, timeout, faults, |c.calls|);
    ExpireApprovalsUnclaimed(w, d, |d.approvals|);
    ExpireTurnsUnclaimed(cfg, w, e, |e.tasks|);
    WakeTasksUnclaimed(w, f, |f.tasks|);
    UnclaimedTransitive(db, a, b);
    UnclaimedTransitive(db, b, c);
    UnclaimedTransitive(db, c, d);
    UnclaimedTransitive(db, d, e);
    UnclaimedTransitive(db, e, f);
    UnclaimedTransitive(db, f, WakeTasks(w, f, |f.tasks|));
  }

  lemma DecideUnclaimed(w: World, db: Db, a: ApprovalId, accept: bool)
    ensures var r := Decide(w, db, a, accept); r.Some? ==> Unclaimed(db, r.value)
  {
    hide HasLive, HasFailed, LatestRoot;
  }

  lemma {:induction false} CancelTasksUnclaimed(w: World, db: Db, s: SessionId, n: nat)
    ensures var next := CancelTasks(w, db, s, n); next.calls == db.calls && next.approvals == db.approvals
  {
    if n > 0 {
      CancelTasksUnclaimed(w, db, s, n - 1);
    }
  }

  lemma CancelUnclaimed(w: World, db: Db, s: SessionId)
    ensures var r := CancelSession(w, db, s); r.Some? ==> Unclaimed(db, r.value)
  {
    hide CancelTasks;
    CancelTasksUnclaimed(w, db, s, |db.tasks|);
  }

  // ---------------------------------------------------------------------------------------------
  // A claim
  // ---------------------------------------------------------------------------------------------

  /** The guard's query finds the newest approval of the call. */
  lemma {:induction false} LatestIsNewest(approvals: seq<Approval>, t: TaskId, c: CallId)
    requires forall a :: 0 <= a < |approvals| && approvals[a].call == Some(c) ==> approvals[a].task == t
    ensures match LatestApproval(approvals, t, c)
            case Some(a) => NewestFor(approvals, a, c)
            case None => forall a :: 0 <= a < |approvals| ==> approvals[a].call != Some(c)
  {
    if approvals != [] {
      var n := |approvals| - 1;
      LatestIsNewest(approvals[..n], t, c);
    }
  }

  /** What the guard lets through is authorized. */
  lemma AllowedIsAuthorized(cfg: Config, w: World, db: Db, c: CallId, view: GuardView)
    requires Inv(cfg, db) && GuardCall(cfg, w, db, c, view).allowed
    ensures Authorized(db.approvals, c)
    ensures Active(cfg, w, db.tasks[db.calls[c].task].agent) && view.denied.None?
    ensures view.approvalRule && Gateable(db.calls[c].kind) ==>
      exists a :: 0 <= a < |db.approvals| && NewestFor(db.approvals, a, c) && db.approvals[a].status.Approved?
                  && db.approvals[a].expiresAt > w.now && view.sameSnapshot
  {
    forall a | 0 <= a < |db.approvals| && db.approvals[a].call == Some(c) ensures db.approvals[a].task == db.calls[c].task {
      assert ApprovalOk(db.tasks, db.calls, db.approvals[a]);
    }
    LatestIsNewest(db.approvals, db.calls[c].task, c);
    hide Inv, LatestApproval;
    var held := LatestApproval(db.approvals, db.calls[c].task, c);
    if held.Some? {
      assert NewestFor(db.approvals, held.value, c);
    }
  }

  /** Holding back call `c` again changes nothing for the calls in flight. */
  lemma AskKeepsAuthorized(cfg: Config, w: World, db: Db, c: CallId)
    requires Inv(cfg, db) && InFlightAuthorized(db) && Guardable(db, c)
    ensures InFlightAuthorized(AskFor(w, db, c, LatestApproval(db.approvals, db.calls[c].task, c)))
  {
    LatestApprovalFound(db.approvals, db.calls[c].task, c);
    hide Inv, LatestApproval;
    var held := LatestApproval(db.approvals, db.calls[c].task, c);
    var next := AskFor(w, db, c, held);
    forall d, a | 0 <= d < |next.calls| && next.calls[d].status.InFlight? && 0 <= a < |next.approvals| && NewestFor(next.approvals, a, d)
      ensures next.approvals[a].status.Approved?
    {
      assert d != c && a < |db.approvals|;
      forall b | a < b < |db.approvals| ensures db.approvals[b].call != Some(d) {
        assert next.approvals[b].call != Some(d);
      }
      assert NewestFor(db.approvals, a, d) && Authorized(db.approvals, d);
    }
  }

  lemma ClaimOneAuthorized(cfg: Config, w: World, db: Db, row: ClaimRow)
    requires Inv(cfg, db) && InFlightAuthorized(db)
    ensures InFlightAuthorized(ClaimOne(cfg, w, db, row))
  {
    hide Inv, Authorized, LatestApproval, HasLive, HasFailed, LatestRoot, AskFor;
    var c := row.call;
    if Guardable(db, c) {
      AskKeepsAuthorized(cfg, w, db, c);
      if GuardCall(cfg, w, db, c, row.view).allowed {
        AllowedIsAuthorized(cfg, w, db, c, row.view);
      }
    }
  }

  lemma {:induction false} ClaimRowsAuthorized(cfg: Config, w: World, db: Db, q: Queue, limit: int, rows: seq<ClaimRow>, n: nat)
    requires Inv(cfg, db) && InFlightAuthorized(db) && n <= |rows|
    ensures InFlightAuthorized(ClaimRows(cfg, w, db, q, limit, rows, n).db)
  {
    hide Inv, ClaimOne, InFlightAuthorized, Claimable;
    if n > 0 {
      ClaimRowsAuthorized(cfg, w, db, q, limit, rows, n - 1);
      ClaimRowsKeeps(cfg, w, db, q, limit, rows, n - 1);
      ClaimOneAuthorized(cfg, w, ClaimRows(cfg, w, db, q, limit, rows, n - 1).db, rows[n - 1]);
    }
  }

  // ---------------------------------------------------------------------------------------------
  // Every run
  // ---------------------------------------------------------------------------------------------

  lemma ApplyAuthorized(cfg: Config, db: Db, tx: Tx)
    requires Inv(cfg, db) && InFlightAuthorized(db)
    ensures InFlightAuthorized(Apply(cfg, db, tx))
  {
    hide Inv, InFlightAuthorized, DispatchRows, ClaimRows, Complete, Watchdog, Decide, CancelSession;
    var w := tx.world;
    var next := Apply(cfg, db, tx);
    match tx.event
    case Created(a) => UnclaimedKeeps(db, next);
    case Fired(a, k, stopped, last, forced) => UnclaimedKeeps(db, next);
    case ScheduleSet(k, edit) => UnclaimedKeeps(db, next);
    case Continued(s) => UnclaimedKeeps(db, next);
    case Dispatched(rows) => DispatchRowsUnclaimed(cfg, w, db, rows, |rows|); UnclaimedKeeps(db, next);
    case ClaimedBy(q, limit, rows) => ClaimRowsAuthorized(cfg, w, db, q, limit, rows, |rows|);
    case CompletedBy(c, reply) => CompleteUnclaimed(cfg, w, db, c, reply); UnclaimedKeeps(db, next);
    case Swept(timeout, faults) => WatchdogUnclaimed(cfg, w, db, timeout, faults); UnclaimedKeeps(db, next);
    case Decided(a, accept) => DecideUnclaimed(w, db, a, accept); UnclaimedKeeps(db, next);
    case CancelledBy(s) => CancelUnclaimed(w, db, s); UnclaimedKeeps(db, next);
  }

  /** In every run, a call in flight for which an approval was ever asked has it: the newest one was
      approved. Relaxing the rule meanwhile does not get around it. */
  lemma {:induction false} NothingRunsUnapproved(cfg: Config, run: Run, i: nat)
    requires IsRun(cfg, run) && i < |run.states|
    ensures InFlightAuthorized(run.states[i])
  {
    hide Inv, Apply;
    if i > 0 {
      NothingRunsUnapproved(cfg, run, i - 1);
      RunInvariant(cfg, run, i - 1);
      ApplyAuthorized(cfg, run.states[i - 1], run.txs[i - 1]);
    }
  }
}
