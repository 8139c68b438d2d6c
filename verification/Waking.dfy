/** The wake side of `await_children`: what a task finds in its log when it resumes. */
module Waking {
  import opened Tables
  import opened Transactions
  import opened Preservation
  import opened Forward

  /** Before the wake pass, a task that waits for its children is left alone or failed. */
  ghost predicate LeavesWaiting(db: Db, next: Db) {
    && |db.tasks| == |next.tasks|
    && forall t :: 0 <= t < |db.tasks| && db.tasks[t].status.WaitingChildren? ==>
         next.tasks[t] == db.tasks[t] || Terminal(next.tasks[t].status)
  }

  lemma LeavesTransitive(a: Db, b: Db, c: Db)
    requires LeavesWaiting(a, b) && LeavesWaiting(b, c) && ForwardTo(b, c)
    ensures LeavesWaiting(a, c)
  {
    forall t | 0 <= t < |a.tasks| && a.tasks[t].status.WaitingChildren?
      ensures c.tasks[t] == a.tasks[t] || Terminal(c.tasks[t].status)
    {
      assert TaskForward(b.tasks[t], c.tasks[t]);
    }
  }

  /** Reporting an error adds no task. */
  lemma FailureAddsNoTask(cfg: Config, w: World, db: Db, t: TaskId, message: string)
    ensures var r := SubmitResult(cfg, w, db, t, Failure(message)); r.Some? ==> |r.value.tasks| == |db.tasks|
  {
    hide HasLive, HasFailed, LatestRoot;
  }

  lemma ReclaimLeaves(cfg: Config, w: World, db: Db, q: Queue, timeout: int, c: CallId, fault: bool)
    ensures LeavesWaiting(db, Reclaim(cfg, w, db, q, timeout, c, fault))
  {
    hide SubmitResult;
    if c < |db.calls| {
      var t := db.calls[c].task;
      var lost := SetCall(db, c, db.calls[c].(status := Lost, updatedAt := w.now));
      var noted := SetCall(lost, c, lost.calls[c].(submits := lost.calls[c].submits + 1));
      SubmitConcerns(cfg, w, noted, t, Failure(TimeoutMessage(db.calls[c].kind)));
      FailureAddsNoTask(cfg, w, noted, t, TimeoutMessage(db.calls[c].kind));
    }
  }

  lemma {:induction false} ReclaimCallsLeaves(cfg: Config, w: World, db: Db, q: Queue, timeout: int, faults: set<CallId>, n: nat)
    ensures LeavesWaiting(db, ReclaimCalls(cfg, w, db, q, timeout, faults, n))
  {
    hide Reclaim;
    if n > 0 {
      var sofar := ReclaimCalls(cfg, w, db, q, timeout, faults, n - 1);
      ReclaimCallsLeaves(cfg, w, db, q, timeout, faults, n - 1);
      ReclaimLeaves(cfg, w, sofar, q, timeout, n - 1, n - 1 in faults);
      ReclaimForward(cfg, w, sofar, q, timeout, n - 1, n - 1 in faults);
      LeavesTransitive(db, sofar, ReclaimCalls(cfg, w, db, q, timeout, faults, n));
    }
  }

  lemma ReclaimAllLeaves(cfg: Config, w: World, db: Db, timeout: int, faults: set<CallId>)
    ensures LeavesWaiting(db, ReclaimAll(cfg, w, db, timeout, faults))
  {
    hide LeavesWaiting, ForwardBut, ReclaimCalls;
    var a := ReclaimCalls(cfg, w, db, Outbound, timeout, faults, |db.calls|);
    var b := ReclaimCalls(cfg, w, a, SqlCalls, timeout, faults, |a.calls|);
    var c := ReclaimCalls(cfg, w, b, FunctionCalls, timeout, faults, |b.calls|);
    ReclaimCallsLeaves(cfg, w, db, Outbound, timeout, faults, |db.calls|);
    ReclaimCallsLeaves(cfg, w, a, SqlCalls, timeout, faults, |a.calls|);
    ReclaimCallsLeaves(cfg, w, b, FunctionCalls, timeout, faults, |b.calls|);
    ReclaimCallsLeaves(cfg, w, c, ProcedureCalls, timeout, faults, |c.calls|);
    ReclaimCallsForward(cfg, w, a, SqlCalls, timeout, faults, |a.calls|);
    ReclaimCallsForward(cfg, w, b, FunctionCalls, timeout, faults, |b.calls|);
    ReclaimCallsForward(cfg, w, c, ProcedureCalls, timeout, faults, |c.calls|);
    LeavesTransitive(db, a, b);
    LeavesTransitive(db, b, c);
    LeavesTransitive(db, c, ReclaimAll(cfg, w, db, timeout, faults));
  }

  lemma ExpireApprovalLeaves(w: World, db: Db, a: ApprovalId)
    ensures LeavesWaiting(db, ExpireApproval(w, db, a))
  {
    hide HasLive, HasFailed, LatestRoot;
  }

  lemma {:induction false} ExpireApprovalsLeaves(w: World, db: Db, n: nat)
    ensures LeavesWaiting(db, ExpireApprovals(w, db, n))
  {
    hide ExpireApproval;
    if n > 0 {
      ExpireApprovalsLeaves(w, db, n - 1);
      ExpireApprovalLeaves(w, ExpireApprovals(w, db, n - 1), n - 1);
      ExpireApprovalForward(w, ExpireApprovals(w, db, n - 1), n - 1);
      LeavesTransitive(db, ExpireApprovals(w, db, n - 1), ExpireApprovals(w, db, n));
    }
  }

  lemma ExpireTurnLeaves(cfg: Config, w: World, db: Db, t: TaskId)
    ensures LeavesWaiting(db, ExpireTurn(cfg, w, db, t))
  {
    hide HasLive, HasFailed, LatestRoot, LoseCalls;
  }

  lemma {:induction false} ExpireTurnsLeaves(cfg: Config, w: World, db: Db, n: nat)
    ensures LeavesWaiting(db, ExpireTurns(cfg, w, db, n))
  {
    hide ExpireTurn;
    if n > 0 {
      ExpireTurnsLeaves(cfg, w, db, n - 1);
      ExpireTurnLeaves(cfg, w, ExpireTurns(cfg, w, db, n - 1), n - 1);
      ExpireTurnForward(cfg, w, ExpireTurns(cfg, w, db, n - 1), n - 1);
      LeavesTransitive(db, ExpireTurns(cfg, w, db, n - 1), ExpireTurns(cfg, w, db, n));
    }
  }

  /** The results of finished children do not depend on anything else. */
  lemma {:induction false} ChildResultsFrame(tasks: seq<Task>, later: seq<Task>, t: TaskId)
    requires |tasks| == |later|
    requires forall i :: 0 <= i < |tasks| ==> later[i].parent == tasks[i].parent
    requires forall i :: 0 <= i < |tasks| && tasks[i].parent == Some(t) ==> later[i] == tasks[i]
    ensures ChildResults(later, t) == ChildResults(tasks, t)
  {
    if tasks != [] {
      ChildResultsFrame(tasks[..|tasks| - 1], later[..|tasks| - 1], t);
    }
  }

  /** The log row a woken task finds: one result per child, all of them terminal. */
  predicate WokenBy(db: Db, t: TaskId, log: Log) {
    && log.task == t && log.role.FunctionRole?
    && log.note == DelegateResults(ChildResults(db.tasks, t))
    && !HasLiveChild(db.tasks, t)
  }

  /** The wake pass over the first `n` tasks only requeues tasks that wait, and tells each of them. */
  lemma {:induction false} WakePass(w: World, db: Db, n: nat)
    requires n <= |db.tasks|
    ensures var next := WakeTasks(w, db, n);
            && |next.tasks| == |db.tasks|
            && (forall t :: 0 <= t < |db.tasks| ==> next.tasks[t].parent == db.tasks[t].parent)
            && (forall t :: 0 <= t < |db.tasks| && (t >= n || !db.tasks[t].status.WaitingChildren?) ==> next.tasks[t] == db.tasks[t])
            && (forall t :: 0 <= t < |db.tasks| ==> (Live(next.tasks[t].status) <==> Live(db.tasks[t].status)))
            && (forall t :: 0 <= t < n && db.tasks[t].status.WaitingChildren? && next.tasks[t].status.Queued? ==>
                  exists l :: |db.logs| <= l < |next.logs| && WokenBy(db, t, next.logs[l]))
            && (forall t :: 0 <= t < n && next.tasks[t].status.WaitingChildren? ==> HasLiveChild(db.tasks, t))
            && db.logs <= next.logs
  {
    if n > 0 {
      var u := n - 1;
      WakePass(w, db, u);
      var sofar := WakeTasks(w, db, u);
      var next := WakeTasks(w, db, n);
      assert HasLiveChild(sofar.tasks, u) <==> HasLiveChild(db.tasks, u) by {
        SameLiveChildren(db.tasks, sofar.tasks, u);
        SameLiveChildren(sofar.tasks, db.tasks, u);
      }
      forall t | 0 <= t < n && db.tasks[t].status.WaitingChildren? && next.tasks[t].status.Queued?
        ensures exists l :: |db.logs| <= l < |next.logs| && WokenBy(db, t, next.logs[l])
      {
        if t < u {
          var l :| |db.logs| <= l < |sofar.logs| && WokenBy(db, t, sofar.logs[l]);
          assert next.logs[l] == sofar.logs[l];
        } else {
          ChildResultsFrame(db.tasks, sofar.tasks, u);
          assert WokenBy(db, u, next.logs[|sofar.logs|]);
        }
      }
    }
  }

  lemma SameLiveChildren(tasks: seq<Task>, later: seq<Task>, t: TaskId)
    requires |tasks| == |later|
    requires forall i :: 0 <= i < |tasks| ==> later[i].parent == tasks[i].parent
    requires forall i :: 0 <= i < |tasks| ==> (Live(later[i].status) <==> Live(tasks[i].status))
    ensures HasLiveChild(tasks, t) ==> HasLiveChild(later, t)
  {
    if HasLiveChild(tasks, t) {
      var i :| 0 <= i < |tasks| && tasks[i].parent == Some(t) && Live(tasks[i].status);
      assert later[i].parent == Some(t) && Live(later[i].status);
    }
  }

  /** What the sweep has done before it wakes anybody. */
  function BeforeWaking(cfg: Config, w: World, db: Db, timeout: int, faults: set<CallId>): Db {
    var reclaimed := ReclaimAll(cfg, w, db, timeout, faults);
    var decided := ExpireApprovals(w, reclaimed, |reclaimed.approvals|);
    ExpireTurns(cfg, w, decided, |decided.tasks|)
  }

  lemma BeforeWakingLeaves(cfg: Config, w: World, db: Db, timeout: int, faults: set<CallId>)
    ensures LeavesWaiting(db, BeforeWaking(cfg, w, db, timeout, faults))
    ensures ForwardTo(db, BeforeWaking(cfg, w, db, timeout, faults))
  {
    hide ReclaimAll, ExpireApprovals, ExpireTurns, LeavesWaiting, ForwardBut;
    var reclaimed := ReclaimAll(cfg, w, db, timeout, faults);
    var decided := ExpireApprovals(w, reclaimed, |reclaimed.approvals|);
    var expired := ExpireTurns(cfg, w, decided, |decided.tasks|);
    ReclaimAllLeaves(cfg, w, db, timeout, faults);
    ReclaimAllForward(cfg, w, db, timeout, faults);
    ExpireApprovalsLeaves(w, reclaimed, |reclaimed.approvals|);
    ExpireApprovalsForward(w, reclaimed, |reclaimed.approvals|);
    ExpireTurnsLeaves(cfg, w, decided, |decided.tasks|);
    ExpireTurnsForward(cfg, w, decided, |decided.tasks|);
    LeavesTransitive(db, reclaimed, decided);
    LeavesTransitive(db, decided, expired);
    ForwardTransitive(db, reclaimed, decided, -1);
    ForwardTransitive(db, decided, expired, -1);
  }

  /** Whenever a sweep resumes a task that waited for its children, every child has finished, and the
      sweep has logged the result of each of them. */
  lemma WokenWithResults(cfg: Config, w: World, db: Db, timeout: int, faults: set<CallId>, t: TaskId) returns (l: nat)
    requires t < |db.tasks| && db.tasks[t].status.WaitingChildren?
    requires var next := Watchdog(cfg, w, db, timeout, faults);
             t < |next.tasks| && next.tasks[t].status.Queued?
    ensures var next := Watchdog(cfg, w, db, timeout, faults);
            && |db.logs| <= l < |next.logs|
            && WokenBy(next, t, next.logs[l])
  {
    hide ReclaimAll, ExpireApprovals, ExpireTurns, WakeTasks, ChildResults;
    var expired := BeforeWaking(cfg, w, db, timeout, faults);
    var next := WakeTasks(w, expired, |expired.tasks|);
    assert next == Watchdog(cfg, w, db, timeout, faults);
    BeforeWakingLeaves(cfg, w, db, timeout, faults);
    hide BeforeWaking, Watchdog;
    WakePass(w, expired, |expired.tasks|);
    l :| |expired.logs| <= l < |next.logs| && WokenBy(expired, t, next.logs[l]);
    SameLiveChildren(next.tasks, expired.tasks, t);
    assert forall i :: 0 <= i < |expired.tasks| && expired.tasks[i].parent == Some(t) ==> Terminal(expired.tasks[i].status);
    ChildResultsFrame(expired.tasks, next.tasks, t);
  }

  /** And after a sweep nobody waits in vain: a task still waiting has a child that is not done. */
  lemma SweepWakesAllReady(cfg: Config, w: World, db: Db, timeout: int, faults: set<CallId>, t: TaskId)
    requires var next := Watchdog(cfg, w, db, timeout, faults);
             t < |next.tasks| && next.tasks[t].status.WaitingChildren?
    ensures HasLiveChild(Watchdog(cfg, w, db, timeout, faults).tasks, t)
  {
    hide ReclaimAll, ExpireApprovals, ExpireTurns, WakeTasks;
    var expired := BeforeWaking(cfg, w, db, timeout, faults);
    var next := WakeTasks(w, expired, |expired.tasks|);
    assert next == Watchdog(cfg, w, db, timeout, faults);
    hide BeforeWaking, Watchdog;
    WakePass(w, expired, |expired.tasks|);
    SameLiveChildren(expired.tasks, next.tasks, t);
  }
}
