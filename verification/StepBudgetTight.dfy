/** The step budget is tight: a run without operator decisions in which `step_count` reaches
    `max_steps + 2`. The last model turn a task is granted queues a tool call, the tool's result is one
    step past the budget, and a turn timeout is another. */
module StepBudgetTight {
  import opened Tables
  import opened Transactions
  import opened Runs

  const POLICY := Policy(1, 5, 1, Some(10), 0, 1)
  const CFG: Config := map[0 := POLICY]
  const EARLY := World(0, {0})
  const LATE := World(100, {0})
  const VIEW := GuardView(None, false, false)

  function Row(status: TaskStatus, steps: nat): Task {
    Task(0, 0, None, 0, status, steps, if status.Queued? then None else Some(0), 0, None, None, 0)
  }

  function Model(status: CallStatus, submits: nat): Call {
    Call(0, Llm, status, 0, None, submits, false)
  }

  function Query(status: CallStatus, submits: nat): Call {
    Call(0, ToolCall(Sql), status, 0, None, submits, false)
  }

  function At(row: Task, calls: seq<Call>, logs: seq<Log>): Db {
    Db([row], [Session(0, None, Open, None)], calls, [], [], [Log(0, 0, UserRole, Text)] + logs)
  }

  const SAID := [Log(0, 1, AssistantRole, Text)]
  const DID := [Log(0, 1, AssistantRole, Text), Log(0, 2, FunctionRole, Text)]

  const S0 := Db([], [], [], [], [], [])
  const S1 := At(Row(Queued, 0), [], [])
  const S2 := At(Row(Running, 0), [Model(Waiting, 0)], [])
  const S3 := At(Row(Running, 0), [Model(InFlight, 0)], [])
  const S4 := At(Row(Running, 1), [Model(Harvested, 1), Query(Waiting, 0)], SAID)
  const S5 := At(Row(Running, 1), [Model(Harvested, 1), Query(InFlight, 0)], SAID)
  const S6 := At(Row(Running, 2), [Model(Harvested, 1), Query(Harvested, 1)], DID)

  const CREATE := Tx(EARLY, Created(0))
  const DISPATCH := Tx(EARLY, Dispatched([DispatchRow(0, PromptBuilt(None), true, "")]))
  const CLAIM := Tx(EARLY, ClaimedBy(Outbound, 1, [ClaimRow(0, VIEW)]))
  const ANSWER := Tx(EARLY, CompletedBy(0, Reply(true, false, Enqueue(Sql), Text, "", None, false)))
  const CLAIM_SQL := Tx(EARLY, ClaimedBy(SqlCalls, 1, [ClaimRow(1, VIEW)]))
  const RESULT := Tx(EARLY, CompletedBy(1, Reply(true, false, Noted, Text, "", None, false)))
  const SWEEP := Tx(LATE, Swept(90, {}))

  lemma Step1()
    ensures Apply(CFG, S0, CREATE) == S1
  {
    assert [Log(0, 0, UserRole, Text)] + [] == [Log(0, 0, UserRole, Text)];
  }

  lemma Step2()
    ensures Apply(CFG, S1, DISPATCH) == S2
  {
    var row := DispatchRow(0, PromptBuilt(None), true, "");
    assert !HasPending(S1.calls, 0);
    assert S1.tasks[..0] == [] && S1.tasks[1..] == [];
    assert !CapReached(CFG, S1.tasks, 0);
    assert NextStep(CFG, EARLY, S1, 0, PromptBuilt(None)) == CallLlm(S1.(tasks := [Row(Running, 0)]));
    assert S1.calls + [Model(Waiting, 0)] == [Model(Waiting, 0)];
    assert DispatchOne(CFG, EARLY, S1, row) == Some(Dispatch(S2, 1));
    assert DispatchRows(CFG, EARLY, S1, [row], 0) == Some(Dispatch(S1, 0));
    assert FirstTime([row], 0);
  }

  lemma Step3()
    ensures Apply(CFG, S2, CLAIM) == S3
  {
    var row := ClaimRow(0, VIEW);
    assert GuardCall(CFG, EARLY, S2, 0, VIEW) == Guarded(true, S2);
    assert ClaimOne(CFG, EARLY, S2, row) == S3;
    assert ClaimRows(CFG, EARLY, S2, Outbound, 1, [row], 0) == Claimed(S2, 0);
  }

  lemma Step4()
    ensures Apply(CFG, S3, ANSWER) == S4
  {
    var harvested := S3.(calls := [Model(Harvested, 0)]);
    assert Charge(harvested, 0, None) == harvested;
    var noted := S3.(calls := [Model(Harvested, 1)]);
    assert noted.logs + [Log(0, 1, AssistantRole, Text)] == S4.logs;
    assert noted.calls + [Query(Waiting, 0)] == S4.calls;
    assert noted.tasks[0 := Row(Running, 1)] == S4.tasks;
    assert SubmitResult(CFG, EARLY, noted, 0, LlmResponse(Enqueue(Sql))) == Some(S4);
  }

  lemma Step5()
    ensures Apply(CFG, S4, CLAIM_SQL) == S5
  {
    var row := ClaimRow(1, VIEW);
    assert GuardCall(CFG, EARLY, S4, 1, VIEW) == Guarded(true, S4);
    assert ClaimOne(CFG, EARLY, S4, row) == S5;
    assert ClaimRows(CFG, EARLY, S4, SqlCalls, 1, [row], 0) == Claimed(S4, 0);
  }

  lemma Step6()
    ensures Apply(CFG, S5, RESULT) == S6
  {
    var harvested := S5.(calls := [Model(Harvested, 1), Query(Harvested, 0)]);
    assert Charge(harvested, 0, None) == harvested;
    var noted := S5.(calls := [Model(Harvested, 1), Query(Harvested, 1)]);
    assert noted.logs + [Log(0, 2, FunctionRole, Text)] == S6.logs;
    assert noted.tasks[0 := Row(Running, 2)] == S6.tasks;
    assert SubmitResult(CFG, EARLY, noted, 0, ResultOf(FunctionRole, Text)) == Some(S6);
  }

  lemma {:induction false} NothingInFlight(db: Db, q: Queue, n: nat)
    requires forall c :: 0 <= c < |db.calls| ==> !db.calls[c].status.InFlight?
    ensures ReclaimCalls(CFG, LATE, db, q, 90, {}, n) == db
  {
    if n > 0 {
      NothingInFlight(db, q, n - 1);
    }
  }

  lemma NothingReclaimed()
    ensures ReclaimAll(CFG, LATE, S6, 90, {}) == S6
  {
    NothingInFlight(S6, Outbound, 2);
    NothingInFlight(S6, SqlCalls, 2);
    NothingInFlight(S6, FunctionCalls, 2);
    NothingInFlight(S6, ProcedureCalls, 2);
    hide ReclaimCalls;
  }

  /** The turn has expired: the task fails one step later. */
  lemma TurnExpires()
    ensures var next := ExpireTurns(CFG, LATE, S6, 1);
            |next.tasks| == 1 && next.tasks[0].steps == 3 && next.tasks[0].status.Failed? && next.tasks[0].agent == 0
  {
    hide HasLive, HasFailed, LatestRoot, LoseCalls;
    assert ExpireTurns(CFG, LATE, S6, 0) == S6;
    assert TurnExpired(CFG, LATE, S6.tasks[0]);
  }

  lemma NobodyWakes(db: Db)
    requires |db.tasks| == 1 && db.tasks[0].status.Failed?
    ensures WakeTasks(LATE, db, 1) == db
  {
    hide ChildResults, HasLiveChild;
    assert WakeTasks(LATE, db, 0) == db;
  }

  /** The sweep ends the turn one step later. */
  lemma Step7()
    ensures var db := Apply(CFG, S6, SWEEP);
            |db.tasks| == 1 && db.tasks[0].steps == 3 && db.tasks[0].status.Failed? && db.tasks[0].agent == 0
  {
    hide ReclaimAll, ExpireApprovals, ExpireTurns, WakeTasks;
    NothingReclaimed();
    NoApprovals();
    TurnExpires();
    NobodyWakes(ExpireTurns(CFG, LATE, S6, 1));
    assert Watchdog(CFG, LATE, S6, 90, {}) == WakeTasks(LATE, ExpireTurns(CFG, LATE, S6, 1), 1);
  }

  lemma NoApprovals()
    ensures ExpireApprovals(LATE, S6, 0) == S6 && |S6.approvals| == 0 && |S6.tasks| == 1
  {
  }

  /** No smaller bound than that of `StepBudgetUndecided` holds of every run. */
  lemma StepBudgetIsReached() returns (run: Run)
    ensures IsRun(CFG, run) && (forall j :: 0 <= j < |run.txs| ==> !run.txs[j].event.Decided?)
    ensures var db := run.states[|run.txs|];
            |db.tasks| == 1 && db.tasks[0].agent in CFG && db.tasks[0].steps == CFG[db.tasks[0].agent].maxSteps + 2
  {
    Step1();
    Step2();
    Step3();
    Step4();
    Step5();
    Step6();
    Step7();
    hide Apply;
    run := Run([S0, S1, S2, S3, S4, S5, S6, Apply(CFG, S6, SWEEP)], [CREATE, DISPATCH, CLAIM, ANSWER, CLAIM_SQL, RESULT, SWEEP]);
  }
}
