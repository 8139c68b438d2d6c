/** A schedule can be on past its budget: a run in which a schedule of budget 1 fires once, its model call
    costs 2 and switches it off, and an operator switches it on again. */
module BudgetOverrun {
  import opened Tables
  import opened Transactions
  import opened Runs

  const CFG: Config := map[0 := Policy(1, 5, 1, None, 0, 1)]
  const NOW := World(0, {0})

  function At(row: Task, calls: seq<Call>): Db {
    Db([row], [Session(0, Some(0), Open, None)], calls, [], [Schedule(true, 0.0, Some(1.0))], [Log(0, 0, UserRole, Text)])
  }

  function Row(status: TaskStatus): Task {
    Task(0, 0, None, 0, status, 0, if status.Queued? then None else Some(0), 0, None, None, 0)
  }

  function Model(status: CallStatus): Call {
    Call(0, Llm, status, 0, None, 0, false)
  }

  const S0 := Db([], [], [], [], [Schedule(true, 0.0, Some(1.0))], [])
  const S1 := At(Row(Queued), [])
  const S2 := At(Row(Running), [Model(Waiting)])
  const S3 := At(Row(Running), [Model(InFlight)])

  const FIRE := Tx(NOW, Fired(0, 0, false, false, false))
  const DISPATCH := Tx(NOW, Dispatched([DispatchRow(0, PromptBuilt(None), true, "")]))
  const CLAIM := Tx(NOW, ClaimedBy(Outbound, 1, [ClaimRow(0, GuardView(None, false, false))]))
  const ANSWER := Tx(NOW, CompletedBy(0, Reply(true, false, FinalAnswer("done"), Text, "", Some(2.0), false)))
  const SWITCH_ON := Tx(NOW, ScheduleSet(0, Edit(Some(true), None, false)))

  lemma Step1()
    ensures Apply(CFG, S0, FIRE) == S1
  {
    assert S1.schedules[0 := S1.schedules[0]] == S1.schedules;
  }

  lemma Step2()
    ensures Apply(CFG, S1, DISPATCH) == S2
  {
    var row := DispatchRow(0, PromptBuilt(None), true, "");
    assert !HasPending(S1.calls, 0);
    assert S1.tasks[..0] == [] && S1.tasks[1..] == [];
    assert !CapReached(CFG, S1.tasks, 0);
    assert NextStep(CFG, NOW, S1, 0, PromptBuilt(None)) == CallLlm(S1.(tasks := [Row(Running)]));
    assert S1.calls + [Model(Waiting)] == [Model(Waiting)];
    assert DispatchOne(CFG, NOW, S1, row) == Some(Dispatch(S2, 1));
    assert DispatchRows(CFG, NOW, S1, [row], 0) == Some(Dispatch(S1, 0));
    assert FirstTime([row], 0);
  }

  lemma Step3()
    ensures Apply(CFG, S2, CLAIM) == S3
  {
    var row := ClaimRow(0, GuardView(None, false, false));
    assert GuardCall(CFG, NOW, S2, 0, row.view) == Guarded(true, S2);
    assert ClaimOne(CFG, NOW, S2, row) == S3;
    assert ClaimRows(CFG, NOW, S2, Outbound, 1, [row], 0) == Claimed(S2, 0);
  }

  /** The answer is charged, and that switches the schedule off. */
  lemma Step4()
    ensures Apply(CFG, S3, ANSWER).schedules == [Schedule(false, 2.0, Some(1.0))]
  {
    hide HasLive, HasFailed, LatestRoot;
    var harvested := S3.(calls := [S3.calls[0].(status := Harvested, cost := Some(2.0))]);
    var charged := harvested.(schedules := [Schedule(false, 2.0, Some(1.0))]);
    assert ScheduleOf(harvested.tasks, harvested.sessions, 0) == Some(0);
    assert Charge(harvested, 0, Some(2.0)) == charged;
    assert Deliver(CFG, NOW, charged, 0, LlmResponse(FinalAnswer("done")), false).schedules == charged.schedules;
  }

  lemma Step5(db: Db)
    requires db.schedules == [Schedule(false, 2.0, Some(1.0))]
    ensures Apply(CFG, db, SWITCH_ON).schedules == [Schedule(true, 2.0, Some(1.0))]
    ensures !EditsWell(db, SWITCH_ON, 0)
  {
  }

  lemma Start()
    ensures Initial(S0)
  {
  }

  /** So the edit that `BudgetStopsExactly` excludes is one an operator can make. */
  lemma OverspentAndOn() returns (run: Run)
    ensures IsRun(CFG, run) && |run.txs| == 5
    ensures var s := run.states[4].schedules;
            |s| == 1 && OverBudget(s[0]) && !s[0].active && !EditsWell(run.states[4], run.txs[4], 0)
    ensures var s := run.states[5].schedules;
            |s| == 1 && OverBudget(s[0]) && s[0].active && !Thrifty(s[0])
  {
    hide Apply, Initial, EditsWell, S0, S1, S2, S3, FIRE, DISPATCH, CLAIM, ANSWER, SWITCH_ON;
    Start();
    Step1();
    Step2();
    Step3();
    Step4();
    var s4 := Apply(CFG, S3, ANSWER);
    Step5(s4);
    run := Run([S0, S1, S2, S3, s4, Apply(CFG, s4, SWITCH_ON)], [FIRE, DISPATCH, CLAIM, ANSWER, SWITCH_ON]);
  }
}
