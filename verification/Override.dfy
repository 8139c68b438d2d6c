/** Which model a turn uses. The turn after a procedure-bound function result may be redirected to an
    override, or by the roll of a die to a canary; the choice is frozen on the task so that a retry of
    that turn does not roll again. */
module Override {
  import opened Tables
  import opened Transactions
  import opened Runs

  type ExperimentId = nat

  datatype Model = Model(provider: string, name: string)

  datatype Experiment = Experiment(id: ExperimentId, candidate: Model, percent: nat)

  /** What operators may change between two turns: the overrides and the one running experiment of
      each function. */
  datatype Live = Live(
    functions: map<FunctionId, Model>,
    procedures: map<ProcedureId, Model>,
    experiments: map<FunctionId, Experiment>)

  datatype Decision = Decision(override: Option<Model>, experiment: Option<ExperimentId>)

  const AGENT_DEFAULT := Decision(None, None)

  /** `tasks.function_override_state` */
  datatype Frozen = Frozen(callee: FunctionId, decision: Decision)

  datatype Resolved = Resolved(decision: Decision, state: Option<Frozen>)

  predicate FailedStep(logs: seq<Log>, t: TaskId, step: nat) {
    exists i :: 0 <= i < |logs| && logs[i].task == t && logs[i].role.ErrorRole? && logs[i].step == step
  }

  predicate Progress(logs: seq<Log>, t: TaskId, i: nat) {
    i < |logs| && logs[i].task == t && !FailedStep(logs, t, logs[i].step)
  }

  /** `ORDER BY step_number DESC, created_at DESC LIMIT 1` over the first `n` rows. */
  function LastProgress(logs: seq<Log>, t: TaskId, n: nat): Option<nat>
    requires n <= |logs|
    ensures LastProgress(logs, t, n).Some? ==> LastProgress(logs, t, n).value < n
  {
    if n == 0 then None
    else
      var best := LastProgress(logs, t, n - 1);
      if Progress(logs, t, n - 1) && (best.None? || logs[best.value].step <= logs[n - 1].step) then Some(n - 1) else best
  }

  predicate ErrorAfter(logs: seq<Log>, t: TaskId, step: nat) {
    exists i :: 0 <= i < |logs| && logs[i].task == t && logs[i].role.ErrorRole? && logs[i].step > step
  }

  /** The choice made from the live configuration; `die` is `random() * 100`. */
  function Roll(live: Live, f: FunctionId, p: Option<ProcedureId>, die: real): Decision {
    var configured :=
      if f in live.functions then Some(live.functions[f])
      else if p.Some? && p.value in live.procedures then Some(live.procedures[p.value])
      else None;
    if f in live.experiments && die < live.experiments[f].percent as real
    then Decision(Some(live.experiments[f].candidate), Some(live.experiments[f].id))
    else Decision(configured, None)
  }

  function Resolve(logs: seq<Log>, t: TaskId, state: Option<Frozen>, live: Live, die: real): Resolved {
    var last := LastProgress(logs, t, |logs|);
    if last.None? || !logs[last.value].role.FunctionRole? || !logs[last.value].note.BoundResult? then
      Resolved(AGENT_DEFAULT, state)
    else
      var f := logs[last.value].note.callee;
      if ErrorAfter(logs, t, logs[last.value].step) && state.Some? && state.value.callee == f then
        Resolved(state.value.decision, state)
      else
        var rolled := Roll(live, f, logs[last.value].note.procedure, die);
        Resolved(rolled, Some(Frozen(f, rolled)))
  }

  // ---------------------------------------------------------------------------------------------
  // What the query selects
  // ---------------------------------------------------------------------------------------------

  /** Row `i` is the newest row of the newest step that did not fail. */
  ghost predicate Newest(logs: seq<Log>, t: TaskId, i: nat) {
    && Progress(logs, t, i)
    && forall j :: 0 <= j < |logs| && Progress(logs, t, j) ==>
         logs[j].step < logs[i].step || (logs[j].step == logs[i].step && j <= i)
  }

  lemma {:induction false} LastProgressIsNewest(logs: seq<Log>, t: TaskId, n: nat)
    requires n <= |logs|
    ensures match LastProgress(logs, t, n)
            case None => forall j :: 0 <= j < n ==> !Progress(logs, t, j)
            case Some(i) =>
              && Progress(logs, t, i)
              && forall j :: 0 <= j < n && Progress(logs, t, j) ==>
                   logs[j].step < logs[i].step || (logs[j].step == logs[i].step && j <= i)
  {
    if n > 0 {
      LastProgressIsNewest(logs, t, n - 1);
    }
  }

  lemma NewestIsLastProgress(logs: seq<Log>, t: TaskId, i: nat)
    requires Newest(logs, t, i)
    ensures LastProgress(logs, t, |logs|) == Some(i)
  {
    LastProgressIsNewest(logs, t, |logs|);
  }

  // ---------------------------------------------------------------------------------------------
  // Stickiness
  // ---------------------------------------------------------------------------------------------

  /** The log of a turn that went wrong any number of times: every row `t` got since step `step` is at
      a later step, and that step has an error row. Rows of other tasks may come in between. */
  ghost predicate FailedAttempts(extra: seq<Log>, t: TaskId, step: nat) {
    && (forall k :: 0 <= k < |extra| && extra[k].task == t ==> extra[k].step > step && FailedStep(extra, t, extra[k].step))
    && ErrorAfter(extra, t, step)
  }

  lemma FailedStepConcat(logs: seq<Log>, extra: seq<Log>, t: TaskId, step: nat)
    ensures FailedStep(logs + extra, t, step) <==> FailedStep(logs, t, step) || FailedStep(extra, t, step)
  {
    var all := logs + extra;
    if k :| 0 <= k < |logs| && logs[k].task == t && logs[k].role.ErrorRole? && logs[k].step == step {
      assert all[k] == logs[k];
    }
    if k :| 0 <= k < |extra| && extra[k].task == t && extra[k].role.ErrorRole? && extra[k].step == step {
      assert all[|logs| + k] == extra[k];
    }
    if k :| 0 <= k < |all| && all[k].task == t && all[k].role.ErrorRole? && all[k].step == step {
      assert if k < |logs| then logs[k] == all[k] else extra[k - |logs|] == all[k];
    }
  }

  lemma FailedAttemptsKeepNewest(logs: seq<Log>, extra: seq<Log>, t: TaskId, i: nat)
    requires Newest(logs, t, i) && FailedAttempts(extra, t, logs[i].step)
    ensures Newest(logs + extra, t, i) && ErrorAfter(logs + extra, t, logs[i].step)
  {
    var all := logs + extra;
    var step := logs[i].step;
    var e :| 0 <= e < |extra| && extra[e].task == t && extra[e].role.ErrorRole? && extra[e].step > step;
    assert all[|logs| + e] == extra[e];
    FailedStepConcat(logs, extra, t, step);
    forall j | 0 <= j < |all| && all[j].task == t
      ensures Progress(all, t, j) ==> j < |logs| && Progress(logs, t, j) && all[j] == logs[j]
    {
      FailedStepConcat(logs, extra, t, all[j].step);
      if j >= |logs| { assert extra[j - |logs|] == all[j]; }
    }
  }

  /** `fallback` is the agent's own model, with the user's preference on top, as they are at that time. */
  datatype Retry = Retry(extra: seq<Log>, live: Live, die: real, fallback: Model)

  /** The provider and model a turn really uses. */
  function Effective(d: Decision, fallback: Model): Model {
    if d.override.Some? then d.override.value else fallback
  }

  /** The decisions of a series of retries, each after more failed attempts, under whatever the
      configuration and the die are by then. */
  function Decisions(logs: seq<Log>, t: TaskId, state: Option<Frozen>, retries: seq<Retry>): (ds: seq<Decision>)
    ensures |ds| == |retries|
    decreases |retries|
  {
    if retries == [] then []
    else
      var now := logs + retries[0].extra;
      var r := Resolve(now, t, state, retries[0].live, retries[0].die);
      [r.decision] + Decisions(now, t, r.state, retries[1..])
  }

  /** Once the turn after a function result has been resolved, every retry of it, however many and
      whatever operators change or the die shows meanwhile, gets the same override, if any, and the same
      experiment. */
  lemma {:induction false} CanaryIsSticky(logs: seq<Log>, t: TaskId, i: nat, frozen: Frozen, retries: seq<Retry>)
    requires Newest(logs, t, i) && logs[i].role.FunctionRole? && logs[i].note.BoundResult?
    requires frozen.callee == logs[i].note.callee
    requires forall k :: 0 <= k < |retries| ==> FailedAttempts(retries[k].extra, t, logs[i].step)
    ensures forall k :: 0 <= k < |retries| ==> Decisions(logs, t, Some(frozen), retries)[k] == frozen.decision
    decreases |retries|
  {
    if retries != [] {
      var now := logs + retries[0].extra;
      FailedAttemptsKeepNewest(logs, retries[0].extra, t, i);
      NewestIsLastProgress(now, t, i);
      assert now[i] == logs[i];
      CanaryIsSticky(now, t, i, frozen, retries[1..]);
    }
  }

  /** A series of retries of the turn after row `i`. */
  ghost predicate RetriesOf(logs: seq<Log>, t: TaskId, i: nat, retries: seq<Retry>)
    requires i < |logs|
  {
    forall k :: 0 <= k < |retries| ==> FailedAttempts(retries[k].extra, t, logs[i].step)
  }

  /** All retries use model `m`. */
  ghost predicate AllUse(logs: seq<Log>, t: TaskId, frozen: Frozen, retries: seq<Retry>, m: Model) {
    forall k :: 0 <= k < |retries| ==> Effective(Decisions(logs, t, Some(frozen), retries)[k], retries[k].fallback) == m
  }

  /** The model itself is the same on every retry, whatever becomes of the defaults, exactly when the
      frozen choice overrides them. */
  lemma ModelIsStickyExactlyWhenOverridden(logs: seq<Log>, t: TaskId, i: nat, frozen: Frozen)
    requires Newest(logs, t, i) && logs[i].role.FunctionRole? && logs[i].note.BoundResult?
    requires frozen.callee == logs[i].note.callee
    ensures (forall retries, first :: RetriesOf(logs, t, i, retries) ==>
               AllUse(logs, t, frozen, retries, Effective(frozen.decision, first)))
            <==> frozen.decision.override.Some?
  {
    if frozen.decision.override.Some? {
      forall retries, first | RetriesOf(logs, t, i, retries)
        ensures AllUse(logs, t, frozen, retries, Effective(frozen.decision, first))
      {
        CanaryIsSticky(logs, t, i, frozen, retries);
      }
    } else {
      var extra := [Log(t, logs[i].step + 1, ErrorRole, Text)];
      assert extra[0].task == t && extra[0].role.ErrorRole?;
      assert FailedAttempts(extra, t, logs[i].step);
      var retries := [Retry(extra, Live(map[], map[], map[]), 0.0, Model("p", "b"))];
      CanaryIsSticky(logs, t, i, frozen, retries);
      hide Decisions, FailedAttempts;
      var first := Model("p", "a");
      assert RetriesOf(logs, t, i, retries);
      assert !AllUse(logs, t, frozen, retries, Effective(frozen.decision, first)) by {
        assert Effective(Decisions(logs, t, Some(frozen), retries)[0], retries[0].fallback) == Model("p", "b");
      }
    }
  }

  /** Where a turn's model comes from when nothing is frozen: the canary if the die falls below its share,
      else the override of the function, else that of the procedure that bound it, else nothing. */
  lemma WhoDecides(logs: seq<Log>, t: TaskId, i: nat, live: Live, die: real)
    requires Newest(logs, t, i) && logs[i].role.FunctionRole? && logs[i].note.BoundResult?
    ensures var f, p := logs[i].note.callee, logs[i].note.procedure;
            var d := Resolve(logs, t, None, live, die).decision;
            && (d.experiment.Some? <==> f in live.experiments && die < live.experiments[f].percent as real)
            && (d.experiment.Some? ==> d == Decision(Some(live.experiments[f].candidate), Some(live.experiments[f].id)))
            && (d.experiment.None? && f in live.functions ==> d.override == Some(live.functions[f]))
            && (d.experiment.None? && f !in live.functions && p.Some? && p.value in live.procedures ==> d.override == Some(live.procedures[p.value]))
            && (d.experiment.None? && f !in live.functions && (p.None? || p.value !in live.procedures) ==> d.override.None?)
  {
    NewestIsLastProgress(logs, t, i);
  }

  /** Any other turn, after a prompt, an answer or an unbound result, uses the agent's own. */
  lemma NobodyElseDecides(logs: seq<Log>, t: TaskId, state: Option<Frozen>, live: Live, die: real)
    requires forall i: nat :: Newest(logs, t, i) ==> !(logs[i].role.FunctionRole? && logs[i].note.BoundResult?)
    ensures Resolve(logs, t, state, live, die) == Resolved(AGENT_DEFAULT, state)
  {
    LastProgressIsNewest(logs, t, |logs|);
    var last := LastProgress(logs, t, |logs|);
    if last.Some? {
      assert Newest(logs, t, last.value);
    }
  }

  /** The first resolution freezes what it returned, for the function whose result it follows. */
  lemma FirstResolutionFreezes(logs: seq<Log>, t: TaskId, i: nat, state: Option<Frozen>, live: Live, die: real)
    requires Newest(logs, t, i) && logs[i].role.FunctionRole? && logs[i].note.BoundResult?
    ensures var r := Resolve(logs, t, state, live, die);
            r.state == Some(Frozen(logs[i].note.callee, r.decision))
  {
    NewestIsLastProgress(logs, t, i);
  }

  /** The exact condition: a repeated resolution is bound to the frozen decision if and only if an
      error row follows the function result. */
  lemma StickyExactlyAfterAnError(logs: seq<Log>, t: TaskId, i: nat, frozen: Frozen)
    requires Newest(logs, t, i) && logs[i].role.FunctionRole? && logs[i].note.BoundResult?
    requires frozen.callee == logs[i].note.callee
    ensures (forall live, die :: Resolve(logs, t, Some(frozen), live, die).decision == frozen.decision)
            <==> ErrorAfter(logs, t, logs[i].step)
  {
    NewestIsLastProgress(logs, t, i);
    if !ErrorAfter(logs, t, logs[i].step) {
      var other := Model("p", if frozen.decision.override == Some(Model("p", "a")) then "b" else "a");
      var live := Live(map[frozen.callee := other], map[], map[]);
      assert Resolve(logs, t, Some(frozen), live, 0.0).decision == Decision(Some(other), None);
    }
  }

  /** A submission that is rolled back leaves the log as it was. */
  lemma RolledBackLogsNothing(cfg: Config, w: World, db: Db, c: CallId, payload: Payload)
    requires c < |db.calls| && IsRunning(db, db.calls[c].task)
    ensures var next := Deliver(cfg, w, db, c, payload, true);
            next.logs == db.logs && next.tasks == db.tasks && next.calls[c].rolledBack
  {
    hide SubmitResult;
  }

  /** So the die is rolled again: after the rolled-back submission of a turn that has not been retried
      before, the same experiment may send the repeated turn to another model. */
  lemma RolledBackTurnRollsAgain(cfg: Config, w: World, db: Db, c: CallId, payload: Payload, i: nat, e: Experiment, state: Option<Frozen>)
    requires c < |db.calls| && IsRunning(db, db.calls[c].task)
    requires Newest(db.logs, db.calls[c].task, i) && db.logs[i].role.FunctionRole? && db.logs[i].note.BoundResult?
    requires !ErrorAfter(db.logs, db.calls[c].task, db.logs[i].step) && 0 < e.percent < 100
    ensures var t := db.calls[c].task;
            var live := Live(map[], map[], map[db.logs[i].note.callee := e]);
            var first := Resolve(db.logs, t, state, live, 0.0);
            var next := Deliver(cfg, w, db, c, payload, true);
            var second := Resolve(next.logs, t, first.state, live, e.percent as real);
            first.decision == Decision(Some(e.candidate), Some(e.id)) && second.decision == AGENT_DEFAULT
  {
    RolledBackLogsNothing(cfg, w, db, c, payload);
    NewestIsLastProgress(db.logs, db.calls[c].task, i);
  }

  /** For example: a goal, the model's call of a bound function, its result, and the model's next turn
      rolled back. The same experiment then chooses first its candidate and then the default. */
  lemma RolledBackExample(w: World, payload: Payload)
    ensures var logs := [Log(0, 0, UserRole, Text), Log(0, 1, AssistantRole, Text), Log(0, 2, FunctionRole, BoundResult(7, None))];
            var db := Db([Task(0, 0, None, 0, Running, 2, Some(0), 0, None, None, 0)], [], [Call(0, Llm, Harvested, 0, None, 0, false)], [], [], logs);
            var live := Live(map[], map[], map[7 := Experiment(1, Model("p", "candidate"), 50)]);
            var first := Resolve(db.logs, 0, None, live, 0.0);
            var second := Resolve(Deliver(map[], w, db, 0, payload, true).logs, 0, first.state, live, 50.0);
            first.decision == Decision(Some(Model("p", "candidate")), Some(1)) && second.decision == AGENT_DEFAULT
  {
    var logs := [Log(0, 0, UserRole, Text), Log(0, 1, AssistantRole, Text), Log(0, 2, FunctionRole, BoundResult(7, None))];
    var db := Db([Task(0, 0, None, 0, Running, 2, Some(0), 0, None, None, 0)], [], [Call(0, Llm, Harvested, 0, None, 0, false)], [], [], logs);
    assert Newest(logs, 0, 2) && !ErrorAfter(logs, 0, logs[2].step);
    hide Resolve, Deliver, Newest, ErrorAfter;
    RolledBackTurnRollsAgain(map[], w, db, 0, payload, 2, Experiment(1, Model("p", "candidate"), 50), None);
  }

  /** The choice ends with the turn: as soon as a later step succeeds, the frozen decision is no longer
      used. */
  lemma ProgressEndsTheChoice(logs: seq<Log>, t: TaskId, row: Log, state: Option<Frozen>, live: Live, die: real)
    requires row.task == t && !row.role.ErrorRole? && !(row.role.FunctionRole? && row.note.BoundResult?)
    requires forall j :: 0 <= j < |logs| && logs[j].task == t ==> logs[j].step < row.step
    ensures Resolve(logs + [row], t, state, live, die) == Resolved(AGENT_DEFAULT, state)
  {
    var all := logs + [row];
    assert all[|logs|] == row;
    FailedStepConcat(logs, [row], t, row.step);
    forall j | 0 <= j < |logs| ensures all[j] == logs[j] { }
    assert Newest(all, t, |logs|);
    NewestIsLastProgress(all, t, |logs|);
  }

  /** What `fn_submit_result` logs for a failed or unusable turn is a failed attempt. */
  lemma FailureIsAFailedAttempt(cfg: Config, w: World, db: Db, t: TaskId, payload: Payload, step: nat)
    requires IsRunning(db, t) && Active(cfg, w, db.tasks[t].agent) && step <= db.tasks[t].steps
    requires payload.Failure? || payload == LlmResponse(Refused)
    ensures var next := SubmitResult(cfg, w, db, t, payload);
            && next.Some? && db.logs <= next.value.logs
            && FailedAttempts(next.value.logs[|db.logs|..], t, step)
  {
    hide HasLive, HasFailed, LatestRoot, Count;
    var step1 := db.tasks[t].steps + 1;
    var extra := if payload.Failure? then [Log(t, step1, ErrorRole, Text)]
                 else [Log(t, step1, AssistantRole, Text), Log(t, step1, ErrorRole, Text)];
    var next := SubmitResult(cfg, w, db, t, payload);
    assert next.Some? && next.value.logs == db.logs + extra;
    assert next.value.logs[|db.logs|..] == extra;
    assert extra[|extra| - 1] == Log(t, step1, ErrorRole, Text);
  }

  /** In every state a run reaches, when the turn after a bound result fails, the repeated turn is bound
      to the frozen choice. */
  lemma FailedTurnIsSticky(cfg: Config, run: Run, n: nat, w: World, t: TaskId, i: nat, payload: Payload, frozen: Frozen, live: Live, die: real)
    requires IsRun(cfg, run) && n < |run.states|
    requires IsRunning(run.states[n], t) && Active(cfg, w, run.states[n].tasks[t].agent)
    requires payload.Failure? || payload == LlmResponse(Refused)
    requires var logs := run.states[n].logs;
             && Newest(logs, t, i) && logs[i].role.FunctionRole? && logs[i].note.BoundResult?
             && frozen.callee == logs[i].note.callee
    ensures var next := SubmitResult(cfg, w, run.states[n], t, payload);
            next.Some? && Resolve(next.value.logs, t, Some(frozen), live, die).decision == frozen.decision
  {
    var db := run.states[n];
    ResultsAreReached(cfg, run, n, i);
    FailureIsAFailedAttempt(cfg, w, db, t, payload, db.logs[i].step);
    var next := SubmitResult(cfg, w, db, t, payload).value;
    var extra := next.logs[|db.logs|..];
    assert next.logs == db.logs + extra;
    hide SubmitResult, FailedAttempts, Newest, IsRun;
    FailedAttemptsKeepNewest(db.logs, extra, t, i);
    NewestIsLastProgress(next.logs, t, i);
  }
}
