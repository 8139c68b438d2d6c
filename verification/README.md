# Allgres task protocol: a Dafny model

Allgres runs LLM agents inside PostgreSQL. Its control plane is a set of SQL functions over tables of
tasks, sessions, queued calls, approvals, schedules and logs; a background worker claims queued calls,
sends them over a small HTTP pool and reports what came back, late, twice or never. This project models
that protocol and the algorithms around it, and proves what holds over every run.

## What is modelled

**The task protocol** (`Tables`, `Transactions`, `ControlPlane`). `Tables` has the rows. `Transactions` has
one function per SQL function, from a whole database to the next; where the source raises, the result is
`None`. `ControlPlane.Instance` is the same protocol in the source's own form: an object whose tables are
updated row by row, in loops over cursors, with subtransactions that are rolled back when something raises.
Each of its methods is proved to move the tables exactly as its function says, and `Execute`, which runs one
transaction and rolls it all back if it raises, keeps the invariant. What the control plane cannot know in
advance is an input: what a model answers, what a worker reports, which permission checks pass, which
submission fails. A run is any sequence of transactions, so completions may be delayed, duplicated or lost.

**The invariant and the runs** (`Invariant`, `RowOperations`, `Preservation`, `Forward`, `Delegation`,
`Waking`, `SessionClosing`, `Runs`, `Authorization`, `StepBudgetTight`, `BudgetOverrun`). `Invariant` is ten
clauses; `RowOperations` shows what each kind of row update does to them; `Preservation` shows that every
transaction keeps them all; `Forward` shows that rows only move forward. `Runs` states the results;
`Authorization` adds that nothing runs without an approval it needs.

**What each transaction does** (`Effects`, `DispatchEffects`, `SweepEffects`, `OperatorEffects`). The outcome
of a completion, a dispatch, a claim, a sweep and an operator's step, each in the columns of the tables and in
both directions: what fails, what waits, what is sent and what is given up, and exactly when. `OperatorEffects`
lifts two of them to runs: a rejected request is never in flight afterwards, and a task whose request may or
may not have changed something outside stays put until an operator has accepted it.

**Around the protocol.** `Override` (which model a turn uses, and why a retry does not roll the die again),
`Compaction` (when log rows leave the window the model sees), `FirstJson` (finding the JSON object in an
answer), `Utf8`, `Tokens`, `NodeDump`, `DumpReader`, `DumpCorrectness`, `DumpProperties`,
`DumpStatements`, `DumpReport` (the parse-tree dump reader against the tree that was printed), `Worker` (the claim and harvest loop and its thread pool),
`RateLimit` (the dashboard's sliding windows), `DollarQuote` (quoting a function body).

## Where the code and what is said about it differ

- *Rolled-back turns re-roll the canary.* The choice is frozen, but it is reused only when an error row
  follows the function result. A turn whose submission was rolled back leaves none, so the die is rolled
  again: `Override.RolledBackTurnRollsAgain`; the exact condition is `Override.StickyExactlyAfterAnError`.
- *A retry can change model.* What is frozen is the override and the experiment. Without an override the
  agent's and the user's settings are read afresh on each retry, so the model stays the same, whatever is
  changed there, exactly when the frozen choice has an override:
  `Override.ModelIsStickyExactlyWhenOverridden`.
- *A schedule can be on past its budget.* fn_set_schedule compares neither `is_active` nor `max_cost_usd` with
  what was spent. A schedule is off from the moment it has spent its budget exactly when no edit leaves it on
  with a budget already spent: `Runs.BudgetStopsExactly`; `BudgetOverrun.OverspentAndOn` is a run in which one
  does. Even then it starts nothing: `Runs.FiresWithinBudget`.
- *Compaction can lose a row.* With `compaction_keep_recent = 0` the cutoff is the wall clock, and a row stamped
  with an earlier transaction time but written later is neither in the turns nor in the window:
  `Compaction.LateRowIsLost`. Among runs whose rows are stamped in the order they are written, nothing is lost
  exactly when at least one row is kept: `Compaction.KeepingOneIsExact`. A row stamped by a transaction that had
  to wait is out of order, and can be lost even then: `Compaction.OutOfOrderRowIsLost`. For every run, with
  any order and anything kept, `Compaction.CoverageIsExact` gives the exact condition: each row is stamped at
  or after the cutoff in force, and no compaction lands after a row stamped before its cutoff was written
  behind its back.
- *Two compaction sessions can be open.* Sending a message to a finished compaction session reopens it while
  the next one runs (`Compaction.ContinuedSessionIsSecondOpen`). At most one is open all along a run exactly
  when no finished one is continued while another is open (`Compaction.OneCompactionOpenExactly`); at most one
  compaction *task* runs whatever happens (`Compaction.OneCompactionTask`).
- *The rate limiter never drops an address.* The comment says the map holds no more entries than there are
  recently active addresses. The list of an accepted address is never empty when the map is cleaned, so every
  address ever accepted stays listed, and the comment's bound holds exactly when each of them has a hit in the
  window: `RateLimit.RateWindows.ListIsRecentExactly`, with an example in `RateLimit.StaleAddressKeepsItsList`.
- *A name can mislead the dump reader.* A relation in a schema whose name ends in `:relname` is reported under
  the name `:relname`, and one in a schema whose name ends in `{RANGEVAR` is reported a second time, without a
  schema: `DumpProperties.ColonMisleads` and `DumpProperties.MisledSample`. Other colons and braces are harmless:
  `DumpProperties.OwnValueExactly` and `DumpProperties.RelationsAreExact`.
- *A string literal can look like writing.* `SELECT '{INSERTSTMT'` is reported as writing:
  `DumpReport.FeignedSample`, and `DumpReport.LiteralMisleads` for every literal. A tree is reported as writing
  exactly when it writes or a name or string in it looks like it: `DumpReport.WritesAreExact`. A `{RAWSTMT` in a
  string is counted as a statement only if a real one follows in the same node
  (`DumpStatements.StatementsAreExact`, `DumpReport.MarkMisleads`), which never happens in a parsed script:
  `DumpStatements.ScriptsAreExact`.
- *An unclosed brace hides later JSON*, as in `{ {"a":1}`: `FirstJson.UnclosedBraceHides` and
  `FirstJson.HiddenSample`. The object is found exactly when every brace opened before it has closed around
  something that is not JSON: `FirstJson.FoundExactlyBehindIdle`.

## Model

| member | source | states |
|---|---|---|
| `ControlPlane.Instance.Execute` | sql/control_plane.sql:6182-7740 | running any transaction, with whole rollback when it raises, moves the tables as specified and keeps the ten-clause invariant |
| `ControlPlane.Instance.MaybeCompleteSession` | sql/control_plane.sql:2715-2756 | one pass over the tasks decides live, failed and latest answer, and closes the session accordingly |
| `ControlPlane.Instance.Submit` | sql/control_plane.sql:4427-4601 | exactly the specified outcome for inactive agents, rejected payloads, errors counted against max_retries, results and model responses; raises exactly when specified |
| `ControlPlane.Instance.TakeAction` | sql/control_plane.sql:4603-5923 | the effect of each model action on tasks, sessions, calls and approvals |
| `ControlPlane.Instance.DelegateTo` | sql/control_plane.sql:5173-5292 | the three bounds, then the child row and the parent's hand-off or wait |
| `ControlPlane.Instance.AncestorHasAgent` | sql/control_plane.sql:5226-5233 | the ancestor walk terminates and decides whether the agent is on the chain |
| `ControlPlane.Instance.NextTurn` | sql/control_plane.sql:4018-4075 | start, inactive agent, exhausted steps, failing prompt, compaction on the way |
| `ControlPlane.Instance.DispatchTasks` | sql/control_plane.sql:6198-6311 | the cursor loop: filter read once, cap check, rollback of a failing fn_next_step, at most four sent |
| `ControlPlane.Instance.Guard` | sql/execution_guards.sql:182-329 | deny fails the task, an approval rule holds the call behind a new approval, an approved unchanged request passes |
| `ControlPlane.Instance.Claim` | sql/control_plane.sql:6336-6360 | the claim loop over one queue with its limit |
| `ControlPlane.Instance.CompleteCall` | sql/control_plane.sql:6925-7249 | fencing, ambiguous results, harvest, charge and delivery in that order |
| `ControlPlane.Instance.DeliverResult` | sql/control_plane.sql:7233-7249 | the subtransaction: a submission that raises is undone alone |
| `ControlPlane.Instance.Sweep` | sql/control_plane.sql:7383-7729 | the four reclaim loops, approval expiry, turn timeout and wake, in order |
| `ControlPlane.Instance.DecideApproval` | sql/operator_accounts_and_chat.sql:16-72 | a decision on a pending, unexpired approval resumes, requeues or fails the task |
| `ControlPlane.Instance.Cancel` | sql/operator_accounts_and_chat.sql:146-224 | every live task of the session cancelled, its outbound and SQL calls lost, its approvals rejected |
| `ControlPlane.Instance.Continue` | sql/operator_runtime_and_integrations.sql:63-115 | a follow-up reopens the session with a new root task unless a root turn is in progress |
| `ControlPlane.Instance.StartSession` | sql/operator_runtime_and_integrations.sql:12-53 | a session with one queued root task, for an active agent |
| `ControlPlane.Instance.FireSchedule` | sql/operator_runtime_and_integrations.sql:245-350 | a due or forced schedule past a stop condition is switched off or refused; otherwise it opens a session, or undoes a failed attempt alone |
| `ControlPlane.Instance.UpdateSchedule` | sql/operator_runtime_and_integrations.sql:171-212 | an edit of activity and budget, checked against nothing that was spent |
| `ControlPlane.Instance.constructor` | sql/control_plane.sql:959-961 | an installation before its first session satisfies the invariant |
| `Effects.FailureOutcome` | sql/control_plane.sql:4527-4548 | an error adds one error row and one step, and fails the task, with its message, if and only if the task's error rows then exceed max_retries |
| `Effects.ErrorOutcome` | sql/control_plane.sql:7160-7249 | a model call, or a tool other than HTTP, that went wrong counts as such an error, is harvested, and its session is open if and only if something in it is live |
| `Effects.ResultOutcome` | sql/control_plane.sql:4550-4592 | a tool's result, an HTTP one also when it went wrong, is logged in its role and costs one step |
| `Effects.AnswerOutcome` | sql/control_plane.sql:4578-5923 | each model answer: the task's row, the log, the queued tool call, the child or the approval, and when a delegation or a wait is refused |
| `Effects.InactiveOutcome` | sql/control_plane.sql:4503-4515 | a result for an agent that was switched off fails its task |
| `Effects.RejectedPayloadOutcome` | sql/control_plane.sql:4517-4525 | a payload of no known kind is logged and costs a step |
| `Effects.RaisedOutcome` | sql/control_plane.sql:7233-7249 | a submission that raises leaves tasks, log, approvals and sessions as they were, and the call harvested |
| `Effects.DiscardedOutcome` | sql/control_plane.sql:7233-7240 | a result for a task that is not running changes only its call |
| `Effects.UnknownOutcome` | sql/control_plane.sql:6943-6953 | a mutating request with an unknown result is lost and never submitted; its running task waits for a human, at the same step, behind a new approval |
| `Effects.LostExactlyWhenUnknown` | sql/control_plane.sql:6943-6960 | a completion loses its call if and only if that is the case; every other one harvests it |
| `Effects.ChargeOutcome` | sql/control_plane.sql:7173-7231 | the cost recorded, the schedule charged, and that it is switched off if and only if it reaches its budget |
| `DispatchEffects.TurnOutcome` | sql/control_plane.sql:6198-6311 | what becomes of a task that is ready and under its agent's cap: refused, begun with a queued model call, or charged with an error |
| `DispatchEffects.NoTurn` | sql/control_plane.sql:6198-6256 | a task that is not ready, or whose agent's other tasks hold all slots, gets no turn |
| `DispatchEffects.CapExactly` | sql/control_plane.sql:6243-6256 | the cap is reached if and only if as many other tasks of the agent hold a slot |
| `DispatchEffects.AtMostFour` | sql/control_plane.sql:6309-6312 | one dispatch queues at most four model calls |
| `DispatchEffects.AtMostTheLimit` | sql/control_plane.sql:6355-6360 | one claim sends at most its limit, between one and sixteen |
| `DispatchEffects.SentExactly` | sql/execution_guards.sql:182-329 | a claimed call is sent if and only if its agent is active, nothing denies it, and an approval that was or must be asked for is given, valid and for this request; otherwise it is denied or held behind a new approval |
| `SweepEffects.SweepReclaimsExactly` | sql/control_plane.sql:7383-7550 | a call in flight is lost if and only if it is older than max(15, timeout) seconds, 150 for a procedure, or its task's turn is over and it is not a function or procedure call; any other is unchanged |
| `SweepEffects.SweepTells` | sql/control_plane.sql:7410-7550 | the running task of an overdue call waits for a human if the call may have changed something, and is otherwise charged with the timeout as an error |
| `SweepEffects.SweepExpiresExactly` | sql/control_plane.sql:7626-7653 | exactly the undecided approvals whose time is over are rejected |
| `SweepEffects.SweepOtherTasks` | sql/control_plane.sql:7626-7729 | any other task fails if its decision can no longer come or its turn is over, goes back to the queue if its children are done, and is otherwise unchanged |
| `OperatorEffects.DecisionOutcome` | sql/operator_accounts_and_chat.sql:16-72 | a decision in time is recorded as it was taken; a waiting task goes on with its call, back to the queue, or fails as human_rejected, one step later; any other decision changes nothing |
| `OperatorEffects.RejectionCloses` | sql/operator_accounts_and_chat.sql:55-65 | after a rejection the session is open if and only if something in it is live |
| `OperatorEffects.RejectedNeverRuns` | sql/execution_guards.sql:296-326 | in every run, a request an operator rejected is never in flight afterwards |
| `OperatorEffects.WaitsForDecision` | sql/operator_accounts_and_chat.sql:16-72 | in every run, a task that waits for a human goes on only after an operator has accepted an approval of it |
| `OperatorEffects.UnknownWaitsForDecision` | sql/control_plane.sql:7410-7440 | in every run, after a mutating request was left unknown by its worker or a sweep, its task is not queued or running again before an operator has accepted |
| `OperatorEffects.CancelOutcome` | sql/operator_accounts_and_chat.sql:146-224 | exactly the live tasks are cancelled, their pending calls except function and procedure calls lost, and their undecided approvals rejected |
| `OperatorEffects.ContinueOutcome` | sql/operator_runtime_and_integrations.sql:63-115 | a follow-up is refused if and only if the agent is not active or a root task is live; otherwise the session is open with a new root task |
| `OperatorEffects.CreationOutcome` | sql/operator_runtime_and_integrations.sql:12-53 | a session with one queued root task if and only if the agent is active |
| `OperatorEffects.FiringOutcome` | sql/operator_runtime_and_integrations.sql:245-350 | when a schedule fires, and what its firing opens, switches off or leaves |
| `OperatorEffects.EditOutcome` | sql/operator_runtime_and_integrations.sql:171-212 | an edit sets what it names unless its budget is not positive |
| `Preservation.ApplyKeeps` | sql/control_plane.sql:6182-7740 | every transaction, from any state that satisfies the invariant, leads to one that does |
| `Preservation.SubmitKeeps` | sql/control_plane.sql:4427-5926 | fn_submit_result keeps the invariant for every payload, an unrecognized one included, and pays the step a settled model call owes |
| `Preservation.WatchdogKeeps` | sql/control_plane.sql:7369-7740 | all seven loops of the watchdog keep the invariant |
| `Preservation.CancelKeeps` | sql/operator_accounts_and_chat.sql:146-224 | cancelling a session keeps the invariant |
| `Runs.RunInvariant` | sql/control_plane.sql:6182-7740 | the invariant holds in every state of every run |
| `Runs.OneCallOutstanding` | sql/control_plane.sql:6198-6308 | each task has at most one call queued or in flight, over all four queues together |
| `Runs.DispatchesOnlyIdle` | sql/control_plane.sql:6198-6241 | a dispatch changes no existing call and queues calls only for tasks without a pending one |
| `Runs.NextTurnWaitsForTheLast` | sql/control_plane.sql:6198-6308 | in every run no new turn is dispatched while an earlier call of the task is outstanding |
| `Runs.CallsMoveForward` | sql/control_plane.sql:6929-6958 | a call's status only moves forward; a harvested or lost call's row never changes again |
| `Runs.LateCompletionIsIgnored` | sql/control_plane.sql:6929-6941 | a completion after harvested or lost, at any later time and with any content, changes nothing |
| `Runs.SubmittedAtMostOnce` | sql/control_plane.sql:7233-7249 | each call reaches fn_submit_result at most once, and not before it is settled |
| `Runs.SpendIsConserved` | sql/control_plane.sql:7173-7231 | spent_cost_usd is the sum of cost_usd over the harvested model calls of the schedule's sessions, each once |
| `Runs.BudgetStopsExactly` | sql/operator_runtime_and_integrations.sql:171-212 | all along a run a schedule is off once it has spent its budget, if and only if no edit leaves it on with a budget already spent |
| `Runs.FiresWithinBudget` | sql/operator_runtime_and_integrations.sql:266-278 | in every run, whatever the transaction, a schedule that gets a new session was on and within its budget just before |
| `BudgetOverrun.OverspentAndOn` | sql/operator_runtime_and_integrations.sql:171-212 | a run of five transactions that ends with a schedule on past its budget |
| `Runs.ResultsAreReached` | sql/control_plane.sql:4579-4601 | in every state a function's result is logged at a step its task has reached |
| `Runs.StepBudget` | sql/control_plane.sql:4065-4075 | step_count is at most max_steps + 2 + decisions; tighter bounds while live, with a call pending, and with a model call pending |
| `Runs.StepBudgetUndecided` | sql/control_plane.sql:7665-7692 | without operator decisions step_count never exceeds max_steps + 2 |
| `StepBudgetTight.StepBudgetIsReached` | sql/control_plane.sql:7665-7692 | that bound is reached: a run of seven transactions ends with max_steps + 2 |
| `Runs.ModelCallBudget` | sql/control_plane.sql:6283-6311 | model calls dispatched for a task are at most max_steps plus its rolled-back ones |
| `Runs.OpenExactlyWhenLive` | sql/control_plane.sql:2715-2756 | a session is open exactly when one of its tasks is queued, running or waiting |
| `Runs.SlotsRespected` | sql/control_plane.sql:6243-6256 | an agent's running and waiting tasks never exceed max_concurrent_tasks |
| `Runs.RunningTaskIsNotCapped` | sql/control_plane.sql:6243-6256 | the cap check never skips the next turn of a running task |
| `Runs.DispatchNeverAborts` | sql/control_plane.sql:6258-6291 | no exception ever leaves fn_dispatch_tasks |
| `Runs.OneApprovalAsked` | sql/control_plane.sql:5876-5892 | a task waiting for a human has exactly one undecided approval |
| `Runs.ApprovalResumesItsRequest` | docs/security.md:171-178 | approving an execution request resumes that same queued call, unchanged and the only one pending |
| `Runs.QueuedCallIsNotStranded` | sql/execution_guards.sql:296-326 | a queued call of a live task is claimable or held back by an undecided approval of its own |
| `Runs.DelegationBounded` | sql/control_plane.sql:5209-5268 | depth counts the hops, no agent occurs twice on a chain, depth is below the number of agents and within the parent agent's bound, and each child joined a session with fewer tasks than the parent agent allows |
| `Runs.NoCircularWait` | sql/control_plane.sql:5904-5923 | below every live task, along waits for children, there is a task that something else can move |
| `Authorization.NothingRunsUnapproved` | sql/execution_guards.sql:308-326 | in every run, a call in flight for which an approval was ever asked has its newest one approved, even if the rule was relaxed meanwhile |
| `Authorization.AllowedIsAuthorized` | sql/execution_guards.sql:284-326 | what the guard lets through belongs to an active agent, is not denied, and, where a rule asks for it, has an approved, unexpired approval of the unchanged request |
| `Authorization.LatestIsNewest` | sql/execution_guards.sql:305-307 | the guard's query finds the newest approval of the call |
| `SessionClosing.SessionOutcome` | sql/control_plane.sql:2715-2756 | a session is closed only without live tasks; as failed only if a task failed and no root completed last with an answer; otherwise with that answer |
| `SessionClosing.LatestRootIsLatest` | sql/control_plane.sql:2735-2742 | the answer is that of a completed root task updated no earlier than any other |
| `Delegation.OnChainMeans` | sql/control_plane.sql:5226-5233 | the ancestor query is true of exactly the agents on the chain |
| `Delegation.ChildResultsExact` | sql/control_plane.sql:7712-7722 | delegate_results has one entry per child, oldest first, with that child's agent, status, output and error |
| `Waking.WokenWithResults` | sql/control_plane.sql:7694-7729 | a task resumed by a sweep finds every child terminal and a log row with exactly their results |
| `Waking.SweepWakesAllReady` | sql/control_plane.sql:7694-7729 | after a sweep every task still waiting has a child that is not done |
| `Override.LastProgressIsNewest` | sql/control_plane.sql:4312-4320 | the log query selects the newest row of the newest step without an error |
| `Override.CanaryIsSticky` | sql/control_plane.sql:4322-4385 | over any number of error retries, under any configuration and die, the frozen override, if any, and experiment are used |
| `Override.ModelIsStickyExactlyWhenOverridden` | sql/control_plane.sql:4388-4405 | the provider and model are the same on all retries, whatever the agent's and user's settings become, if and only if the frozen choice has an override |
| `Override.FirstResolutionFreezes` | sql/control_plane.sql:4352-4385 | the first resolution freezes what it returned, for the function whose result it follows |
| `Override.WhoDecides` | sql/control_plane.sql:4323-4351 | with nothing frozen the canary decides if the die falls below its share, else the function's override, else the procedure's, else nothing |
| `Override.NobodyElseDecides` | sql/control_plane.sql:4312-4322 | a turn that does not follow a bound result uses the agent's own model |
| `Override.StickyExactlyAfterAnError` | sql/control_plane.sql:4323-4351 | a repeated resolution is bound to the frozen choice if and only if an error row follows the function result |
| `Override.RolledBackTurnRollsAgain` | sql/control_plane.sql:7241-7249 | after any rolled-back submission of a turn without an error row the die is rolled again, and can choose otherwise |
| `Override.RolledBackExample` | sql/control_plane.sql:7241-7249 | a goal, a call of a bound function, its result and a rolled-back turn, after which the die chooses otherwise |
| `Override.RolledBackLogsNothing` | sql/control_plane.sql:7233-7249 | a submission that raises leaves log and tasks as they were and the call marked |
| `Override.ProgressEndsTheChoice` | sql/control_plane.sql:4293-4311 | once a later step succeeds the agent's default applies again |
| `Override.FailureIsAFailedAttempt` | sql/control_plane.sql:4527-4601 | what fn_submit_result logs for an error or an unusable answer is a failed attempt in that sense |
| `Override.FailedTurnIsSticky` | sql/control_plane.sql:4323-4351 | in every state a run reaches, when the turn after a bound result fails, the repeated turn gets the frozen decision |
| `Compaction.Transcript.MaybeTrigger` | sql/control_plane.sql:672-786 | threshold, one open compaction, cutoff, turns and previous summary as specified |
| `Compaction.TriggersExactly` | sql/control_plane.sql:712-757 | a compaction starts if and only if more rows than the threshold are visible, none is open, and there are as many rows as it is to keep |
| `Compaction.Transcript.RawWindow` | sql/control_plane.sql:4237-4260 | the rows shown are exactly those at or after the cutoff, in order |
| `Compaction.Transcript.Land` | sql/control_plane.sql:5862-5871 | the compactor's remember sets the cutoff of its own task |
| `Compaction.LandingMovesTurns` | sql/control_plane.sql:764-786 | in every state of every run, the turns a compaction was given are exactly the rows it saw that leave the window when it lands |
| `Compaction.NoRowIsLost` | sql/control_plane.sql:715-786 | if at least one row is kept and rows are stamped in the order they are written, each root-level row is always still raw or was in the turns of a compaction that landed |
| `Compaction.CoverageIsExact` | sql/control_plane.sql:715-786 | for every run, in any order and with anything kept: no row is lost all along it if and only if each row is stamped inside the window and no compaction lands after a row stamped before its cutoff was written behind it |
| `Compaction.OutOfOrderRowIsLost` | sql/control_plane.sql:744-752 | with keep_recent 1, a run that loses a row stamped out of order |
| `Compaction.CutoffNeverDecreases` | sql/control_plane.sql:5862-5871 | compacted_before never decreases along a run, in whatever order rows are stamped; where nothing is kept, if the clock is not behind the last cutoff |
| `Compaction.KeepingOneIsExact` | sql/control_plane.sql:733-757 | nothing is lost on every run with rows stamped in the order they are written, if and only if keep_recent is at least one |
| `Compaction.LateRowIsLost` | sql/control_plane.sql:742-743 | with keep_recent 0, a run that loses a row |
| `Compaction.OneCompactionTask` | sql/control_plane.sql:726-731 | at most one task compacts a session, whatever happens |
| `Compaction.OneOpenStep` | sql/control_plane.sql:726-731 | one event leaves at most one compaction session open if and only if it does not continue a finished one while another is open |
| `Compaction.OneCompactionOpenExactly` | sql/control_plane.sql:726-731 | at most one compaction session is open all along a run if and only if every continued one was continued with no other open |
| `Compaction.ContinuedSessionIsSecondOpen` | sql/operator_runtime_and_integrations.sql:63-115 | a run in which continuing a finished compaction session leaves two open |
| `Compaction.SummaryChain` | sql/control_plane.sql:759-786 | if at least one row is kept, rows are stamped in order and every memory is filed under the session, each row is raw or behind the newest summary |
| `Compaction.CutoffKeepsTheNewest` | sql/control_plane.sql:744-752 | at least keep_recent rows stay raw and fewer are newer than the cutoff |
| `FirstJson.ExtractFirstJson` | sql/control_plane.sql:2625-2689 | null and blank give nothing; otherwise the fast path or the scan |
| `FirstJson.ScanText` | sql/control_plane.sql:2650-2688 | the character loop with depth, string and escape state is the specified scan |
| `FirstJson.ExtractFindsObject` | sql/control_plane.sql:2625-2689 | any printed object is returned behind any text without a brace, or whose braces all close around something that is not JSON, and before any tail |
| `FirstJson.ScanSkipsIdle` | sql/control_plane.sql:2650-2688 | behind such text the scan goes on as if it were not there |
| `FirstJson.FoundExactlyBehindIdle` | sql/control_plane.sql:2650-2688 | the piece returned is the printed object behind the text if and only if the text is of that kind |
| `FirstJson.FastPathAgrees` | sql/control_plane.sql:2642-2649 | whenever the whole-text path succeeds the scan returns the same |
| `FirstJson.ObjectCloses` | sql/control_plane.sql:2657-2686 | the brace found to close a printed object is its last character, whatever follows |
| `FirstJson.ScanReturnsAPiece` | sql/control_plane.sql:2674-2680 | what is returned is the cast of a piece of the text between an opening and a closing brace |
| `FirstJson.UnclosedBraceHides` | sql/control_plane.sql:2650-2688 | behind an opening brace that is never closed every printed object is hidden, and that text is not of that kind |
| `FirstJson.HiddenSample` | sql/control_plane.sql:2650-2688 | the result for `{ {"a":1}` is null |
| `Utf8.DecodeEncoded` | src/sql_parser.rs:90-96 | decoding the first character gives back what was encoded, whatever follows |
| `Tokens.ReadTokenBytes` | src/sql_parser.rs:62-99 | the byte loop is the specified reader, for every text |
| `Tokens.PrintedTokenIsReadBack` | src/sql_parser.rs:46-99 | null, empty and every other string survive printing and reading, and exactly the printed length is consumed |
| `Tokens.ReadBackExactlyWhenEscaped` | src/sql_parser.rs:71-88 | a printed name is read back if and only if every delimiter in it was escaped |
| `Tokens.BracketBody` | src/sql_parser.rs:102-143 | node_body and paren_body return the text before the first unmatched, unescaped closer |
| `Tokens.BodyIsExactlyBalanced` | src/sql_parser.rs:102-143 | the body before a closer is returned exactly when that body is escape-balanced |
| `Tokens.QuotedStrings` | src/sql_parser.rs:151-179 | the nested loops are the specified reader of quoted strings |
| `Tokens.QuotedRoundTrip` | src/sql_parser.rs:151-179 | a printed string is read back, and what follows is read after it |
| `DumpReader.AnalyzeDump` | src/sql_parser.rs:195-275 | the four search loops and the flags make the specified report; an empty dump is unparseable |
| `DumpReport.AnalyzeMissesNothing` | src/sql_parser.rs:195-275 | every CTE name, function and statement of a printed tree and one entry per named range variable are reported, in order, the range variables as they are unless misread; writing trees are reported as writing; select only for one select |
| `DumpProperties.RelationsAreExact` | src/sql_parser.rs:212-225 | unless a bare name ends in `{RANGEVAR` the relations are exactly those read from the range variables, in order, whatever the literals contain; where names do not start with a colon they are the tree's own if and only if no value before a name or schema ends in its label |
| `DumpProperties.NamesAreExact` | src/sql_parser.rs:227-252 | unless a bare name ends in `:ctename` the CTE names are exact; unless one that is an item of a list ends in `:funcname` the functions are, the last string of each list as the name and the one before it as the schema |
| `DumpStatements.StatementsAreExact` | src/sql_parser.rs:201-211 | for every tree: the count is exact if and only if no `{RAWSTMT` inside a name or string has a statement to come before its node ends; then select is reported if and only if there is exactly one |
| `DumpStatements.ScriptsAreExact` | src/sql_parser.rs:201-211 | for every list of statements that hold no others, whatever its names and literals contain, the count is exact and select is reported if and only if it is one select |
| `DumpReport.MarkMisleads` | src/sql_parser.rs:201-211 | a string in front of such a list is counted as a statement if and only if it contains `{RAWSTMT` |
| `DumpReport.WritesAreExact` | src/sql_parser.rs:254-259 | for every tree: it is reported as writing if and only if it is writing or one of its names, strings or tags looks like it |
| `DumpReport.LiteralMisleads` | src/sql_parser.rs:254-259 | a query of one string literal is always reported as one select, and as writing if and only if the literal contains one of the four tags |
| `DumpReport.FeignedSample` | src/sql_parser.rs:254-259 | `SELECT '{INSERTSTMT'` is reported as writing |
| `DumpProperties.ColonMisleads` | src/sql_parser.rs:183-187 | for a query of one relation and all names: what is reported, and that it is the relation alone if and only if its schema's name ends neither in `{RANGEVAR` nor, unless the relation has that name, in `:relname` |
| `DumpProperties.MisledSample` | src/sql_parser.rs:183-187 | relation `r` of schema `a:relname` is reported as `:relname`, and of schema `a{RANGEVAR` twice |
| `DumpProperties.OwnValueExactly` | src/sql_parser.rs:183-187 | the value read is the node's own if and only if no earlier value ends in a colon and the field's name, or it happens to be the label read instead |
| `DumpProperties.FieldOfNode` | src/sql_parser.rs:181-187 | for every node with only leaves before the field: its own value, or, if an earlier value ends in a colon and the field's name, the label after that value |
| `DumpCorrectness.FindsAll` | src/sql_parser.rs:195-275 | a search that finds what it should at each node and field finds, in order, all that the fold over the tree collects |
| `DumpCorrectness.FindsExactly` | src/sql_parser.rs:195-275 | and nothing else, whatever the strings contain, when no bare name can be taken for the label searched for |
| `Worker.Loop.Tick` | src/runtime_worker.rs:339-513 | one round keeps the counter exact and within capacity, under any behaviour of the pool; harvests everything that was ready; backs off within its bounds |
| `Worker.Loop.Harvest` | src/runtime_worker.rs:352-373 | draining ends, loses nothing, and the saturating subtraction never clips |
| `Worker.Loop.ClaimStage` | src/runtime_worker.rs:387-402 | a stage takes as many claims as there is room for, and sends, once each, the well-formed ones up to the first closed channel |
| `Worker.Loop.ClaimAll` | src/runtime_worker.rs:387-495 | the four stages, in order, share the capacity that is left, and send exactly their jobs |
| `Worker.JobsAreTheClaims` | src/runtime_worker.rs:387-402 | a stage's jobs are the well-formed claims, with its own source |
| `Worker.Loop.PoolRuns` | src/outbound.rs:592-627 | whatever the threads do, each job is in one place, once |
| `Worker.Loop.HarvestedAtMostOnce` | src/outbound.rs:592-627 | no job is harvested more often than sent; when nothing is under way all are harvested |
| `Worker.Loop.AtMostEight` | src/runtime_worker.rs:332-337 | never more than eight requests are under way, at most four of them on threads |
| `RateLimit.RateWindows.RateLimited` | src/web.rs:90-117 | the decision on the pruned lists is the one the full history gives; no address ever leaves the map |
| `RateLimit.RateWindows.AuthFailuresExceeded` | src/web.rs:119-125 | the lockout counts every failure of the last five minutes |
| `RateLimit.RateWindows.RecordAuthFailure` | src/web.rs:127-130 | a failure is added to the history and nothing else changes |
| `RateLimit.WindowBound` | src/web.rs:85-110 | no interval of the window's length, wherever placed, has more than limit accepted hits of one address |
| `RateLimit.RateWindows.NoBurst` | src/web.rs:114-117 | no minute, wherever it starts, has more than 120 accepted requests of one address |
| `RateLimit.StaleAddressKeepsItsList` | src/web.rs:103-108 | an example of an address whose hits have all expired and that keeps its list |
| `RateLimit.RateWindows.ListIsRecentExactly` | src/web.rs:103-108 | every listed address has a hit in the window if and only if every address ever accepted has |
| `DollarQuote.Quote` | src/function_exec.rs:60-71 | the loop ends with the first tag whose delimiter does not occur in the body |
| `DollarQuote.EndIsFirst` | src/function_exec.rs:54-59 | the lexer ends a quoted text at the first occurrence of its delimiter |
| `DollarQuote.QuoteRoundTrip` | src/function_exec.rs:60-71 | the lexer recovers newline, body, newline verbatim, for every body and every tail |

## Left out

- Policies are constant during a run; whether an agent is active is read afresh by each transaction.
- Every agent has a policy, as the trigger that creates one ensures; fn_next_step is taken to raise only after its budget check.
- Transactions are atomic and run one after the other; row locks and SKIP LOCKED only choose which rows a transaction sees and are not modelled.
- Validation inside fn_submit_result (permissions, URL, SQL and argument checks) is collapsed: a branch that only logs an error is `Refused`, one that only logs what it did is `Noted`, a failing cast is `Raises`.
- Row ids are positions, so rows are never deleted; created_at order is insertion order.
- Full progress is not claimed: two agents with a cap of one can hold each other's slot while they wait for children.
- A terminal task may keep pending function or procedure calls, or a call held back by an expired or rejected approval; a queued one is never claimed, and nothing more is stated about them.
- The OAuth, embedding and provider-probe queues, builds of functions and procedures, and garbage collection of memories: the same shape without a task, or no protocol at all.
- Prompt text: only which log rows are visible, whether a compaction starts and which model is chosen.
- Schedules: when one is due, max_runs and ends_at, its interval, its goal and which agent it is for are inputs; fn_create_schedule and fn_delete_schedule are not modelled: a run starts with its schedules.
- ControlPlane.Instance.TakeAction: permission, URL, SQL and argument checks arrive as `Refused`, `Noted` or `Raises`, because their rules are configuration and text matching.
- ControlPlane.Instance.NextTurn: the exception for a task without a policy (control_plane.sql:4061-4063) is ruled out by the trigger that creates one.
- ControlPlane.Instance.Guard: what the grants, connection, provider and rules say, and whether the request is unchanged, arrive as inputs.
- ControlPlane.Instance.Claim: the filter that skips providers whose OAuth token has expired (control_plane.sql:6345-6351) is not modelled, because tokens and their refresh are not.
- Runs.QueuedCallIsNotStranded: a call to such a provider is not claimable until the token is refreshed.
- Runs.DispatchNeverAborts: the uuid and boolean casts in the INSERT (control_plane.sql:6298-6308), which no exception block surrounds, are taken not to raise.
- Compaction: expiry and eviction of the compactor's memories, and what the summary text says.
- FirstJson: whether a text is JSON is the cast's business; it is assumed to accept only JSON texts and to ignore white space after an object.
- NodeDump: the printer is described by the shapes the reader relies on; PostgreSQL's own printer is not part of this model. It is assumed to escape every delimiter of a name or string, the white space among them including form feed and carriage return, every backslash, and every quote inside a quoted string.
- Worker: pool threads do not panic, and the dashboard side of the loop and the SQL, function and procedure pumps are inputs.
- RateLimit: time is whole seconds on a clock that never goes back.
- Row security, grants, SET ROLE, encryption, transports, routing and the user interface.
