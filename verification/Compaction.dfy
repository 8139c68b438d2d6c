/** Folding the older part of a long conversation into a summary: when a compaction is started, which
    log rows it is given, and when those rows leave the window the model sees.

    The model follows one target session. Its root-level log rows are identified by their position;
    of a row only its time matters here. */
module Compaction {
  import opened Tables

  /** One compaction of the session: a session of the compactor whose goal names the target, and the
      task that carries the cutoff. `carried` are the rows behind the previous summary it was given.
      `base` and `seen` are history: the cutoff and the number of rows when it was started. */
  datatype Job = Job(
    cutoff: int,
    turns: set<nat>,
    carried: set<nat>,
    taskLive: bool,
    sessionOpen: bool,
    landed: bool,
    base: Option<int>,
    seen: nat)

  /** `summary` are the rows behind the newest memory the compactor has written about the session. */
  datatype Conversation = Conversation(
    rows: seq<int>,
    compactedBefore: Option<int>,
    summary: set<nat>,
    jobs: seq<Job>)

  const EMPTY := Conversation([], None, {}, [])

  /** `tagged` is false when the compactor files its memory under another subject. */
  datatype Event =
    | Logged(time: int)
    | Triggered(threshold: int, keep: int, clock: int)
    | Remembered(job: nat, tagged: bool)
    | TaskEnded(job: nat)
    | SessionClosed(job: nat)
    | Continued(job: nat)

  predicate InWindow(time: int, from: Option<int>) {
    from.None? || time >= from.value
  }

  function Window(rows: seq<int>, from: Option<int>): (w: seq<int>)
    ensures forall x :: x in w ==> x in rows && InWindow(x, from)
  {
    if rows == [] then []
    else
      var n := |rows| - 1;
      Window(rows[..n], from) + (if InWindow(rows[n], from) then [rows[n]] else [])
  }

  /** `ORDER BY created_at DESC` */
  function Insert(x: int, s: seq<int>): seq<int> {
    if s == [] || x >= s[0] then [x] + s else [s[0]] + Insert(x, s[1..])
  }

  function NewestFirst(w: seq<int>): seq<int> {
    if w == [] then [] else Insert(w[|w| - 1], NewestFirst(w[..|w| - 1]))
  }

  /** `OFFSET n - 1 LIMIT 1` */
  function NthNewest(w: seq<int>, n: nat): Option<int>
    requires n >= 1
  {
    var s := NewestFirst(w);
    if n <= |s| then Some(s[n - 1]) else None
  }

  predicate SomeOpen(jobs: seq<Job>) {
    exists j :: 0 <= j < |jobs| && jobs[j].sessionOpen
  }

  /** The rows handed over as `turns`. */
  function Turns(rows: seq<int>, from: Option<int>, cutoff: int): set<nat> {
    set i | 0 <= i < |rows| && InWindow(rows[i], from) && rows[i] < cutoff
  }

  function CutoffOf(c: Conversation, keep: int, clock: int): Option<int> {
    if keep <= 0 then Some(clock) else NthNewest(Window(c.rows, c.compactedBefore), keep)
  }

  function NewJob(c: Conversation, cut: int, carried: set<nat>): Job {
    Job(cut, Turns(c.rows, c.compactedBefore, cut), carried, true, true, false, c.compactedBefore, |c.rows|)
  }

  /** `maybe_trigger_compaction`, once the compactor is found to be active and configured. */
  function Trigger(c: Conversation, threshold: int, keep: int, clock: int): Conversation {
    var cut := CutoffOf(c, keep, clock);
    if |Window(c.rows, c.compactedBefore)| <= threshold || SomeOpen(c.jobs) || cut.None? then c
    else
      var carried := if c.compactedBefore.Some? then c.summary else {};
      c.(jobs := c.jobs + [NewJob(c, cut.value, carried)])
  }

  /** The compactor's `remember`, which only a running task can make. */
  function Remember(c: Conversation, j: nat, tagged: bool): Conversation {
    if j >= |c.jobs| || !c.jobs[j].taskLive then c
    else
      c.(compactedBefore := Some(c.jobs[j].cutoff),
         summary := if tagged then c.jobs[j].carried + c.jobs[j].turns else c.summary,
         jobs := c.jobs[j := c.jobs[j].(landed := true)])
  }

  function Step(c: Conversation, e: Event): Conversation {
    match e
    case Logged(time) => c.(rows := c.rows + [time])
    case Triggered(threshold, keep, clock) => Trigger(c, threshold, keep, clock)
    case Remembered(j, tagged) => Remember(c, j, tagged)
    case TaskEnded(j) => if j < |c.jobs| then c.(jobs := c.jobs[j := c.jobs[j].(taskLive := false)]) else c
    case SessionClosed(j) =>
      if j < |c.jobs| && !c.jobs[j].taskLive then c.(jobs := c.jobs[j := c.jobs[j].(sessionOpen := false)]) else c
    case Continued(j) =>
      if j < |c.jobs| && !c.jobs[j].taskLive then c.(jobs := c.jobs[j := c.jobs[j].(sessionOpen := true)]) else c
  }

  function Replay(events: seq<Event>): Conversation {
    if events == [] then EMPTY else Step(Replay(events[..|events| - 1]), events[|events| - 1])
  }

  // ---------------------------------------------------------------------------------------------
  // The cutoff
  // ---------------------------------------------------------------------------------------------

  ghost predicate Descending(s: seq<int>) {
    forall i, j :: 0 <= i < j < |s| ==> s[i] >= s[j]
  }

  lemma {:induction false} InsertKeeps(x: int, s: seq<int>)
    ensures multiset(Insert(x, s)) == multiset(s) + multiset{x}
  {
    if s != [] && x < s[0] {
      InsertKeeps(x, s[1..]);
      assert s == [s[0]] + s[1..];
    }
  }

  lemma {:induction false} InsertSorts(x: int, s: seq<int>)
    requires Descending(s)
    ensures Descending(Insert(x, s)) && Insert(x, s) != [] && Insert(x, s)[0] == if s == [] || x >= s[0] then x else s[0]
  {
    if s != [] && x < s[0] {
      InsertSorts(x, s[1..]);
    }
  }

  lemma {:induction false} NewestFirstSorts(w: seq<int>)
    ensures Descending(NewestFirst(w)) && multiset(NewestFirst(w)) == multiset(w)
  {
    hide Insert, Descending;
    if w == [] {
      assert NewestFirst(w) == [];
      NothingDescends();
    } else {
      var n := |w| - 1;
      NewestFirstSorts(w[..n]);
      InsertSorts(w[n], NewestFirst(w[..n]));
      InsertKeeps(w[n], NewestFirst(w[..n]));
      assert w == w[..n] + [w[n]];
    }
  }

  lemma NothingDescends()
    ensures Descending([])
  {
  }

  /** The cutoff is the time of one of the rows in the window. */
  lemma NthNewestIsARow(rows: seq<int>, from: Option<int>, n: nat)
    requires n >= 1 && NthNewest(Window(rows, from), n).Some?
    ensures var cut := NthNewest(Window(rows, from), n).value;
            InWindow(cut, from) && exists i :: 0 <= i < |rows| && rows[i] == cut
  {
    var w := Window(rows, from);
    NewestFirstSorts(w);
    var cut := NthNewest(w, n).value;
    assert NewestFirst(w)[n - 1] in multiset(NewestFirst(w));
    assert cut in w;
  }

  /** The rows in the window shown to the model. */
  function Visible(c: Conversation): set<nat> {
    VisibleOf(c.rows, c.compactedBefore)
  }

  function VisibleOf(rows: seq<int>, from: Option<int>): set<nat> {
    set i | 0 <= i < |rows| && InWindow(rows[i], from)
  }

  lemma VisibleStep(rows: seq<int>, last: int, from: Option<int>)
    ensures VisibleOf(rows + [last], from) == VisibleOf(rows, from) + (if InWindow(last, from) then {|rows|} else {})
    ensures |rows| !in VisibleOf(rows, from)
  {
    hide InWindow;
  }

  lemma {:induction false} WindowSize(rows: seq<int>, from: Option<int>)
    ensures |Window(rows, from)| == |VisibleOf(rows, from)|
  {
    if rows == [] {
      assert VisibleOf(rows, from) == {};
    } else {
      var n := |rows| - 1;
      WindowSize(rows[..n], from);
      VisibleStep(rows[..n], rows[n], from);
      assert rows == rows[..n] + [rows[n]];
      hide VisibleOf, InWindow;
    }
  }

  /** A compaction starts exactly when more rows than the threshold are visible, none is open, and there
      are as many rows as it is to keep. */
  lemma TriggersExactly(c: Conversation, threshold: int, keep: int, clock: int)
    ensures var d := Trigger(c, threshold, keep, clock);
            if |Visible(c)| > threshold && keep <= |Visible(c)| && forall j :: 0 <= j < |c.jobs| ==> !c.jobs[j].sessionOpen
            then |d.jobs| == |c.jobs| + 1 && d == c.(jobs := d.jobs) && c.jobs <= d.jobs
                 && d.jobs[|c.jobs|].taskLive && d.jobs[|c.jobs|].sessionOpen && !d.jobs[|c.jobs|].landed
            else d == c
  {
    WindowSize(c.rows, c.compactedBefore);
    var w := Window(c.rows, c.compactedBefore);
    NewestFirstSorts(w);
    SameSize(NewestFirst(w), w);
  }

  lemma SameSize(a: seq<int>, b: seq<int>)
    requires multiset(a) == multiset(b)
    ensures |a| == |b|
  {
    assert |multiset(a)| == |a| && |multiset(b)| == |b|;
  }

  // ---------------------------------------------------------------------------------------------
  // The invariant
  // ---------------------------------------------------------------------------------------------

  ghost predicate InOrder(rows: seq<int>) {
    forall i, j :: 0 <= i <= j < |rows| ==> rows[i] <= rows[j]
  }

  /** Still in the raw window shown to the model. */
  predicate Raw(c: Conversation, i: nat) {
    i < |c.rows| && InWindow(c.rows[i], c.compactedBefore)
  }

  predicate InLanded(jobs: seq<Job>, i: nat) {
    exists j :: 0 <= j < |jobs| && jobs[j].landed && i in jobs[j].turns
  }

  /** Every row is still raw or was in the turns of a compaction that landed. */
  ghost predicate Covered(c: Conversation) {
    forall i :: 0 <= i < |c.rows| ==> Raw(c, i) || InLanded(c.jobs, i)
  }

  /** Every row is still raw or is behind the newest summary. */
  ghost predicate Summarized(c: Conversation) {
    forall i :: 0 <= i < |c.rows| ==> Raw(c, i) || i in c.summary
  }

  predicate NotAfter(a: Option<int>, b: Option<int>) {
    a.None? || (b.Some? && a.value <= b.value)
  }

  /** What a compaction under way relies on: nobody else has moved the cutoff since it started, and it
      was given every row between the two cutoffs. */
  ghost predicate JobOk(c: Conversation, job: Job) {
    && job.sessionOpen
    && job.seen <= |c.rows|
    && (c.compactedBefore == (if job.landed then Some(job.cutoff) else job.base))
    && NotAfter(job.base, Some(job.cutoff))
    && job.turns == Turns(c.rows[..job.seen], job.base, job.cutoff)
    && (exists i :: 0 <= i < job.seen && c.rows[i] == job.cutoff)
  }

  ghost predicate JobsOk(c: Conversation) {
    && (forall j :: 0 <= j < |c.jobs| && c.jobs[j].taskLive ==> JobOk(c, c.jobs[j]))
    && OneTask(c.jobs)
  }

  ghost predicate OneTask(jobs: seq<Job>) {
    forall j, k :: 0 <= j < k < |jobs| ==> !(jobs[j].taskLive && jobs[k].taskLive)
  }

  /** What a compaction carries over from the previous summary is all that its base had cut off. */
  ghost predicate CarriedOk(c: Conversation) {
    forall j :: 0 <= j < |c.jobs| && c.jobs[j].taskLive ==>
      forall i :: 0 <= i < |c.rows| && !InWindow(c.rows[i], c.jobs[j].base) ==> i in c.jobs[j].carried
  }

  ghost predicate CutoffIsARow(c: Conversation) {
    c.compactedBefore.Some? ==> exists i :: 0 <= i < |c.rows| && c.rows[i] == c.compactedBefore.value
  }

  ghost predicate Inv(c: Conversation) {
    JobsOk(c) && Covered(c) && CutoffIsARow(c)
  }

  lemma JobOkFrame(c: Conversation, d: Conversation, job: Job)
    requires JobOk(c, job) && c.rows <= d.rows && d.compactedBefore == c.compactedBefore
    ensures JobOk(d, job)
  {
    assert d.rows[..job.seen] == c.rows[..job.seen];
    var i :| 0 <= i < job.seen && c.rows[i] == job.cutoff;
    assert d.rows[i] == job.cutoff;
  }

  lemma RememberKeeps(c: Conversation, j: nat, tagged: bool)
    requires JobsOk(c) && Covered(c) && InOrder(c.rows) && j < |c.jobs| && c.jobs[j].taskLive
    ensures var d := Remember(c, j, tagged); JobsOk(d) && Covered(d) && NotAfter(c.compactedBefore, d.compactedBefore)
  {
    var d := Remember(c, j, tagged);
    var job := c.jobs[j];
    assert JobOk(c, job);
    assert JobOk(d, d.jobs[j]);
    forall i | 0 <= i < |c.rows| ensures Raw(d, i) || InLanded(d.jobs, i) {
      if InLanded(c.jobs, i) {
        var k :| 0 <= k < |c.jobs| && c.jobs[k].landed && i in c.jobs[k].turns;
        assert d.jobs[k].landed && i in d.jobs[k].turns;
      } else if !Raw(d, i) {
        var m :| 0 <= m < job.seen && c.rows[m] == job.cutoff;
        assert i < job.seen;
        assert d.jobs[j].landed && i in d.jobs[j].turns;
      }
    }
  }

  lemma RememberSummarizes(c: Conversation, j: nat)
    requires JobsOk(c) && InOrder(c.rows) && CarriedOk(c) && j < |c.jobs| && c.jobs[j].taskLive
    ensures Summarized(Remember(c, j, true)) && CarriedOk(Remember(c, j, true))
  {
    var d := Remember(c, j, true);
    var job := c.jobs[j];
    assert JobOk(c, job);
    forall i | 0 <= i < |c.rows| ensures Raw(d, i) || i in d.summary {
      if !Raw(d, i) && InWindow(c.rows[i], job.base) {
        var m :| 0 <= m < job.seen && c.rows[m] == job.cutoff;
        assert i < job.seen;
      }
    }
  }

  lemma TriggerKeeps(c: Conversation, threshold: int, keep: int, clock: int)
    requires JobsOk(c) && Covered(c) && keep >= 1
    ensures JobsOk(Trigger(c, threshold, keep, clock)) && Covered(Trigger(c, threshold, keep, clock))
  {
    var d := Trigger(c, threshold, keep, clock);
    if d != c {
      hide JobOk, JobsOk, Covered, NthNewest, Window, Turns;
      var carried := if c.compactedBefore.Some? then c.summary else {};
      var job := NewJob(c, CutoffOf(c, keep, clock).value, carried);
      assert d == c.(jobs := c.jobs + [job]);
      NewJobOk(c, keep, carried);
      AddJobKeeps(c, job);
    }
  }

  lemma NewJobOk(c: Conversation, keep: int, carried: set<nat>)
    requires keep >= 1 && NthNewest(Window(c.rows, c.compactedBefore), keep).Some?
    ensures var job := NewJob(c, NthNewest(Window(c.rows, c.compactedBefore), keep).value, carried);
            JobOk(c.(jobs := c.jobs + [job]), job)
  {
    hide NthNewest, Window, Turns;
    NthNewestIsARow(c.rows, c.compactedBefore, keep);
    assert c.rows[..|c.rows|] == c.rows;
  }

  /** A new job where no other is open. */
  lemma AddJobKeeps(c: Conversation, job: Job)
    requires JobsOk(c) && Covered(c) && !SomeOpen(c.jobs)
    requires JobOk(c.(jobs := c.jobs + [job]), job)
    ensures JobsOk(c.(jobs := c.jobs + [job])) && Covered(c.(jobs := c.jobs + [job]))
  {
    var d := c.(jobs := c.jobs + [job]);
    forall j | 0 <= j < |c.jobs| ensures !d.jobs[j].taskLive {
      assert d.jobs[j] == c.jobs[j];
      assert c.jobs[j].taskLive ==> JobOk(c, c.jobs[j]);
    }
    hide JobOk;
    forall i | 0 <= i < |c.rows| && InLanded(c.jobs, i) ensures InLanded(d.jobs, i) {
      var k :| 0 <= k < |c.jobs| && c.jobs[k].landed && i in c.jobs[k].turns;
      assert d.jobs[k] == c.jobs[k];
    }
  }

  lemma LogKeeps(c: Conversation, time: int)
    requires JobsOk(c) && Covered(c) && InOrder(c.rows + [time])
    requires CutoffIsARow(c)
    ensures JobsOk(Step(c, Logged(time))) && Covered(Step(c, Logged(time)))
  {
    var d := Step(c, Logged(time));
    forall j | 0 <= j < |c.jobs| && c.jobs[j].taskLive ensures JobOk(d, d.jobs[j]) {
      JobOkFrame(c, d, c.jobs[j]);
    }
    if c.compactedBefore.Some? {
      var m :| 0 <= m < |c.rows| && c.rows[m] == c.compactedBefore.value;
      assert d.rows[m] == c.rows[m] && d.rows[|c.rows|] == time;
    }
    forall i | 0 <= i < |d.rows| ensures Raw(d, i) || InLanded(d.jobs, i) {
      if i < |c.rows| {
        assert d.rows[i] == c.rows[i];
        assert Raw(c, i) || InLanded(c.jobs, i);
      }
    }
  }

  /** Ending a task or closing or reopening a session moves no cutoff. */
  lemma JobFlagsKeep(c: Conversation, j: nat, job: Job)
    requires Inv(c) && j < |c.jobs|
    requires job == c.jobs[j].(taskLive := false) || (!c.jobs[j].taskLive && exists b :: job == c.jobs[j].(sessionOpen := b))
    ensures Inv(c.(jobs := c.jobs[j := job]))
  {
    var d := c.(jobs := c.jobs[j := job]);
    forall i | 0 <= i < |c.rows| ensures Raw(d, i) || InLanded(d.jobs, i) {
      assert Raw(c, i) || InLanded(c.jobs, i);
      if k :| 0 <= k < |c.jobs| && c.jobs[k].landed && i in c.jobs[k].turns {
        assert d.jobs[k].landed && i in d.jobs[k].turns;
      }
    }
    forall k | 0 <= k < |d.jobs| && d.jobs[k].taskLive ensures JobOk(d, d.jobs[k]) {
      assert d.jobs[k] == c.jobs[k];
      JobOkFrame(c, d, c.jobs[k]);
    }
  }

  lemma StepKeeps(c: Conversation, e: Event)
    requires Inv(c) && InOrder(Step(c, e).rows) && (e.Triggered? ==> e.keep >= 1)
    ensures Inv(Step(c, e)) && NotAfter(c.compactedBefore, Step(c, e).compactedBefore)
  {
    match e
    case Logged(time) =>
      LogKeeps(c, time);
      if c.compactedBefore.Some? {
        var i :| 0 <= i < |c.rows| && c.rows[i] == c.compactedBefore.value;
        assert Step(c, e).rows[i] == c.rows[i];
      }
    case Triggered(threshold, keep, clock) => TriggerKeeps(c, threshold, keep, clock);
    case Remembered(j, tagged) =>
      if j < |c.jobs| && c.jobs[j].taskLive {
        RememberKeeps(c, j, tagged);
        assert JobOk(c, c.jobs[j]);
      }
    case TaskEnded(j) => if j < |c.jobs| { JobFlagsKeep(c, j, c.jobs[j].(taskLive := false)); }
    case SessionClosed(j) =>
      if j < |c.jobs| && !c.jobs[j].taskLive { JobFlagsKeep(c, j, c.jobs[j].(sessionOpen := false)); }
    case Continued(j) =>
      if j < |c.jobs| && !c.jobs[j].taskLive { JobFlagsKeep(c, j, c.jobs[j].(sessionOpen := true)); }
  }

  // ---------------------------------------------------------------------------------------------
  // Every run
  // ---------------------------------------------------------------------------------------------

  ghost predicate KeepsRecent(events: seq<Event>) {
    forall k :: 0 <= k < |events| && events[k].Triggered? ==> events[k].keep >= 1
  }

  lemma RowsGrow(c: Conversation, e: Event)
    ensures c.rows <= Step(c, e).rows
  {
  }

  lemma {:induction false} ReplayInv(events: seq<Event>)
    requires KeepsRecent(events) && InOrder(Replay(events).rows)
    ensures Inv(Replay(events))
  {
    hide Inv, Step;
    if events == [] {
      EmptyInv();
    } else {
      var n := |events| - 1;
      RowsGrow(Replay(events[..n]), events[n]);
      ReplayInv(events[..n]);
      StepKeeps(Replay(events[..n]), events[n]);
    }
  }

  lemma EmptyInv()
    ensures Inv(EMPTY)
  {
  }

  /** At every moment each root-level row of the session is still shown to the model or was handed to a
      compaction whose summary has landed. */
  lemma NoRowIsLost(events: seq<Event>, i: nat)
    requires KeepsRecent(events) && InOrder(Replay(events).rows) && i < |Replay(events).rows|
    ensures Raw(Replay(events), i) || InLanded(Replay(events).jobs, i)
  {
    ReplayInv(events);
    assert Covered(Replay(events));
  }

  // ---------------------------------------------------------------------------------------------
  // Every run, whatever the times
  // ---------------------------------------------------------------------------------------------

  /** What holds however log rows are stamped and whatever is kept: the running compaction is the last
      one started, it was given every row between its two cutoffs, and nothing logged since. */
  ghost predicate Steady(c: Conversation) {
    && (forall j :: 0 <= j < |c.jobs| && c.jobs[j].taskLive ==> j == |c.jobs| - 1 && c.jobs[j].sessionOpen && Given(c, c.jobs[j]))
    && (forall j :: 0 <= j < |c.jobs| ==> c.jobs[j].seen <= |c.rows| && Bounded(c.jobs[j]))
    && (forall j, k :: 0 <= j < k < |c.jobs| ==> c.jobs[j].seen <= c.jobs[k].seen)
  }

  ghost predicate Given(c: Conversation, job: Job) {
    && job.seen <= |c.rows|
    && c.compactedBefore == (if job.landed then Some(job.cutoff) else job.base)
    && job.turns == Turns(c.rows[..job.seen], job.base, job.cutoff)
  }

  ghost predicate Bounded(job: Job) {
    forall i :: i in job.turns ==> i < job.seen
  }

  lemma SteadyStep(c: Conversation, e: Event)
    requires Steady(c)
    ensures Steady(Step(c, e))
  {
    hide Trigger, Steady;
    match e
    case Logged(time) => SteadyLog(c, time);
    case Triggered(threshold, keep, clock) => SteadyTrigger(c, threshold, keep, clock);
    case Remembered(j, tagged) => SteadyRemember(c, j, tagged);
    case TaskEnded(j) => SteadyFlags(c, j, e);
    case SessionClosed(j) => SteadyFlags(c, j, e);
    case Continued(j) => SteadyFlags(c, j, e);
  }

  lemma SteadyLog(c: Conversation, time: int)
    requires Steady(c)
    ensures Steady(c.(rows := c.rows + [time]))
  {
    var d := c.(rows := c.rows + [time]);
    forall j | 0 <= j < |c.jobs| ensures d.rows[..c.jobs[j].seen] == c.rows[..c.jobs[j].seen] { }
  }

  lemma SteadyTrigger(c: Conversation, threshold: int, keep: int, clock: int)
    requires Steady(c)
    ensures Steady(Trigger(c, threshold, keep, clock))
  {
    assert c.rows[..|c.rows|] == c.rows;
  }

  lemma SteadyRemember(c: Conversation, j: nat, tagged: bool)
    requires Steady(c)
    ensures Steady(Remember(c, j, tagged))
  {
  }

  lemma SteadyFlags(c: Conversation, j: nat, e: Event)
    requires Steady(c) && (e == TaskEnded(j) || e == SessionClosed(j) || e == Continued(j))
    ensures Steady(Step(c, e))
  {
  }

  lemma {:induction false} ReplaySteady(events: seq<Event>)
    ensures Steady(Replay(events))
  {
    hide Steady, Step;
    if events == [] {
      EmptySteady();
    } else {
      ReplaySteady(events[..|events| - 1]);
      SteadyStep(Replay(events[..|events| - 1]), events[|events| - 1]);
    }
  }

  lemma EmptySteady()
    ensures Steady(EMPTY)
  {
  }

  /** What a compaction was given is exactly what leaves the window when it lands: no row is both summed up
      and shown, and none that it saw is neither. */
  lemma LandingMovesTurns(c: Conversation, j: nat, tagged: bool, i: nat)
    requires Steady(c) && j < |c.jobs| && c.jobs[j].taskLive && i < c.jobs[j].seen
    ensures i < |c.rows|
    ensures i in c.jobs[j].turns <==> InWindow(c.rows[i], c.jobs[j].base) && !Raw(Remember(c, j, tagged), i)
  {
    assert Given(c, c.jobs[j]);
    assert c.rows[..c.jobs[j].seen][i] == c.rows[i];
  }

  /** A row is logged into the window, and a compaction lands only if nothing logged since it started is
      stamped before its cutoff. */
  predicate Timely(c: Conversation, e: Event) {
    match e
    case Logged(time) => InWindow(time, c.compactedBefore)
    case Remembered(j, _) =>
      j < |c.jobs| && c.jobs[j].taskLive ==>
        forall i :: c.jobs[j].seen <= i < |c.rows| ==> c.rows[i] >= c.jobs[j].cutoff
    case _ => true
  }

  lemma LandedStays(c: Conversation, d: Conversation, i: nat)
    requires |c.jobs| <= |d.jobs|
    requires forall k :: 0 <= k < |c.jobs| ==> d.jobs[k].turns == c.jobs[k].turns && (c.jobs[k].landed ==> d.jobs[k].landed)
    ensures InLanded(c.jobs, i) ==> InLanded(d.jobs, i)
  {
    if k :| 0 <= k < |c.jobs| && c.jobs[k].landed && i in c.jobs[k].turns {
      assert d.jobs[k].landed && i in d.jobs[k].turns;
    }
  }

  lemma LoggedCovers(c: Conversation, time: int)
    requires Steady(c) && Covered(c)
    ensures Covered(Step(c, Logged(time))) <==> InWindow(time, c.compactedBefore)
  {
    var d := Step(c, Logged(time));
    var n := |c.rows|;
    assert d.rows[n] == time && !InLanded(d.jobs, n);
    assert Raw(d, n) <==> InWindow(time, c.compactedBefore);
    forall i | 0 <= i < n ensures Raw(d, i) || InLanded(d.jobs, i) {
      assert d.rows[i] == c.rows[i];
      assert Raw(c, i) || InLanded(c.jobs, i);
    }
  }

  /** A compaction that lands in time loses nothing. */
  lemma TimelyLandingCovers(c: Conversation, j: nat, tagged: bool)
    requires Steady(c) && Covered(c) && j < |c.jobs| && c.jobs[j].taskLive && Timely(c, Remembered(j, tagged))
    ensures Covered(Remember(c, j, tagged))
  {
    var d := Remember(c, j, tagged);
    var job := c.jobs[j];
    assert Given(c, job);
    forall i | 0 <= i < |c.rows| ensures Raw(d, i) || InLanded(d.jobs, i) {
      LandedStays(c, d, i);
      assert Raw(c, i) || InLanded(c.jobs, i);
      if !Raw(d, i) && InWindow(c.rows[i], job.base) {
        assert i < job.seen && c.rows[..job.seen][i] == c.rows[i];
        assert d.jobs[j].landed && i in d.jobs[j].turns;
      }
    }
  }

  /** One that lands too late loses the rows it never saw. */
  lemma LateLandingLoses(c: Conversation, j: nat, tagged: bool, i: nat)
    requires Steady(c) && j < |c.jobs| && c.jobs[j].taskLive && c.jobs[j].seen <= i < |c.rows| && c.rows[i] < c.jobs[j].cutoff
    ensures !Covered(Remember(c, j, tagged))
  {
    var d := Remember(c, j, tagged);
    assert !Raw(d, i);
    forall k | 0 <= k < |d.jobs| ensures i !in d.jobs[k].turns {
      assert d.jobs[k].turns == c.jobs[k].turns && Bounded(c.jobs[k]);
      assert k < j ==> c.jobs[k].seen <= c.jobs[j].seen;
    }
  }

  /** One event loses nothing exactly when it is timely. */
  lemma CoveredStep(c: Conversation, e: Event)
    requires Steady(c) && Covered(c)
    ensures Covered(Step(c, e)) <==> Timely(c, e)
  {
    hide Steady;
    var d := Step(c, e);
    if e.Logged? {
      LoggedCovers(c, e.time);
    } else if e.Remembered? && e.job < |c.jobs| && c.jobs[e.job].taskLive {
      if Timely(c, e) {
        TimelyLandingCovers(c, e.job, e.tagged);
      } else {
        var i :| c.jobs[e.job].seen <= i < |c.rows| && c.rows[i] < c.jobs[e.job].cutoff;
        LateLandingLoses(c, e.job, e.tagged, i);
      }
    } else {
      assert d.rows == c.rows && d.compactedBefore == c.compactedBefore;
      forall i | 0 <= i < |c.rows| ensures Raw(d, i) || InLanded(d.jobs, i) {
        LandedStays(c, d, i);
        assert Raw(c, i) || InLanded(c.jobs, i);
      }
    }
  }

  lemma {:induction false} CoveredSoFar(events: seq<Event>, n: nat)
    requires n <= |events| && forall m :: 0 <= m < n ==> Timely(Replay(events[..m]), events[m])
    ensures Covered(Replay(events[..n]))
  {
    if n > 0 {
      hide Timely, Covered, Step, Replay;
      CoveredSoFar(events, n - 1);
      ReplayNext(events, n - 1);
      ReplaySteady(events[..n - 1]);
      CoveredStep(Replay(events[..n - 1]), events[n - 1]);
    }
  }

  /** Whatever is kept and however rows are stamped: no row is ever lost along a run exactly when every
      row was logged into the window of its time and every compaction landed before a row stamped before
      its cutoff was logged. */
  lemma CoverageIsExact(events: seq<Event>)
    ensures (forall n :: 0 <= n <= |events| ==> Covered(Replay(events[..n])))
            <==> (forall n :: 0 <= n < |events| ==> Timely(Replay(events[..n]), events[n]))
  {
    hide Timely, Covered, Step, Replay;
    if forall n :: 0 <= n <= |events| ==> Covered(Replay(events[..n])) {
      forall n | 0 <= n < |events| ensures Timely(Replay(events[..n]), events[n]) {
        ReplayNext(events, n);
        ReplaySteady(events[..n]);
        CoveredStep(Replay(events[..n]), events[n]);
        assert Covered(Replay(events[..n + 1]));
      }
    }
    if forall n :: 0 <= n < |events| ==> Timely(Replay(events[..n]), events[n]) {
      forall n | 0 <= n <= |events| ensures Covered(Replay(events[..n])) {
        CoveredSoFar(events, n);
      }
    }
  }

  /** So even with one recent row kept, a row stamped by a transaction that had to wait can be lost. */
  lemma OutOfOrderRowIsLost() returns (events: seq<Event>)
    ensures KeepsRecent(events) && !Covered(Replay(events))
  {
    hide Step, Replay, Turns, Steady, Covered, Remember;
    var job := Job(5, Turns([5], None, 5), {}, true, true, false, None, 1);
    OutOfOrderSteps(job);
    ReplayNothing();
    events := [];
    ReplayAppend(events, Logged(5));
    events := events + [Logged(5)];
    ReplayAppend(events, Triggered(0, 1, 9));
    events := events + [Triggered(0, 1, 9)];
    ReplayAppend(events, Logged(3));
    events := events + [Logged(3)];
    ReplaySteady(events);
    LateLandingLoses(Replay(events), 0, true, 1);
    ReplayAppend(events, Remembered(0, true));
    RememberedStep(Replay(events), 0, true);
    events := events + [Remembered(0, true)];
  }

  lemma ReplayNothing()
    ensures Replay([]) == EMPTY
  {
  }

  lemma RememberedStep(c: Conversation, j: nat, tagged: bool)
    ensures Step(c, Remembered(j, tagged)) == Remember(c, j, tagged)
  {
  }

  lemma OutOfOrderSteps(job: Job)
    requires job == Job(5, Turns([5], None, 5), {}, true, true, false, None, 1)
    ensures var one := Conversation([5], None, {}, []);
            && Step(EMPTY, Logged(5)) == one
            && Step(one, Triggered(0, 1, 9)) == one.(jobs := [job])
            && Step(one.(jobs := [job]), Logged(3)) == Conversation([5, 3], None, {}, [job])
  {
    hide Window, NewestFirst, Turns;
    OneRowWindow(5);
    assert [5] + [3] == [5, 3];
  }

  /** The cutoff of a compaction under way is not before the one it started from. */
  ghost predicate Rising(c: Conversation) {
    forall j :: 0 <= j < |c.jobs| && c.jobs[j].taskLive ==> NotAfter(c.jobs[j].base, Some(c.jobs[j].cutoff))
  }

  /** A compaction that keeps nothing is not started by a clock that is behind the last cutoff. */
  predicate ClockAhead(c: Conversation, e: Event) {
    e.Triggered? && e.keep <= 0 ==> NotAfter(c.compactedBefore, Some(e.clock))
  }

  lemma RisingStep(c: Conversation, e: Event)
    requires Steady(c) && Rising(c) && ClockAhead(c, e)
    ensures Rising(Step(c, e)) && NotAfter(c.compactedBefore, Step(c, e).compactedBefore)
  {
    hide NthNewest, Window, Turns;
    if e.Triggered? && e.keep >= 1 && NthNewest(Window(c.rows, c.compactedBefore), e.keep).Some? {
      NthNewestIsARow(c.rows, c.compactedBefore, e.keep);
    }
    if e.Remembered? && e.job < |c.jobs| && c.jobs[e.job].taskLive {
      assert Given(c, c.jobs[e.job]);
    }
  }

  lemma {:induction false} ReplayRising(events: seq<Event>, n: nat)
    requires n <= |events| && forall m :: 0 <= m < |events| ==> ClockAhead(Replay(events[..m]), events[m])
    ensures Rising(Replay(events[..n]))
  {
    if n > 0 {
      hide Step, Replay, Steady, ClockAhead;
      ReplayRising(events, n - 1);
      ReplayNext(events, n - 1);
      ReplaySteady(events[..n - 1]);
      RisingStep(Replay(events[..n - 1]), events[n - 1]);
    }
  }

  /** `compacted_before` never decreases along a run, however its rows are stamped; with nothing kept
      the clock must not run behind. */
  lemma {:induction false} CutoffNeverDecreases(events: seq<Event>, m: nat, n: nat)
    requires m <= n <= |events| && forall k :: 0 <= k < |events| ==> ClockAhead(Replay(events[..k]), events[k])
    ensures NotAfter(Replay(events[..m]).compactedBefore, Replay(events[..n]).compactedBefore)
    decreases n
  {
    if m < n {
      hide Step, Replay, Steady, ClockAhead, Rising;
      CutoffNeverDecreases(events, m, n - 1);
      ReplayRising(events, n - 1);
      ReplayNext(events, n - 1);
      ReplaySteady(events[..n - 1]);
      RisingStep(Replay(events[..n - 1]), events[n - 1]);
    }
  }

  ghost predicate AllKeep(events: seq<Event>, keep: int) {
    forall k :: 0 <= k < |events| && events[k].Triggered? ==> events[k].keep == keep
  }

  /** Where rows are stamped in the order they are logged, nothing is lost on every run exactly when the
      compactor keeps at least one recent row. With none kept the cutoff is the wall clock, and a row
      stamped with an earlier transaction time but logged later falls between the turns and the window. */
  lemma KeepingOneIsExact(keep: int)
    ensures (forall events: seq<Event> :: AllKeep(events, keep) && InOrder(Replay(events).rows) ==> Covered(Replay(events)))
            <==> keep >= 1
  {
    hide Replay, Covered;
    if keep >= 1 {
      forall events: seq<Event> | AllKeep(events, keep) && InOrder(Replay(events).rows)
        ensures Covered(Replay(events))
      {
        ReplayInv(events);
      }
    } else {
      var events := LateRowIsLost(keep);
    }
  }

  lemma ReplayAppend(events: seq<Event>, e: Event)
    ensures Replay(events + [e]) == Step(Replay(events), e)
  {
    assert (events + [e])[..|events|] == events;
  }

  lemma LateRowIsLost(keep: int) returns (events: seq<Event>)
    requires keep <= 0
    ensures AllKeep(events, keep) && InOrder(Replay(events).rows) && !Covered(Replay(events))
  {
    LateRowSteps(keep);
    LateRowUncovered(Conversation([1, 2], None, {}, [Job(5, {0}, {}, true, true, false, None, 1)]));
    assert Replay([]) == EMPTY;
    hide Step, Replay, Covered;
    events := [];
    ReplayAppend(events, Logged(1));
    events := events + [Logged(1)];
    ReplayAppend(events, Triggered(0, keep, 5));
    events := events + [Triggered(0, keep, 5)];
    ReplayAppend(events, Logged(2));
    events := events + [Logged(2)];
    ReplayAppend(events, Remembered(0, true));
    events := events + [Remembered(0, true)];
  }

  lemma LateRowSteps(keep: int)
    requires keep <= 0
    ensures var one := Conversation([1], None, {}, []);
            var two := one.(jobs := [Job(5, {0}, {}, true, true, false, None, 1)]);
            && Step(EMPTY, Logged(1)) == one
            && Step(one, Triggered(0, keep, 5)) == two
            && Step(two, Logged(2)) == two.(rows := [1, 2])
  {
    assert Window([1], None) == [1] by { assert [1][..0] == []; }
    assert Turns([1], None, 5) == {0};
  }

  lemma LateRowUncovered(c: Conversation)
    requires c == Conversation([1, 2], None, {}, [Job(5, {0}, {}, true, true, false, None, 1)])
    ensures Step(c, Remembered(0, true)).rows == [1, 2] && !Covered(Step(c, Remembered(0, true)))
  {
    var d := Step(c, Remembered(0, true));
    assert d.compactedBefore == Some(5) && |d.jobs| == 1 && d.jobs[0].turns == {0};
    assert !Raw(d, 1) && !InLanded(d.jobs, 1);
  }

  // ---------------------------------------------------------------------------------------------
  // One compaction at a time
  // ---------------------------------------------------------------------------------------------

  ghost predicate Exclusive(jobs: seq<Job>) {
    OneTask(jobs) && forall j :: 0 <= j < |jobs| && jobs[j].taskLive ==> jobs[j].sessionOpen
  }

  /** Whatever happens, at most one task is compacting the session. */
  lemma {:induction false} OneCompactionTask(events: seq<Event>)
    ensures Exclusive(Replay(events).jobs)
  {
    if events != [] {
      OneCompactionTask(events[..|events| - 1]);
    }
  }

  ghost predicate OneOpen(jobs: seq<Job>) {
    forall j, k :: 0 <= j < k < |jobs| ==> !(jobs[j].sessionOpen && jobs[k].sessionOpen)
  }

  /** Continuing compaction session `j` opens no second one: there is nothing to continue, its own turn
      is in progress, or no other is open. */
  predicate MayContinue(jobs: seq<Job>, j: nat) {
    j >= |jobs| || jobs[j].taskLive || forall k :: 0 <= k < |jobs| && k != j ==> !jobs[k].sessionOpen
  }

  predicate Proper(c: Conversation, e: Event) {
    e.Continued? ==> MayContinue(c.jobs, e.job)
  }

  /** One event leaves at most one compaction session open exactly unless it continues one while another
      is open. */
  lemma OneOpenStep(c: Conversation, e: Event)
    requires OneOpen(c.jobs)
    ensures OneOpen(Step(c, e).jobs) <==> Proper(c, e)
  {
    var d := Step(c, e);
    if e.Continued? && !MayContinue(c.jobs, e.job) {
      var k :| 0 <= k < |c.jobs| && k != e.job && c.jobs[k].sessionOpen;
      assert d.jobs[k].sessionOpen && d.jobs[e.job].sessionOpen;
    }
  }

  lemma {:induction false} OneOpenSoFar(events: seq<Event>, n: nat)
    requires n <= |events| && forall m :: 0 <= m < n ==> Proper(Replay(events[..m]), events[m])
    ensures OneOpen(Replay(events[..n]).jobs)
  {
    if n > 0 {
      OneOpenSoFar(events, n - 1);
      ReplayNext(events, n - 1);
      OneOpenStep(Replay(events[..n - 1]), events[n - 1]);
    }
  }

  lemma ReplayNext(events: seq<Event>, n: nat)
    requires n < |events|
    ensures Replay(events[..n + 1]) == Step(Replay(events[..n]), events[n])
  {
    assert events[..n + 1] == events[..n] + [events[n]];
    ReplayAppend(events[..n], events[n]);
  }

  /** At most one compaction session is open all along a run exactly when no finished one was continued
      while another was open. */
  lemma OneCompactionOpenExactly(events: seq<Event>)
    ensures (forall n :: 0 <= n <= |events| ==> OneOpen(Replay(events[..n]).jobs))
            <==> (forall n :: 0 <= n < |events| ==> Proper(Replay(events[..n]), events[n]))
  {
    hide Replay, OneOpen, Proper, Step;
    if forall n :: 0 <= n <= |events| ==> OneOpen(Replay(events[..n]).jobs) {
      forall n | 0 <= n < |events| ensures Proper(Replay(events[..n]), events[n]) {
        ReplayNext(events, n);
        OneOpenStep(Replay(events[..n]), events[n]);
        assert OneOpen(Replay(events[..n + 1]).jobs);
      }
    }
    if forall n :: 0 <= n < |events| ==> Proper(Replay(events[..n]), events[n]) {
      forall n | 0 <= n <= |events| ensures OneOpen(Replay(events[..n]).jobs) {
        OneOpenSoFar(events, n);
      }
    }
  }

  /** Continuing a finished compaction session while the next one runs leaves two open. */
  lemma ContinuedSessionIsSecondOpen() returns (events: seq<Event>)
    ensures KeepsRecent(events) && InOrder(Replay(events).rows) && !OneOpen(Replay(events).jobs)
  {
    var job := Job(1, Turns([1], None, 1), {}, true, true, false, None, 1);
    SecondOpenSteps(job);
    assert Replay([]) == EMPTY;
    hide Step, Replay, Turns;
    events := [];
    ReplayAppend(events, Logged(1));
    events := events + [Logged(1)];
    ReplayAppend(events, Triggered(0, 1, 1));
    events := events + [Triggered(0, 1, 1)];
    ReplayAppend(events, TaskEnded(0));
    events := events + [TaskEnded(0)];
    ReplayAppend(events, SessionClosed(0));
    events := events + [SessionClosed(0)];
    ReplayAppend(events, Triggered(0, 1, 1));
    events := events + [Triggered(0, 1, 1)];
    ReplayAppend(events, Continued(0));
    events := events + [Continued(0)];
    var jobs := Replay(events).jobs;
    assert jobs[0].sessionOpen && jobs[1].sessionOpen;
  }

  lemma SecondOpenSteps(job: Job)
    requires job == Job(1, Turns([1], None, 1), {}, true, true, false, None, 1)
    ensures var one := Conversation([1], None, {}, []);
            var three := one.(jobs := [job.(taskLive := false)]);
            var four := one.(jobs := [job.(taskLive := false, sessionOpen := false)]);
            var five := one.(jobs := [job.(taskLive := false, sessionOpen := false), job]);
            && Step(EMPTY, Logged(1)) == one
            && Step(one, Triggered(0, 1, 1)) == one.(jobs := [job])
            && Step(one.(jobs := [job]), TaskEnded(0)) == three
            && Step(three, SessionClosed(0)) == four
            && Step(four, Triggered(0, 1, 1)) == five
            && Step(five, Continued(0)) == one.(jobs := [job.(taskLive := false), job])
  {
    OneRowWindow(1);
    hide Window, NewestFirst;
    var four := Conversation([1], None, {}, [job.(taskLive := false, sessionOpen := false)]);
    assert !SomeOpen(four.jobs);
    assert Step(four, Triggered(0, 1, 1)).jobs == four.jobs + [job];
  }

  lemma OneRowWindow(time: int)
    ensures Window([time], None) == [time] && NthNewest([time], 1) == Some(time)
  {
    assert [time][..0] == [];
    assert NewestFirst([time]) == Insert(time, NewestFirst([]));
  }

  // ---------------------------------------------------------------------------------------------
  // The chain of summaries
  // ---------------------------------------------------------------------------------------------

  ghost predicate AllTagged(events: seq<Event>) {
    forall k :: 0 <= k < |events| && events[k].Remembered? ==> events[k].tagged
  }

  lemma StepSummarizes(c: Conversation, e: Event)
    requires Inv(c) && InOrder(Step(c, e).rows) && Summarized(c) && CarriedOk(c)
    requires (e.Triggered? ==> e.keep >= 1) && (e.Remembered? ==> e.tagged)
    ensures Summarized(Step(c, e)) && CarriedOk(Step(c, e))
  {
    var d := Step(c, e);
    match e
    case Logged(time) =>
      if c.compactedBefore.Some? {
        var m :| 0 <= m < |c.rows| && c.rows[m] == c.compactedBefore.value;
        assert d.rows[m] == c.rows[m] && d.rows[|c.rows|] == time;
      }
      forall i | 0 <= i < |c.rows| ensures d.rows[i] == c.rows[i] && (Raw(d, i) || i in d.summary) {
        assert Raw(c, i) || i in c.summary;
      }
      forall j | 0 <= j < |c.jobs| && c.jobs[j].taskLive ensures InWindow(time, c.jobs[j].base) {
        assert JobOk(c, c.jobs[j]);
        var i :| 0 <= i < c.jobs[j].seen && c.rows[i] == c.jobs[j].cutoff;
        assert d.rows[i] == c.rows[i] && d.rows[|c.rows|] == time;
      }
    case Remembered(j, tagged) =>
      if j < |c.jobs| && c.jobs[j].taskLive { RememberSummarizes(c, j); }
    case Triggered(threshold, keep, clock) =>
      forall i | 0 <= i < |c.rows| ensures Raw(d, i) || i in d.summary {
        assert Raw(c, i) || i in c.summary;
      }
    case TaskEnded(j) => assert forall i :: 0 <= i < |c.rows| ==> (Raw(d, i) <==> Raw(c, i));
    case SessionClosed(j) => assert forall i :: 0 <= i < |c.rows| ==> (Raw(d, i) <==> Raw(c, i));
    case Continued(j) => assert forall i :: 0 <= i < |c.rows| ==> (Raw(d, i) <==> Raw(c, i));
  }

  /** If the compactor always files its memory under the session, nothing an earlier summary captured
      is dropped by a later one: each row is raw or behind the newest summary. */
  lemma {:induction false} SummaryChain(events: seq<Event>)
    requires KeepsRecent(events) && AllTagged(events) && InOrder(Replay(events).rows)
    ensures Summarized(Replay(events)) && CarriedOk(Replay(events))
  {
    if events != [] {
      hide Inv, Step, Summarized, CarriedOk;
      var n := |events| - 1;
      RowsGrow(Replay(events[..n]), events[n]);
      SummaryChain(events[..n]);
      ReplayInv(events[..n]);
      StepSummarizes(Replay(events[..n]), events[n]);
    }
  }

  // ---------------------------------------------------------------------------------------------
  // How much stays raw
  // ---------------------------------------------------------------------------------------------

  function AtLeast(v: int): int -> bool {
    (x: int) => x >= v
  }

  function Above(v: int): int -> bool {
    (x: int) => x > v
  }

  lemma {:induction false} CountConcat(a: seq<int>, b: seq<int>, p: int -> bool)
    ensures Count(a + b, p) == Count(a, p) + Count(b, p)
  {
    if b == [] {
      assert a + b == a;
    } else {
      var n := |b| - 1;
      assert (a + b)[..|a + b| - 1] == a + b[..n];
      CountConcat(a, b[..n], p);
    }
  }

  lemma {:induction false} CountInsert(x: int, s: seq<int>, p: int -> bool)
    ensures Count(Insert(x, s), p) == Count(s, p) + (if p(x) then 1 else 0)
  {
    assert Count([x], p) == if p(x) then 1 else 0 by { assert [x][..0] == []; }
    if s == [] || x >= s[0] {
      CountConcat([x], s, p);
    } else {
      CountInsert(x, s[1..], p);
      CountConcat([s[0]], Insert(x, s[1..]), p);
      CountConcat([s[0]], s[1..], p);
      assert s == [s[0]] + s[1..];
    }
  }

  lemma {:induction false} CountNewestFirst(w: seq<int>, p: int -> bool)
    ensures Count(NewestFirst(w), p) == Count(w, p)
  {
    if w != [] {
      CountNewestFirst(w[..|w| - 1], p);
      CountInsert(w[|w| - 1], NewestFirst(w[..|w| - 1]), p);
    }
  }

  lemma {:induction false} CountAll(s: seq<int>, p: int -> bool)
    ensures (forall i :: 0 <= i < |s| ==> p(s[i])) ==> Count(s, p) == |s|
    ensures (forall i :: 0 <= i < |s| ==> !p(s[i])) ==> Count(s, p) == 0
    ensures Count(s, p) <= |s|
  {
    if s != [] {
      CountAll(s[..|s| - 1], p);
    }
  }

  lemma RankAtLeast(s: seq<int>, n: nat)
    requires Descending(s) && 1 <= n <= |s|
    ensures Count(s, AtLeast(s[n - 1])) >= n
  {
    hide Count;
    var v := s[n - 1];
    var head, tail := s[..n], s[n..];
    forall i | 0 <= i < |head| ensures AtLeast(v)(head[i]) { }
    CountAll(head, AtLeast(v));
    hide Descending;
    CountConcat(head, tail, AtLeast(v));
    assert head + tail == s;
  }

  lemma RankAbove(s: seq<int>, n: nat)
    requires Descending(s) && 1 <= n <= |s|
    ensures Count(s, Above(s[n - 1])) < n
  {
    hide Count;
    var v := s[n - 1];
    var head, tail := s[..n - 1], s[n - 1..];
    forall i | 0 <= i < |tail| ensures !Above(v)(tail[i]) { }
    CountAll(tail, Above(v));
    CountAll(head, Above(v));
    hide Descending;
    CountConcat(head, tail, Above(v));
    assert head + tail == s;
  }

  /** Of the rows in the window, at least `n` stay raw behind the cutoff, and fewer than `n` are newer
      than it: a compaction leaves the `n` most recent rows, plus those that share the time of the
      oldest of them. */
  lemma CutoffKeepsTheNewest(w: seq<int>, n: nat)
    requires n >= 1
    ensures NthNewest(w, n).Some? <==> n <= |w|
    ensures n <= |w| ==>
      Count(w, AtLeast(NthNewest(w, n).value)) >= n && Count(w, Above(NthNewest(w, n).value)) < n
  {
    hide Count, Descending;
    var s := NewestFirst(w);
    NewestFirstSorts(w);
    assert |multiset(s)| == |s| && |multiset(w)| == |w|;
    if n <= |w| {
      RankAtLeast(s, n);
      RankAbove(s, n);
      CountNewestFirst(w, AtLeast(s[n - 1]));
      CountNewestFirst(w, Above(s[n - 1]));
    }
  }

  // ---------------------------------------------------------------------------------------------
  // The procedure itself
  // ---------------------------------------------------------------------------------------------

  class Transcript {
    var rows: seq<int>
    var compactedBefore: Option<int>
    var summary: set<nat>
    var jobs: seq<Job>

    function View(): Conversation
      reads this
    {
      Conversation(rows, compactedBefore, summary, jobs)
    }

    constructor ()
      ensures View() == EMPTY
    {
      rows, compactedBefore, summary, jobs := [], None, {}, [];
    }

    method MaybeTrigger(threshold: int, keep: int, clock: int)
      modifies this`jobs
      ensures View() == Trigger(old(View()), threshold, keep, clock)
    {
      hide Window, NewestFirst, Turns;
      var window := CurrentWindow();
      if |window| <= threshold {
        return;
      }
      var i := 0;
      while i < |jobs|
        invariant i <= |jobs| && forall j :: 0 <= j < i ==> !jobs[j].sessionOpen
      {
        if jobs[i].sessionOpen {
          return;
        }
        i := i + 1;
      }
      var cutoff := if keep <= 0 then Some(clock) else NthNewest(window, keep);
      if cutoff.None? {
        return;
      }
      var carried := {};
      if compactedBefore.Some? {
        carried := summary;
      }
      var turns := OlderThan(cutoff.value);
      jobs := jobs + [Job(cutoff.value, turns, carried, true, true, false, compactedBefore, |rows|)];
    }

    method CurrentWindow() returns (window: seq<int>)
      ensures window == Window(rows, compactedBefore)
    {
      window := [];
      var i := 0;
      while i < |rows|
        invariant i <= |rows| && window == Window(rows[..i], compactedBefore)
      {
        assert rows[..i + 1][..i] == rows[..i];
        if InWindow(rows[i], compactedBefore) {
          window := window + [rows[i]];
        }
        i := i + 1;
      }
      assert rows[..i] == rows;
    }

    method OlderThan(cutoff: int) returns (turns: set<nat>)
      ensures turns == Turns(rows, compactedBefore, cutoff)
    {
      turns := {};
      var i := 0;
      while i < |rows|
        invariant i <= |rows| && turns == Turns(rows[..i], compactedBefore, cutoff)
      {
        if InWindow(rows[i], compactedBefore) && rows[i] < cutoff {
          turns := turns + {i};
        }
        i := i + 1;
      }
      assert rows[..i] == rows;
    }

    /** What the model is shown: the rows at or after the cutoff. */
    method RawWindow() returns (shown: seq<nat>)
      ensures forall i: nat :: i in shown <==> Raw(View(), i)
      ensures forall a, b :: 0 <= a < b < |shown| ==> shown[a] < shown[b]
    {
      shown := [];
      var i := 0;
      while i < |rows|
        invariant i <= |rows|
        invariant forall k: nat :: k in shown <==> k < i && Raw(View(), k)
        invariant forall a :: 0 <= a < |shown| ==> shown[a] < i
        invariant forall a, b :: 0 <= a < b < |shown| ==> shown[a] < shown[b]
      {
        if InWindow(rows[i], compactedBefore) {
          shown := shown + [i];
        }
        i := i + 1;
      }
    }

    /** The compactor's memory is stored first; only then do the rows behind it leave the window. */
    method Land(j: nat, tagged: bool)
      modifies this
      ensures View() == Remember(old(View()), j, tagged)
    {
      if j < |jobs| && jobs[j].taskLive {
        if tagged {
          summary := jobs[j].carried + jobs[j].turns;
        }
        compactedBefore := Some(jobs[j].cutoff);
        jobs := jobs[j := jobs[j].(landed := true)];
      }
    }
  }
}
