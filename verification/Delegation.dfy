/** What the delegation forest is worth: bounded depth, no agent twice on a chain, a walk that
    terminates, and nobody waiting for a circle of tasks. */
module Delegation {
  import opened Tables
  import opened Invariant

  /** The tasks from `t` up to its root, following `parent_task_id`. */
  function Ancestors(tasks: seq<Task>, t: TaskId): seq<TaskId>
    requires t < |tasks|
    decreases t
  {
    match tasks[t].parent
    case None => [t]
    case Some(p) => if p < t then [t] + Ancestors(tasks, p) else [t]
  }

  /** Each link of the chain is a `parent_task_id`, and the chain ends at a root. */
  lemma {:induction false} AncestorLinks(cfg: Config, tasks: seq<Task>, t: TaskId)
    requires ForestOk(cfg, tasks) && t < |tasks|
    ensures var chain := Ancestors(tasks, t);
            && |chain| > 0 && chain[0] == t
            && (forall i :: 0 <= i < |chain| ==> chain[i] < |tasks|)
            && (forall i :: 0 <= i < |chain| - 1 ==> tasks[chain[i]].parent == Some(chain[i + 1]))
            && tasks[chain[|chain| - 1]].parent.None?
    decreases t
  {
    hide OnChain, Count;
    assert ForestRow(cfg, tasks, t);
    hide ForestOk, ForestRow;
    if tasks[t].parent.Some? {
      var p := tasks[t].parent.value;
      AncestorLinks(cfg, tasks, p);
      var up := Ancestors(tasks, p);
      var chain := Ancestors(tasks, t);
      assert chain == [t] + up;
      assert forall i :: 1 <= i < |chain| ==> chain[i] == up[i - 1];
    }
  }

  /** Some task on the chain belongs to agent `a`. */
  predicate HasAgent(tasks: seq<Task>, chain: seq<TaskId>, a: AgentId) {
    exists i :: 0 <= i < |chain| && chain[i] < |tasks| && tasks[chain[i]].agent == a
  }

  lemma HasAgentStep(tasks: seq<Task>, t: TaskId, up: seq<TaskId>, a: AgentId)
    requires t < |tasks|
    ensures HasAgent(tasks, [t] + up, a) <==> tasks[t].agent == a || HasAgent(tasks, up, a)
  {
    var chain := [t] + up;
    if tasks[t].agent == a {
      assert chain[0] == t;
    }
    if i :| 0 <= i < |up| && up[i] < |tasks| && tasks[up[i]].agent == a {
      assert chain[i + 1] == up[i];
    }
    if i :| 1 <= i < |chain| && chain[i] < |tasks| && tasks[chain[i]].agent == a {
      assert up[i - 1] == chain[i];
    }
  }

  /** `OnChain` decides whether an agent has a task on the chain. */
  lemma {:induction false} OnChainMeans(cfg: Config, tasks: seq<Task>, t: TaskId, a: AgentId)
    requires ForestOk(cfg, tasks) && t < |tasks|
    ensures OnChain(tasks, t, a) <==> HasAgent(tasks, Ancestors(tasks, t), a)
    decreases t
  {
    hide HasAgent;
    assert ForestRow(cfg, tasks, t);
    hide ForestOk, ForestRow;
    if tasks[t].parent.Some? {
      var p := tasks[t].parent.value;
      OnChainMeans(cfg, tasks, p, a);
      HasAgentStep(tasks, t, Ancestors(tasks, p), a);
    } else {
      HasAgentStep(tasks, t, [], a);
      NobodyIsNoAgent(tasks, a);
      assert [t] + [] == [t];
    }
  }

  lemma NobodyIsNoAgent(tasks: seq<Task>, a: AgentId)
    ensures !HasAgent(tasks, [], a)
  {
  }

  /** The depth column counts the hops, and the agents on a chain are pairwise distinct. */
  lemma {:induction false} ChainDistinct(cfg: Config, tasks: seq<Task>, t: TaskId)
    requires ForestOk(cfg, tasks) && t < |tasks|
    ensures var chain := Ancestors(tasks, t);
            && |chain| == tasks[t].depth + 1
            && (forall i :: 0 <= i < |chain| ==> chain[i] < |tasks|)
            && (forall i, j :: 0 <= i < j < |chain| ==> tasks[chain[i]].agent != tasks[chain[j]].agent)
    decreases t
  {
    assert ForestRow(cfg, tasks, t);
    if tasks[t].parent.Some? {
      var p := tasks[t].parent.value;
      ChainDistinct(cfg, tasks, p);
      OnChainMeans(cfg, tasks, p, tasks[t].agent);
      assert Ancestors(tasks, t) == [t] + Ancestors(tasks, p);
      assert forall i :: 0 <= i < |Ancestors(tasks, p)| ==> tasks[Ancestors(tasks, p)[i]].agent != tasks[t].agent;
    }
  }

  /** A sequence without repetitions is no longer than the set it is drawn from. */
  lemma {:induction false} Pigeonhole(s: seq<AgentId>, pool: set<AgentId>)
    requires forall i :: 0 <= i < |s| ==> s[i] in pool
    requires forall i, j :: 0 <= i < j < |s| ==> s[i] != s[j]
    ensures |s| <= |pool|
  {
    if s != [] {
      var n := |s| - 1;
      Pigeonhole(s[..n], pool - {s[n]});
    }
  }

  /** No chain is longer than there are agents, and no child is deeper than its parent's agent allows. */
  lemma DepthBounded(cfg: Config, tasks: seq<Task>, t: TaskId)
    requires ForestOk(cfg, tasks) && t < |tasks|
    ensures tasks[t].depth < |cfg|
    ensures tasks[t].parent.Some? ==>
      var p := tasks[t].parent.value;
      p < t && tasks[p].agent in cfg && tasks[t].depth <= cfg[tasks[p].agent].maxDepth && tasks[t].session == tasks[p].session
  {
    ChainDistinct(cfg, tasks, t);
    var chain := Ancestors(tasks, t);
    var agents := seq(|chain|, i requires 0 <= i < |chain| => tasks[chain[i]].agent);
    forall i | 0 <= i < |agents| ensures agents[i] in cfg.Keys {
      assert ForestRow(cfg, tasks, chain[i]);
    }
    Pigeonhole(agents, cfg.Keys);
    assert |cfg.Keys| == |cfg|;
    assert ForestRow(cfg, tasks, t);
  }

  // ---------------------------------------------------------------------------------------------
  // Waiting for children
  // ---------------------------------------------------------------------------------------------

  /** Task `p` cannot go on before its live child `c` has finished. */
  predicate WaitsFor(tasks: seq<Task>, p: TaskId, c: TaskId) {
    p < |tasks| && c < |tasks| && tasks[p].status.WaitingChildren? && tasks[c].parent == Some(p) && Live(tasks[c].status)
  }

  /** Something other than a child moves this task: the dispatcher, a worker, an operator, or, when
      all its children are done, the watchdog. */
  predicate Movable(tasks: seq<Task>, t: TaskId) {
    t < |tasks| && Live(tasks[t].status) && (tasks[t].status.WaitingChildren? ==> !HasLiveChild(tasks, t))
  }

  /** Below every live task there is one that can move, so no set of tasks waits in a circle. */
  lemma {:induction false} WaitingIsGrounded(cfg: Config, tasks: seq<Task>, t: TaskId) returns (path: seq<TaskId>)
    requires ForestOk(cfg, tasks) && t < |tasks| && Live(tasks[t].status)
    ensures |path| > 0 && path[0] == t
    ensures forall i :: 0 <= i < |path| - 1 ==> WaitsFor(tasks, path[i], path[i + 1])
    ensures Movable(tasks, path[|path| - 1])
    decreases |tasks| - t
  {
    if tasks[t].status.WaitingChildren? && HasLiveChild(tasks, t) {
      var c :| 0 <= c < |tasks| && tasks[c].parent == Some(t) && Live(tasks[c].status);
      assert ForestRow(cfg, tasks, c);
      var rest := WaitingIsGrounded(cfg, tasks, c);
      path := [t] + rest;
    } else {
      path := [t];
    }
  }

  function ChildrenOf(tasks: seq<Task>, t: TaskId): seq<TaskId> {
    if tasks == [] then []
    else
      var n := |tasks| - 1;
      ChildrenOf(tasks[..n], t) + (if tasks[n].parent == Some(t) then [n] else [])
  }

  lemma {:induction false} ChildrenExact(tasks: seq<Task>, t: TaskId)
    ensures forall i :: 0 <= i < |ChildrenOf(tasks, t)| ==>
      ChildrenOf(tasks, t)[i] < |tasks| && tasks[ChildrenOf(tasks, t)[i]].parent == Some(t)
    ensures forall i, j :: 0 <= i < j < |ChildrenOf(tasks, t)| ==> ChildrenOf(tasks, t)[i] < ChildrenOf(tasks, t)[j]
    ensures forall c :: 0 <= c < |tasks| && tasks[c].parent == Some(t) ==> c in ChildrenOf(tasks, t)
  {
    if tasks != [] {
      var n := |tasks| - 1;
      var older := ChildrenOf(tasks[..n], t);
      ChildrenExact(tasks[..n], t);
      assert ChildrenOf(tasks, t) == if tasks[n].parent == Some(t) then older + [n] else older;
      forall c | 0 <= c < n && tasks[c].parent == Some(t) ensures c in older {
        assert tasks[..n][c] == tasks[c];
      }
    }
  }

  function ResultOfChild(c: Task): ChildResult {
    ChildResult(c.agent, c.status, c.output, c.error)
  }

  /** `delegate_results` has exactly one entry per child, oldest first. */
  lemma {:induction false} ChildResultsExact(tasks: seq<Task>, t: TaskId)
    ensures |ChildResults(tasks, t)| == |ChildrenOf(tasks, t)|
    ensures forall i :: 0 <= i < |ChildrenOf(tasks, t)| ==>
      ChildrenOf(tasks, t)[i] < |tasks| && ChildResults(tasks, t)[i] == ResultOfChild(tasks[ChildrenOf(tasks, t)[i]])
  {
    if tasks != [] {
      ChildResultsExact(tasks[..|tasks| - 1], t);
    }
  }
}
