/** Runs of a workflow before and after the editor has saved it: where resetting the budgets makes them part. */
module SavedRuns {
  import opened Prelude
  import opened WorkflowGraph
  import opened BranchResolution
  import opened GraphBuilder
  import opened Conditions
  import opened Execution
  import opened CompiledWorkflow
  import opened Editor
  import opened SavedWorkflow
  import opened SavedBlueprint

  // ---------------------------------------------------------------- graphs that differ in their budgets

  predicate SameButBudget(f: NodeFn, h: NodeFn) {
    if f.ConditionFn? && h.ConditionFn? then f.(maxLoops := h.maxLoops) == h else f == h
  }

  ghost predicate SameButBudgets(a: Blueprint, b: Blueprint) {
    && a.edges == b.edges && a.routes == b.routes && a.entry == b.entry && a.nodes.Keys == b.nodes.Keys
    && forall id :: id in a.nodes ==> SameButBudget(a.nodes[id], b.nodes[id])
  }

  /** A failing condition has budget left in one graph and none in the other. */
  ghost predicate BudgetsPart(a: Blueprint, b: Blueprint, world: World, c: Config) {
    GoesLow(a, world, c) != GoesLow(b, world, c)
  }

  lemma SamePlainTargets(a: Blueprint, b: Blueprint, id: string)
    requires a.edges == b.edges
    ensures PlainTargets(a, id) == PlainTargets(b, id)
  {
  }

  lemma SameRoute(a: Blueprint, b: Blueprint, id: string, c: Config)
    requires a.edges == b.edges && a.routes == b.routes && SingleToken(a)
    ensures RouteAfter(a, id, c) == RouteAfter(b, id, c)
  {
    SamePlainTargets(a, b, id);
    forall x, y | x in PlainTargets(a, id) && y in PlainTargets(a, id) ensures x == y {
      assert (id, To(x)) in a.edges && (id, To(y)) in a.edges;
    }
  }

  lemma ConditionsPart(world: World, id: string, f: NodeFn, h: NodeFn, c: Config, choice: Choice)
    requires SameButBudget(f, h) && f.ConditionFn? && h.ConditionFn?
    ensures RunNode(world, id, f, c, choice) == RunNode(world, id, h, c, choice)
       <==> Passes(world.read(Judged(c)), f.field, f.threshold)
            || (LoopCount(c.loopCounts, id) < f.maxLoops <==> LoopCount(c.loopCounts, id) < h.maxLoops)
  {
    BranchMeaning(c.loopCounts, world.read(Judged(c)), id, f.field, f.threshold, f.low, f.ok, f.maxLoops);
    BranchMeaning(c.loopCounts, world.read(Judged(c)), id, h.field, h.threshold, h.low, h.ok, h.maxLoops);
  }

  /** One step has the same outcome, counts included, exactly if the budgets do not part there. */
  lemma StepsPartExactly(a: Blueprint, b: Blueprint, world: World, c: Config, choice: Choice)
    requires SameButBudgets(a, b) && SingleToken(a)
    ensures Step(a, world, c, choice) == Step(b, world, c, choice) <==> !BudgetsPart(a, b, world, c)
  {
    if c.pos.At? && c.pos.node in a.nodes {
      var id := c.pos.node;
      assert SameButBudget(a.nodes[id], b.nodes[id]);
      if a.nodes[id].ConditionFn? {
        ConditionsPart(world, id, a.nodes[id], b.nodes[id], c, choice);
      }
      SameRoute(a, b, id, RunNode(world, id, a.nodes[id], c, choice));
    }
  }

  ghost predicate SameAt(a: Blueprint, b: Blueprint, world: World, k: nat) {
    After(a, world, k) == After(b, world, k)
  }

  ghost predicate PartAt(a: Blueprint, b: Blueprint, world: World, k: nat) {
    BudgetsPart(a, b, world, After(a, world, k))
  }

  /** Two runs agree for `n` steps exactly if the budgets part at none of them. */
  lemma {:induction false} RunsPartExactly(a: Blueprint, b: Blueprint, world: World, n: nat)
    requires SameButBudgets(a, b) && SingleToken(a)
    ensures (forall k :: 0 <= k <= n ==> SameAt(a, b, world, k)) <==> forall k :: 0 <= k < n ==> !PartAt(a, b, world, k)
  {
    if n == 0 {
      assert SameAt(a, b, world, 0);
    } else {
      RunsPartExactly(a, b, world, n - 1);
      NextSameExactly(a, b, world, n - 1);
      if forall k :: 0 <= k < n ==> SameAt(a, b, world, k) {
        assert SameAt(a, b, world, n - 1);
      }
    }
  }

  lemma NextSameExactly(a: Blueprint, b: Blueprint, world: World, k: nat)
    requires SameButBudgets(a, b) && SingleToken(a)
    ensures SameAt(a, b, world, k) ==> (SameAt(a, b, world, k + 1) <==> !PartAt(a, b, world, k))
  {
    if SameAt(a, b, world, k) {
      StepsPartExactly(a, b, world, After(a, world, k), world.choices(k));
    }
  }

  // ---------------------------------------------------------------- before and after saving

  /** A condition's field is not blank, and a channel is named. */
  predicate SettingsNamed(n: Node) {
    && (n.kind == Some("condition") ==> n.field != Some(""))
    && (n.kind == Some("channel") ==> n.channel.GetOr("") != "")
  }

  lemma SavedFnOfNode(n: Node, edges: seq<Edge>, agents: map<string, int>, fn: NodeFn)
    requires SettingsNamed(n) && Builds(n, edges, agents, fn)
    ensures SameButBudget(fn, AfterSaving(n, fn))
    ensures AfterSaving(n, fn).ConditionFn? ==> AfterSaving(n, fn).maxLoops == DEFAULT_MAX_LOOPS
  {
  }

  lemma SavedBudgetsOnly(g: Graph, agents: map<string, int>, graph: Blueprint, id: string)
    requires UniqueIds(g.nodes) && Compiled(g.nodes, g.edges, agents) == Ok(graph) && id in graph.nodes
    requires forall n :: n in g.nodes ==> SettingsNamed(n)
    ensures id in NodeById(g.nodes)
      && SameButBudget(graph.nodes[id], AfterSaving(NodeById(g.nodes)[id], graph.nodes[id]))
  {
    var n := OriginIsKnown(g.nodes, g.edges, agents, id);
    NodeByUniqueId(g.nodes, n);
    SavedFnOfNode(n, g.edges, agents, graph.nodes[id]);
  }

  /** What saving makes of a compiled workflow in which nothing is left blank: only budgets differ. */
  lemma SavedDiffersInBudgets(g: Graph, listed: map<string, int>, agents: map<string, int>, graph: Blueprint)
    returns (after: Blueprint)
    requires EditorSafe(g) && TypesNamed(g) && Compiled(g.nodes, g.edges, agents) == Ok(graph)
    requires forall n :: n in g.nodes ==> SettingsNamed(n)
    ensures Compiled(RoundTrip(g, listed).nodes, RoundTrip(g, listed).edges, agents) == Ok(after)
    ensures SameButBudgets(graph, after)
    ensures forall id :: id in after.nodes && after.nodes[id].ConditionFn? ==>
      after.nodes[id].maxLoops == DEFAULT_MAX_LOOPS
  {
    CompiledAfterSaving(g, listed, agents);
    after := graph.(nodes := FnsAfterSaving(NodeById(g.nodes), graph.nodes));
    SavedFnsDifferInBudgets(g, agents, graph);
    FnsDifferInBudgets(NodeById(g.nodes), graph, after);
  }

  lemma SavedFnsDifferInBudgets(g: Graph, agents: map<string, int>, graph: Blueprint)
    requires UniqueIds(g.nodes) && Compiled(g.nodes, g.edges, agents) == Ok(graph)
    requires forall n :: n in g.nodes ==> SettingsNamed(n)
    ensures forall id :: id in graph.nodes ==>
      id in NodeById(g.nodes) && SameButBudget(graph.nodes[id], AfterSaving(NodeById(g.nodes)[id], graph.nodes[id]))
  {
    forall id | id in graph.nodes
      ensures id in NodeById(g.nodes)
        && SameButBudget(graph.nodes[id], AfterSaving(NodeById(g.nodes)[id], graph.nodes[id]))
    {
      SavedBudgetsOnly(g, agents, graph, id);
    }
  }

  lemma FnsDifferInBudgets(byId: map<string, Node>, graph: Blueprint, after: Blueprint)
    requires after == graph.(nodes := FnsAfterSaving(byId, graph.nodes))
    requires forall id :: id in graph.nodes ==>
      id in byId && SameButBudget(graph.nodes[id], AfterSaving(byId[id], graph.nodes[id]))
    ensures SameButBudgets(graph, after)
    ensures forall id :: id in after.nodes && after.nodes[id].ConditionFn? ==>
      after.nodes[id].maxLoops == DEFAULT_MAX_LOOPS
  {
  }

  /** At step `k` a condition fails, with a count below one of its own budget and three, but not below both. */
  ghost predicate FailsBetween(graph: Blueprint, world: World, k: nat) {
    var c := After(graph, world, k);
    && c.pos.At? && c.pos.node in graph.nodes && graph.nodes[c.pos.node].ConditionFn?
    && !Passes(world.read(Judged(c)), graph.nodes[c.pos.node].field, graph.nodes[c.pos.node].threshold)
    && var count := LoopCount(c.loopCounts, c.pos.node);
       (count < graph.nodes[c.pos.node].maxLoops) != (count < DEFAULT_MAX_LOOPS)
  }

  lemma PartMeansFailsBetween(a: Blueprint, b: Blueprint, world: World, k: nat)
    requires SameButBudgets(a, b)
    requires forall id :: id in b.nodes && b.nodes[id].ConditionFn? ==> b.nodes[id].maxLoops == DEFAULT_MAX_LOOPS
    ensures PartAt(a, b, world, k) <==> FailsBetween(a, world, k)
  {
    var c := After(a, world, k);
    if c.pos.At? && c.pos.node in a.nodes {
      assert SameButBudget(a.nodes[c.pos.node], b.nodes[c.pos.node]);
    }
  }

  /**
   In the same world, the run of the saved workflow agrees with the run of the original for `n` steps exactly if
   at none of them a condition fails with a count that is below one of its own budget and three, but not below both.
   */
  lemma SavedRunsAgreeExactly(g: Graph, listed: map<string, int>, agents: map<string, int>, graph: Blueprint,
                              world: World, n: nat) returns (after: Blueprint)
    requires EditorSafe(g) && TypesNamed(g) && Compiled(g.nodes, g.edges, agents) == Ok(graph)
      && NoFanOut(g.nodes, g.edges)
    requires forall n :: n in g.nodes ==> SettingsNamed(n)
    ensures Compiled(RoundTrip(g, listed).nodes, RoundTrip(g, listed).edges, agents) == Ok(after)
    ensures (forall k :: 0 <= k <= n ==> SameAt(graph, after, world, k))
       <==> forall k :: 0 <= k < n ==> !FailsBetween(graph, world, k)
  {
    after := SavedDiffersInBudgets(g, listed, agents, graph);
    SingleTokenExactly(g.nodes, g.edges, agents);
    RunsPartExactly(graph, after, world, n);
    forall k: nat ensures PartAt(graph, after, world, k) <==> FailsBetween(graph, world, k) {
      PartMeansFailsBetween(graph, after, world, k);
    }
  }
}
