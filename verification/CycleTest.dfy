/** A test on the graph alone for whether all its runs end, and what it presupposes. */
module CycleTest {
  import opened Prelude
  import opened WorkflowGraph
  import opened BranchResolution
  import opened GraphBuilder
  import opened CompiledWorkflow
  import opened Conditions
  import opened Execution
  import opened Termination
  import opened EndlessRuns
  import opened Seeds

  /** Every condition judges what the agent right before it has said. */
  ghost predicate AgentsFeedConditions(graph: Blueprint) {
    && (graph.entry.Some? && graph.entry.value in graph.nodes ==> !graph.nodes[graph.entry.value].ConditionFn?)
    && (forall a, b :: Live(graph, a) && LiveStep(graph, a, b) && b in graph.nodes && graph.nodes[b].ConditionFn? ==>
          a in graph.nodes && graph.nodes[a].AgentFn?)
  }

  /** At every condition some text passes and some text fails. */
  ghost predicate VerdictsOpen(graph: Blueprint) {
    forall id :: id in graph.nodes && graph.nodes[id].ConditionFn? ==>
      IsOpen(graph.nodes[id].field, graph.nodes[id].threshold)
  }

  lemma CutWalk(graph: Blueprint, walk: seq<string>, i: nat, j: nat)
    requires LiveWalk(graph, walk) && i < j < |walk| && walk[i] == walk[j]
    ensures LiveWalk(graph, walk[..i] + walk[j..])
    ensures (walk[..i] + walk[j..])[|walk| - (j - i) - 1] == walk[|walk| - 1]
  {
    var shorter := walk[..i] + walk[j..];
    assert forall k :: 0 <= k < |shorter| ==> shorter[k] == if k < i then walk[k] else walk[k + j - i];
    assert i > 0 ==> shorter[i - 1] == walk[i - 1] && shorter[i] == walk[i];
  }

  /** A walk can be cut down to one that visits no node twice. */
  lemma {:induction false} SimpleWalk(graph: Blueprint, walk: seq<string>) returns (simple: seq<string>)
    requires LiveWalk(graph, walk)
    ensures LiveWalk(graph, simple) && simple[|simple| - 1] == walk[|walk| - 1] && NoDuplicates(simple)
    decreases |walk|
  {
    if NoDuplicates(walk) {
      simple := walk;
    } else {
      var i, j :| 0 <= i < j < |walk| && walk[i] == walk[j];
      CutWalk(graph, walk, i, j);
      simple := SimpleWalk(graph, walk[..i] + walk[j..]);
    }
  }

  /** Forward steps that start on a cycle never run out. */
  lemma {:induction false} CycleGoesOn(graph: Blueprint, id: string, n: nat)
    requires LeadsTo(graph, id, id)
    ensures ForwardBy(graph, id, n).Some?
  {
    var period :| period > 0 && ForwardBy(graph, id, period) == Some(id);
    if n <= period {
      if ForwardBy(graph, id, n) == None {
        NoneStaysNone(graph, id, n, period);
      }
    } else {
      CycleGoesOn(graph, id, n - period);
      ForwardByCompose(graph, id, period, n - period);
    }
  }

  /** The nodes ahead of a node on a cycle. */
  lemma AheadIsLoop(graph: Blueprint, id: string)
    requires Runnable(graph) && AgentsFeedConditions(graph) && Live(graph, id) && LeadsTo(graph, id, id)
    ensures IsLoop(graph, Ahead(graph, id)) && id in Ahead(graph, id)
  {
    assert id in graph.nodes by {
      CycleGoesOn(graph, id, 1);
      assert ForwardBy(graph, id, 0) == Some(id);
    }
    forall q | q in Ahead(graph, id)
      ensures Live(graph, q) && Forward(graph, q).Some? && Forward(graph, q).value in Ahead(graph, id)
    {
      var n :| n > 0 && ForwardBy(graph, id, n) == Some(q);
      LiveAhead(graph, id, n);
      CycleGoesOn(graph, id, n + 1);
      ForwardStaysInGraph(graph, q);
      assert ForwardBy(graph, id, n + 1) == Forward(graph, q);
    }
    assert forall q :: q in Ahead(graph, id) ==> LiveStep(graph, q, Forward(graph, q).value);
  }

  lemma {:induction false} LiveAhead(graph: Blueprint, id: string, n: nat)
    requires Live(graph, id) && ForwardBy(graph, id, n).Some?
    ensures Live(graph, ForwardBy(graph, id, n).value)
  {
    if n > 0 {
      LiveAhead(graph, id, n - 1);
      LiveExtends(graph, ForwardBy(graph, id, n - 1).value, ForwardBy(graph, id, n).value);
    }
  }

  /** The walk goes low from its `n`-th node. */
  ghost predicate TurnsLow(graph: Blueprint, walk: seq<string>, n: nat) {
    n + 1 < |walk| && Forward(graph, walk[n]) != Some(walk[n + 1])
  }

  /** Before each condition the agent says what sends the token along the walk; after the walk, only what passes. */
  ghost function Follow(graph: Blueprint, walk: seq<string>, read: string -> Reading, good: string, bad: string)
    : World
  {
    World(read, "", (n: nat) => Choice(if TurnsLow(graph, walk, n + 1) then bad else good, true))
  }

  /** The token is on the walk, has the budget that it still needs, and a condition judges what was meant for it. */
  ghost predicate OnWalk(graph: Blueprint, walk: seq<string>, good: string, bad: string, n: nat, c: Config)
    requires n < |walk|
  {
    && c.pos == At(walk[n])
    && (forall id :: id !in walk[..n] ==> LoopCount(c.loopCounts, id) == 0)
    && (walk[n] in graph.nodes && graph.nodes[walk[n]].ConditionFn? ==>
          Judged(c) == if TurnsLow(graph, walk, n) then bad else good)
  }

  lemma WalkIsLive(graph: Blueprint, walk: seq<string>, n: nat)
    requires LiveWalk(graph, walk) && n < |walk|
    ensures Live(graph, walk[n]) && (n + 1 < |walk| ==> LiveStep(graph, walk[n], walk[n + 1]))
  {
    assert LiveWalk(graph, walk[..n + 1]) && walk[..n + 1][|walk[..n + 1]| - 1] == walk[n];
  }

  lemma WalksOn(graph: Blueprint, walk: seq<string>, world: World, good: string, bad: string, n: nat, c: Config,
                choice: Choice)
    requires Runnable(graph) && LiveWalk(graph, walk) && NoDuplicates(walk) && n + 1 < |walk|
    requires VerdictsOpen(graph) && AreGoodAndBad(graph, world.read, good, bad)
    requires OnWalk(graph, walk, good, bad, n, c) && walk[n] in graph.nodes
    ensures var next := Step(graph, world, c, choice);
      && next.pos == At(walk[n + 1])
      && forall id :: id !in walk[..n + 1] ==> LoopCount(next.loopCounts, id) == 0
  {
    var id := walk[n];
    assert LiveStep(graph, walk[n], walk[n + 1]);
    assert id !in walk[..n];
    StepMeaning(graph, world, c, choice);
    if graph.nodes[id].ConditionFn? {
      BothVerdictsOccur(graph.nodes[id].field, graph.nodes[id].threshold, world.read(good), world.read(bad));
    }
    forall other | other !in walk[..n + 1] ensures other !in walk[..n] && other != id {
      assert walk[..n + 1] == walk[..n] + [id];
    }
  }

  ghost predicate IsOnWalk(graph: Blueprint, walk: seq<string>, read: string -> Reading, good: string, bad: string,
                           n: nat) {
    n < |walk| && OnWalk(graph, walk, good, bad, n, After(graph, Follow(graph, walk, read, good, bad), n))
  }

  lemma WalkStarts(graph: Blueprint, walk: seq<string>, read: string -> Reading, good: string, bad: string)
    requires AgentsFeedConditions(graph) && LiveWalk(graph, walk)
    ensures IsOnWalk(graph, walk, read, good, bad, 0)
  {
  }

  lemma WalkGoesOn(graph: Blueprint, walk: seq<string>, read: string -> Reading, good: string, bad: string, n: nat)
    requires Runnable(graph) && LiveWalk(graph, walk) && NoDuplicates(walk) && n + 1 < |walk|
    requires VerdictsOpen(graph) && AgentsFeedConditions(graph) && AreGoodAndBad(graph, read, good, bad)
    requires IsOnWalk(graph, walk, read, good, bad, n)
    ensures IsOnWalk(graph, walk, read, good, bad, n + 1)
  {
    var world := Follow(graph, walk, read, good, bad);
    NeverStuck(graph, world, n);
    WalksOn(graph, walk, world, good, bad, n, After(graph, world, n), world.choices(n));
    WalkIsLive(graph, walk, n);
    StepFeeds(graph, world, After(graph, world, n), world.choices(n));
    assert After(graph, world, n + 1) == Step(graph, world, After(graph, world, n), world.choices(n));
  }

  lemma FollowReaches(graph: Blueprint, walk: seq<string>, read: string -> Reading, good: string, bad: string, n: nat)
    requires Runnable(graph) && LiveWalk(graph, walk) && NoDuplicates(walk) && n < |walk|
    requires VerdictsOpen(graph) && AgentsFeedConditions(graph) && AreGoodAndBad(graph, read, good, bad)
    ensures IsOnWalk(graph, walk, read, good, bad, n)
  {
    var onWalk := (m: nat) => m < |walk| ==> IsOnWalk(graph, walk, read, good, bad, m);
    WalkStarts(graph, walk, read, good, bad);
    forall m: nat ensures KeptBy(onWalk, m) {
      if m + 1 < |walk| && IsOnWalk(graph, walk, read, good, bad, m) {
        WalkGoesOn(graph, walk, read, good, bad, m);
      }
    }
    Onward(onWalk, 0, n);
  }

  /** At the end of the walk the token is on the cycle, and judged by what passes. */
  lemma WalkEndsOnLoop(graph: Blueprint, walk: seq<string>, read: string -> Reading, good: string, bad: string,
                       id: string)
    requires Runnable(graph) && LiveWalk(graph, walk) && NoDuplicates(walk) && walk[|walk| - 1] == id
    requires VerdictsOpen(graph) && AgentsFeedConditions(graph) && AreGoodAndBad(graph, read, good, bad)
    requires LeadsTo(graph, id, id)
    ensures var world, k := Follow(graph, walk, read, good, bad), |walk| - 1;
      CirclesAt(graph, world, Ahead(graph, id), good, CountsAt(graph, world, k), k)
  {
    WalkIsLive(graph, walk, |walk| - 1);
    FollowReaches(graph, walk, read, good, bad, |walk| - 1);
    AheadIsLoop(graph, id);
    LoopNodeKind(graph, Ahead(graph, id), id);
  }

  lemma PassesAfterWalk(graph: Blueprint, walk: seq<string>, read: string -> Reading, good: string, bad: string, n: nat)
    requires n + 1 >= |walk|
    ensures Follow(graph, walk, read, good, bad).choices(n).output == good
    ensures Follow(graph, walk, read, good, bad).read == read
  {
  }

  lemma CycleCarries(graph: Blueprint, world: World, good: string, bad: string, id: string, counts: map<string, int>,
                     k: nat)
    requires Runnable(graph) && VerdictsOpen(graph) && AgentsFeedConditions(graph)
      && AreGoodAndBad(graph, world.read, good, bad)
    requires Live(graph, id) && LeadsTo(graph, id, id)
    requires forall n :: n >= k ==> world.choices(n).output == good
    ensures KeepsSaying(graph, world, Ahead(graph, id), good, counts, k)
  {
    AheadIsLoop(graph, id);
    OpenLoopCarries(graph, world.read, Ahead(graph, id), good, bad, counts);
  }

  /** A reachable cycle of forward steps lets some answers keep a run going for ever. */
  lemma CycleNeverHalts(graph: Blueprint, read: string -> Reading, id: string) returns (world: World)
    requires Runnable(graph) && VerdictsOpen(graph) && AgentsFeedConditions(graph) && Expressive(read)
    requires Live(graph, id) && LeadsTo(graph, id, id)
    ensures world.read == read && forall n :: After(graph, world, n).pos.At?
  {
    var long :| LiveWalk(graph, long) && long[|long| - 1] == id;
    var walk := SimpleWalk(graph, long);
    var good, bad := GoodAndBad(graph, read);
    world := Follow(graph, walk, read, good, bad);
    WalkEndsOnLoop(graph, walk, read, good, bad, id);
    var counts := CountsAt(graph, world, |walk| - 1);
    forall n: nat | n + 1 >= |walk| ensures world.choices(n).output == good {
      PassesAfterWalk(graph, walk, read, good, bad, n);
    }
    CycleCarries(graph, world, good, bad, id, counts, |walk| - 1);
    NeverEnds(graph, world, Ahead(graph, id), good, counts, |walk| - 1);
  }

  lemma OpenLoopCarries(graph: Blueprint, read: string -> Reading, loop: set<string>, good: string, bad: string,
                        counts: map<string, int>)
    requires VerdictsOpen(graph) && AreGoodAndBad(graph, read, good, bad)
    ensures Carries(graph, read, loop, good, counts)
  {
    forall q | q in loop && q in graph.nodes && graph.nodes[q].ConditionFn?
      ensures Passes(read(good), graph.nodes[q].field, graph.nodes[q].threshold)
    {
      BothVerdictsOccur(graph.nodes[q].field, graph.nodes[q].threshold, read(good), read(bad));
    }
  }

  /**
   Where each condition judges the agent right before it, every run ends, for all answers, exactly when no
   reachable node lies on a cycle of plain edges and ok branches.
   */
  lemma HaltsExactly(graph: Blueprint, read: string -> Reading)
    requires Runnable(graph) && VerdictsOpen(graph) && AgentsFeedConditions(graph) && Expressive(read)
    ensures (forall world: World :: world.read == read ==> Halts(graph, world)) <==> ForwardAcyclic(graph)
  {
    if ForwardAcyclic(graph) {
      forall world: World ensures Halts(graph, world) {
        HaltsWithinBound(graph, world);
      }
    } else {
      var id :| Live(graph, id) && LeadsTo(graph, id, id);
      var world := CycleNeverHalts(graph, read, id);
      assert !Halts(graph, world);
    }
  }

  // ---------------------------------------------------------------- the test on the stored graph

  /** Every edge to a condition leaves an agent, and the entry is no condition. */
  ghost predicate FedByAgents(nodes: seq<Node>, edges: seq<Edge>) {
    && EntryNode(nodes, edges) !in IdsOfKind(nodes, "condition")
    && forall e, n :: e in edges && e.dst in IdsOfKind(nodes, "condition") && n in nodes && n.id == e.src ==>
         n.kind.GetOr("agent") == "agent"
  }

  /** A step of the compiled graph that some run can take runs along a stored edge. */
  lemma LiveStepOrigin(nodes: seq<Node>, edges: seq<Edge>, agents: map<string, int>, a: string, b: string)
    returns (e: Edge)
    requires Compiled(nodes, edges, agents).Ok?
    requires LiveStep(Compiled(nodes, edges, agents).value, a, b)
    ensures e in edges && e.src == a && e.dst == b
  {
    ConditionOfCompiled(nodes, edges, agents, a);
    if a in IdsOfKind(nodes, "condition") {
      ResolvedBranchesAreTargets(Outgoing(edges, a));
      e :| e in Outgoing(edges, a) && e.dst == b;
    } else {
      ForwardOrigin(nodes, edges, agents, a, b);
      e :| e in edges && !Labelled(e) && e.src == a && e.dst == b;
    }
  }

  /** The source of an edge to a condition is compiled to an agent, if to anything. */
  lemma FeederOfCompiled(nodes: seq<Node>, edges: seq<Edge>, agents: map<string, int>, e: Edge)
    requires Compiled(nodes, edges, agents).Ok? && FedByAgents(nodes, edges)
    requires e in edges && e.dst in IdsOfKind(nodes, "condition") && e.src in Compiled(nodes, edges, agents).value.nodes
    ensures Compiled(nodes, edges, agents).value.nodes[e.src].AgentFn?
  {
    var n := OriginIsKnown(nodes, edges, agents, e.src);
  }

  lemma LiveStepIsFed(nodes: seq<Node>, edges: seq<Edge>, agents: map<string, int>, a: string, b: string)
    requires Compiled(nodes, edges, agents).Ok? && FedByAgents(nodes, edges)
    requires LiveStep(Compiled(nodes, edges, agents).value, a, b)
    requires b in Compiled(nodes, edges, agents).value.nodes
      && Compiled(nodes, edges, agents).value.nodes[b].ConditionFn?
    ensures a in Compiled(nodes, edges, agents).value.nodes && Compiled(nodes, edges, agents).value.nodes[a].AgentFn?
  {
    var e := LiveStepOrigin(nodes, edges, agents, a, b);
    ConditionOfCompiled(nodes, edges, agents, b);
    FeederOfCompiled(nodes, edges, agents, e);
  }

  lemma CompiledIsFedByAgents(nodes: seq<Node>, edges: seq<Edge>, agents: map<string, int>)
    requires Compiled(nodes, edges, agents).Ok? && FedByAgents(nodes, edges)
    ensures AgentsFeedConditions(Compiled(nodes, edges, agents).value)
  {
    var graph := Compiled(nodes, edges, agents).value;
    if graph.entry.Some? && graph.entry.value in graph.nodes {
      ConditionOfCompiled(nodes, edges, agents, graph.entry.value);
    }
    forall a, b | LiveStep(graph, a, b) && b in graph.nodes && graph.nodes[b].ConditionFn?
      ensures a in graph.nodes && graph.nodes[a].AgentFn?
    {
      LiveStepIsFed(nodes, edges, agents, a, b);
    }
  }

  /** In a linked workflow it is enough to look at the nodes before each condition. */
  lemma LinkedIsFedByAgents(g: Graph, links: seq<(nat, nat)>)
    requires Linked(g, links) && UniqueIds(g.nodes)
    requires EntryNode(g.nodes, g.edges) !in IdsOfKind(g.nodes, "condition")
    requires forall k :: 0 <= k < |links| && g.nodes[links[k].1].kind == Some("condition") ==>
      g.nodes[links[k].0].kind.GetOr("agent") == "agent"
    ensures FedByAgents(g.nodes, g.edges)
  {
    forall e, n | e in g.edges && e.dst in IdsOfKind(g.nodes, "condition") && n in g.nodes && n.id == e.src
      ensures n.kind.GetOr("agent") == "agent"
    {
      var k :| 0 <= k < |links| && g.edges[k] == e;
      var m :| m in g.nodes && m.kind == Some("condition") && m.id == e.dst;
      NodeAtIndex(g.nodes, m, links[k].1);
      NodeAtIndex(g.nodes, n, links[k].0);
    }
  }

  lemma NodeAtIndex(nodes: seq<Node>, n: Node, i: nat)
    requires UniqueIds(nodes) && n in nodes && i < |nodes| && nodes[i].id == n.id
    ensures nodes[i] == n
  {
  }

  lemma DevEntersAtAgent()
    ensures EntryNode(DevPipeline().nodes, DevPipeline().edges) !in IdsOfKind(DevPipeline().nodes, "condition")
  {
    var g := DevPipeline();
    DevIds();
    DevNodes();
    DevEntry();
    EntryIsFirst(g);
    FirstIsNoCondition(g);
  }

  lemma FirstIsNoCondition(g: Graph)
    requires UniqueIds(g.nodes) && g.nodes != [] && g.nodes[0].kind != Some("condition")
    ensures g.nodes[0].id !in IdsOfKind(g.nodes, "condition")
  {
    forall n | n in g.nodes && n.id == g.nodes[0].id ensures n.kind != Some("condition") {
      var i :| 0 <= i < |g.nodes| && g.nodes[i] == n;
      assert i == 0;
    }
  }

  lemma DevConditionsFollowAgents()
    ensures forall k :: 0 <= k < 9 && (DevLinks()[k].1 == 4 || DevLinks()[k].1 == 6) ==>
      DevPipeline().nodes[DevLinks()[k].0].kind == Some("agent")
  {
    assert DevPipeline().nodes[3].kind == Some("agent") && DevPipeline().nodes[5].kind == Some("agent");
  }

  /** The seeded development pipeline meets the condition of the test. */
  lemma DevIsFedByAgents()
    ensures FedByAgents(DevPipeline().nodes, DevPipeline().edges)
  {
    DevIds();
    DevNodes();
    DevIsLinked();
    DevEntersAtAgent();
    DevConditionsFollowAgents();
    LinkedIsFedByAgents(DevPipeline(), DevLinks());
  }

  // ---------------------------------------------------------------- why each condition needs its own agent

  /** A condition as entry: it judges the empty text. Its low branch leads to an agent that repeats itself. */
  function BlankEntry(maxLoops: int): Blueprint {
    Blueprint(
      map["c" := ConditionFn("approved", 0.7, "a", "b", maxLoops), "a" := AgentFn(1), "b" := AgentFn(2)],
      {("a", To("a")), ("b", Finish)},
      map["c" := Routing("b", {"a", "b"})],
      Some("c"))
  }

  /** Two conditions on one text: what the first fails the second cannot pass. */
  function SharedText(maxLoops: int): Blueprint {
    Blueprint(
      map["a" := AgentFn(1), "c" := ConditionFn("approved", 0.7, "d", "e", maxLoops),
          "d" := ConditionFn("approved", 0.7, "e", "x", maxLoops), "e" := AgentFn(2), "x" := AgentFn(3)],
      {("a", To("c")), ("x", To("x")), ("e", Finish)},
      map["c" := Routing("e", {"d", "e"}), "d" := Routing("x", {"e", "x"})],
      Some("a"))
  }

  lemma OneTarget(graph: Blueprint, id: string, target: string)
    requires (id, To(target)) in graph.edges
    requires forall e :: e in graph.edges && e.0 == id ==> e.1 == To(target)
    ensures PlainTargets(graph, id) == {target}
  {
    assert (id, To(target)).0 == id;
  }

  lemma SelfLoop(graph: Blueprint, id: string)
    requires Forward(graph, id) == Some(id)
    ensures LeadsTo(graph, id, id)
  {
    assert ForwardBy(graph, id, 0) == Some(id);
    assert ForwardBy(graph, id, 1) == Some(id);
  }

  lemma BlankEntryRuns(read: string -> Reading, maxLoops: int, world: World)
    requires read("").approved == None && world.read == read
    ensures After(BlankEntry(maxLoops), world, 2).pos == Halted
  {
    var graph := BlankEntry(maxLoops);
    var c0 := Start(graph);
    assert After(graph, world, 0) == c0;
    var c1 := Step(graph, world, c0, world.choices(0));
    assert c1.pos == At("b");
    assert After(graph, world, 1) == c1;
    assert PlainTargets(graph, "b") == {};
    assert Step(graph, world, c1, world.choices(1)).pos == Halted;
    assert After(graph, world, 2) == Step(graph, world, c1, world.choices(1));
  }

  lemma BlankEntryHasCycle(maxLoops: int)
    requires maxLoops > 0
    ensures !ForwardAcyclic(BlankEntry(maxLoops))
  {
    var graph := BlankEntry(maxLoops);
    OneTarget(graph, "a", "a");
    SelfLoop(graph, "a");
    assert LiveWalk(graph, ["c", "a"]) && ["c", "a"][|["c", "a"]| - 1] == "a";
  }

  /** The entry passes, whatever the agents would say: the cycle behind its low branch is never reached. */
  lemma BlankEntryHalts(read: string -> Reading, maxLoops: int)
    requires maxLoops > 0 && read("").approved == None
    ensures Runnable(BlankEntry(maxLoops)) && VerdictsOpen(BlankEntry(maxLoops))
      && !ForwardAcyclic(BlankEntry(maxLoops))
    ensures forall world: World :: world.read == read ==> Halts(BlankEntry(maxLoops), world)
  {
    BlankEntryHasCycle(maxLoops);
    forall world: World | world.read == read ensures Halts(BlankEntry(maxLoops), world) {
      BlankEntryRuns(read, maxLoops, world);
    }
  }

  lemma SharedTextStarts(maxLoops: int, world: World)
    requires maxLoops > 0
    ensures var graph, c := SharedText(maxLoops), After(SharedText(maxLoops), world, 2);
      || c.pos == At("e")
      || (c.pos == At("d") && LoopCount(c.loopCounts, "d") == 0 && world.read(Judged(c)).approved == Some(false))
  {
    var graph := SharedText(maxLoops);
    OneTarget(graph, "a", "c");
    var c0 := Start(graph);
    var c1 := Step(graph, world, c0, world.choices(0));
    assert After(graph, world, 0) == c0 && After(graph, world, 1) == c1;
    assert c1.pos == At("c") && c1.loopCounts == map[];
    var c2 := Step(graph, world, c1, world.choices(1));
    assert After(graph, world, 2) == c2 && Judged(c2) == Judged(c1);
    LoopKeyApart("c", "d");
  }

  lemma LoopKeyApart(a: string, b: string)
    requires a != b
    ensures LoopKey(a) != LoopKey(b)
  {
    if LoopKey(a) == LoopKey(b) {
      LoopKeyInjective(a, b);
    }
  }

  lemma SharedTextRuns(maxLoops: int, world: World)
    requires maxLoops > 0
    ensures After(SharedText(maxLoops), world, 4).pos == Halted
  {
    var graph := SharedText(maxLoops);
    SharedTextStarts(maxLoops, world);
    assert PlainTargets(graph, "e") == {};
    var c2 := After(graph, world, 2);
    var c3 := Step(graph, world, c2, world.choices(2));
    assert After(graph, world, 3) == c3;
    assert c3.pos == if c2.pos == At("d") then At("e") else Halted;
    assert After(graph, world, 4) == Step(graph, world, c3, world.choices(3));
  }

  lemma SharedTextIsAccepted(maxLoops: int)
    ensures Accepted(SharedText(maxLoops)) && SingleToken(SharedText(maxLoops))
  {
  }

  lemma SharedTextIsWired(maxLoops: int)
    ensures ConditionsWired(SharedText(maxLoops)) && EndsAreFinal(SharedText(maxLoops))
      && VerdictsOpen(SharedText(maxLoops))
  {
  }

  lemma SharedTextHasCycle(maxLoops: int)
    requires maxLoops > 0
    ensures !ForwardAcyclic(SharedText(maxLoops))
  {
    var graph := SharedText(maxLoops);
    OneTarget(graph, "a", "c");
    OneTarget(graph, "x", "x");
    SelfLoop(graph, "x");
    var walk := ["a", "c", "d", "x"];
    assert LiveStep(graph, walk[0], walk[1]) && LiveStep(graph, walk[1], walk[2]) && LiveStep(graph, walk[2], walk[3]);
    assert LiveWalk(graph, walk) && walk[|walk| - 1] == "x";
  }

  /** The second condition fails whatever the first has failed: the cycle behind its ok branch is never reached. */
  lemma SharedTextHalts(maxLoops: int)
    requires maxLoops > 0
    ensures Runnable(SharedText(maxLoops)) && VerdictsOpen(SharedText(maxLoops))
      && !ForwardAcyclic(SharedText(maxLoops))
    ensures forall world: World :: Halts(SharedText(maxLoops), world)
  {
    SharedTextIsAccepted(maxLoops);
    SharedTextIsWired(maxLoops);
    SharedTextHasCycle(maxLoops);
    forall world: World ensures Halts(SharedText(maxLoops), world) {
      SharedTextRuns(maxLoops, world);
    }
  }
}
