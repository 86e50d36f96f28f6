/** The looping workflows that the platform seeds (workflow_service.py). */
module Seeds {
  import opened Prelude
  import opened Text
  import opened WorkflowGraph
  import opened BranchResolution
  import opened GraphBuilder
  import opened Execution
  import opened Termination
  import opened CompiledWorkflow

  function AgentNode(id: string, title: string, agent: string): Node {
    Node(id, Some("agent"), title, None, Some(agent), None, None, None, None, None)
  }

  function ConditionNode(id: string, title: string, field: string, threshold: Option<real>): Node {
    Node(id, Some("condition"), title, None, None, Some(field), threshold, None, None, None)
  }

  function EndNode(id: string): Node {
    Node(id, Some("end"), "END", None, None, None, None, None, None, None)
  }

  function Then(src: string, dst: string): Edge {
    Edge(src, dst, None, None)
  }

  /** "Dev Pipeline: Build & Deploy" */
  function DevPipeline(): Graph {
    Graph(
      [ AgentNode("planner", "Dev Planner", "Dev Planner"),
        AgentNode("backend", "Backend Engineer", "Backend Engineer"),
        AgentNode("frontend", "Frontend Engineer", "Frontend Engineer"),
        AgentNode("reviewer", "Code Reviewer", "Code Reviewer"),
        ConditionNode("review_gate", "Review passed?", "approved", None),
        AgentNode("tester", "QA Tester", "QA Tester"),
        ConditionNode("test_gate", "Tests passed?", "tests_passed", None),
        AgentNode("devops", "DevOps Engineer", "DevOps Engineer") ],
      [ Then("planner", "backend"),
        Then("backend", "frontend"),
        Then("frontend", "reviewer"),
        Then("reviewer", "review_gate") ]
      + Gate("review_gate", "tester", "backend", 2)
      + [ Then("tester", "test_gate") ]
      + Gate("test_gate", "devops", "backend", 2))
  }

  function Gate(id: string, ok: string, low: string, maxLoops: int): seq<Edge> {
    [Edge(id, ok, Some("ok"), None), Edge(id, low, Some("low"), Some(maxLoops))]
  }

  /** "Support Triage Loop" */
  function SupportTriage(): Graph {
    Graph(
      [ AgentNode("triage", "Triage Agent", "Coordinator"),
        ConditionNode("confidence_check", "Confidence OK?", "confidence", Some(0.7)),
        AgentNode("specialist", "Specialist Agent", "Writer"),
        EndNode("end") ],
      [ Then("triage", "confidence_check") ]
      + Gate("confidence_check", "specialist", "triage", 3)
      + [ Then("specialist", "end") ])
  }

  lemma OutgoingNone(edges: seq<Edge>, id: string)
    requires forall e :: e in edges ==> e.src != id
    ensures Outgoing(edges, id) == []
  {
    FilterNone((e: Edge) => e.src == id, edges);
  }

  lemma OutgoingAll(edges: seq<Edge>, id: string)
    requires forall e :: e in edges ==> e.src == id
    ensures Outgoing(edges, id) == edges
  {
    FilterAll((e: Edge) => e.src == id, edges);
  }

  /** In a list of the form `before + Gate(id, ...) + after` the gate's edges are all that leaves `id`. */
  lemma GateOutgoing(before: seq<Edge>, after: seq<Edge>, id: string, ok: string, low: string, maxLoops: int)
    requires forall e :: e in before || e in after ==> e.src != id
    ensures var branches := Outgoing(before + Gate(id, ok, low, maxLoops) + after, id);
            && OkBranch(branches) == Some(ok)
            && LowBranch(branches) == Some(low)
            && LoopBudget(branches) == maxLoops
  {
    var gate := Gate(id, ok, low, maxLoops);
    OutgoingAppend(before + gate, after, id);
    OutgoingAppend(before, gate, id);
    OutgoingNone(before, id);
    OutgoingNone(after, id);
    OutgoingAll(gate, id);
    assert Outgoing(before + gate + after, id) == gate;
    assert gate[..1] == [gate[0]];
    assert LastTarget(gate[..1], false) == Some(ok);
    assert LastTarget(gate, false) == LastTarget(gate[..1], false);
  }

  predicate AgentsLinked(nodes: seq<Node>, agents: map<string, int>) {
    forall n :: n in nodes && n.kind == Some("agent") ==> n.id in agents
  }

  /** Every node has a type, and every condition resolves both branches. */
  ghost predicate Buildable(g: Graph) {
    forall n :: n in g.nodes ==>
      && n.kind.Some?
      && (n.kind == Some("condition") ==>
            OkBranch(Outgoing(g.edges, n.id)).Some? && LowBranch(Outgoing(g.edges, n.id)).Some?)
  }

  lemma BuildableBuilds(g: Graph, agents: map<string, int>, n: Node)
    requires Buildable(g) && AgentsLinked(g.nodes, agents) && n in g.nodes
    ensures NodeFnFor(n, Outgoing(g.edges, n.id), agents).Ok?
  {
  }

  lemma BuildableCompiles(g: Graph, agents: map<string, int>)
    requires WellFormed(g.nodes, g.edges) && Buildable(g) && AgentsLinked(g.nodes, agents)
    ensures Compiled(g.nodes, g.edges, agents).Ok?
  {
    forall n | n in g.nodes ensures NodeFnFor(n, Outgoing(g.edges, n.id), agents).Ok? {
      BuildableBuilds(g, agents, n);
    }
    AddedWhenEachBuilds(g.nodes, g.edges, agents);
  }

  ghost predicate Small(g: Graph) {
    Bound(|g.nodes|, LoopBudgets(g.nodes, g.edges)) <= RECURSION_LIMIT
  }

  /** What the stored workflow compiles to, normalised as the compiler does it. */
  ghost function CompiledFrom(g: Graph, agents: map<string, int>): Result<Blueprint, CompileError> {
    Compiled(NormalizedNodes(g.nodes), NormalizedEdges(g.edges), agents)
  }

  /** The workflow compiles, and every run of it ends before the recursion limit, whatever the agents answer. */
  ghost predicate AlwaysFinishes(g: Graph, agents: map<string, int>) {
    && CompiledFrom(g, agents).Ok?
    && forall world :: Invoke(CompiledFrom(g, agents).value, world).Finished?
                    && Invoke(CompiledFrom(g, agents).value, world).state.pos == Halted
  }

  ghost predicate IdsTrimmed(g: Graph) {
    forall n :: n in g.nodes ==> Trimmed(n.id)
  }

  lemma TrimmedIsNormal(g: Graph)
    requires "" !in Ids(g.nodes) && KnownEnds(g.nodes, g.edges) && IdsTrimmed(g)
    ensures IsNormal(g)
  {
    assert forall n :: n in g.nodes ==> n.id in Ids(g.nodes);
  }

  lemma CompiledAsStored(g: Graph, agents: map<string, int>)
    requires IsNormal(g)
    ensures CompiledFrom(g, agents) == Compiled(g.nodes, g.edges, agents)
  {
    NormalizedIdentity(g);
  }

  lemma RankedWorkflowFinishes(g: Graph, agents: map<string, int>, rank: string -> int)
    requires WellFormed(g.nodes, g.edges) && IdsTrimmed(g)
    requires NoFanOut(g.nodes, g.edges) && Ranked(g.nodes, g.edges, rank)
    requires Buildable(g) && AgentsLinked(g.nodes, agents) && Small(g)
    ensures AlwaysFinishes(g, agents)
  {
    TrimmedIsNormal(g);
    CompiledAsStored(g, agents);
    BuildableCompiles(g, agents);
    RankedWorkflow(g.nodes, g.edges, agents, rank);
    GraphFinishes(Compiled(g.nodes, g.edges, agents).value);
  }

  lemma GraphFinishes(graph: Blueprint)
    requires Runnable(graph) && ForwardAcyclic(graph) && StepBound(graph) <= RECURSION_LIMIT
    ensures forall world :: Invoke(graph, world).Finished? && Invoke(graph, world).state.pos == Halted
  {
    forall world ensures Invoke(graph, world).Finished? && Invoke(graph, world).state.pos == Halted {
      SmallGraphsFinish(graph, world);
    }
  }

  // ---------------------------------------------------------------- edges by node position

  ghost function Position(nodes: seq<Node>, id: string): int {
    if exists i :: 0 <= i < |nodes| && nodes[i].id == id
    then var i :| 0 <= i < |nodes| && nodes[i].id == id; i
    else -1
  }

  /** Edge `k` runs from the node at `links[k].0` to the node at `links[k].1`. */
  ghost predicate Linked(g: Graph, links: seq<(nat, nat)>) {
    && |links| == |g.edges|
    && forall k :: 0 <= k < |links| ==>
         && links[k].0 < |g.nodes| && g.edges[k].src == g.nodes[links[k].0].id
         && links[k].1 < |g.nodes| && g.edges[k].dst == g.nodes[links[k].1].id
  }

  /** Unlabelled edges run to a later node, and no two of them leave one node. */
  ghost predicate PlainInOrder(g: Graph, links: seq<(nat, nat)>) {
    && Linked(g, links)
    && (forall k :: 0 <= k < |links| && !Labelled(g.edges[k]) ==> links[k].0 < links[k].1)
    && (forall k, l :: 0 <= k < l < |links| && !Labelled(g.edges[k]) && !Labelled(g.edges[l]) ==>
      links[k].0 != links[l].0)
  }

  /** Ok branches run to a later node. */
  ghost predicate OkInOrder(g: Graph) {
    forall i :: 0 <= i < |g.nodes| && g.nodes[i].kind == Some("condition") ==>
      exists j :: i < j < |g.nodes| && OkBranch(Outgoing(g.edges, g.nodes[i].id)) == Some(g.nodes[j].id)
  }

  ghost predicate InOrder(g: Graph, links: seq<(nat, nat)>) {
    PlainInOrder(g, links) && OkInOrder(g)
  }

  lemma PositionAt(nodes: seq<Node>, i: nat)
    requires UniqueIds(nodes) && i < |nodes|
    ensures Position(nodes, nodes[i].id) == i
  {
  }

  lemma InOrderIsKnown(g: Graph, links: seq<(nat, nat)>)
    requires Linked(g, links)
    ensures KnownEnds(g.nodes, g.edges)
  {
    forall e | e in g.edges ensures e.src in Ids(g.nodes) && e.dst in Ids(g.nodes) {
      var k :| 0 <= k < |links| && g.edges[k] == e;
      assert g.nodes[links[k].0] in g.nodes && g.nodes[links[k].1] in g.nodes;
    }
  }

  lemma InOrderIsRanked(g: Graph, links: seq<(nat, nat)>)
    requires UniqueIds(g.nodes) && InOrder(g, links)
    ensures Ranked(g.nodes, g.edges, id => Position(g.nodes, id))
  {
    forall e | e in g.edges && !Labelled(e) ensures Position(g.nodes, e.src) < Position(g.nodes, e.dst) {
      PlainIncreases(g, links, e);
    }
    forall id | id in IdsOfKind(g.nodes, "condition") && OkBranch(Outgoing(g.edges, id)).Some?
      ensures Position(g.nodes, id) < Position(g.nodes, OkBranch(Outgoing(g.edges, id)).value)
    {
      OkIncreases(g, id);
    }
  }

  lemma PlainIncreases(g: Graph, links: seq<(nat, nat)>, e: Edge)
    requires UniqueIds(g.nodes) && PlainInOrder(g, links) && e in g.edges && !Labelled(e)
    ensures Position(g.nodes, e.src) < Position(g.nodes, e.dst)
  {
    var k :| 0 <= k < |links| && g.edges[k] == e;
    PositionAt(g.nodes, links[k].0);
    PositionAt(g.nodes, links[k].1);
  }

  lemma OkIncreases(g: Graph, id: string)
    requires UniqueIds(g.nodes) && OkInOrder(g) && id in IdsOfKind(g.nodes, "condition")
    ensures OkBranch(Outgoing(g.edges, id)).Some?
    ensures Position(g.nodes, id) < Position(g.nodes, OkBranch(Outgoing(g.edges, id)).value)
  {
    var i :| 0 <= i < |g.nodes| && g.nodes[i].kind == Some("condition") && g.nodes[i].id == id;
    var j :| i < j < |g.nodes| && OkBranch(Outgoing(g.edges, g.nodes[i].id)) == Some(g.nodes[j].id);
    PositionAt(g.nodes, i);
    PositionAt(g.nodes, j);
  }

  lemma InOrderHasNoFanOut(g: Graph, links: seq<(nat, nat)>)
    requires UniqueIds(g.nodes) && InOrder(g, links)
    ensures NoFanOut(g.nodes, g.edges)
  {
    forall a, b | a in g.edges && b in g.edges && a.src == b.src && !Labelled(a) && !Labelled(b) ensures a == b {
      var k :| 0 <= k < |links| && g.edges[k] == a;
      var l :| 0 <= l < |links| && g.edges[l] == b;
      assert links[k].0 == links[l].0;
    }
  }

  ghost predicate NamedAndTyped(g: Graph) {
    forall i :: 0 <= i < |g.nodes| ==> g.nodes[i].id != "" && KnownKind(g.nodes[i])
  }

  /** A workflow whose loops are all low branches back to earlier nodes finishes if its bound is small. */
  lemma InOrderFinishes(g: Graph, links: seq<(nat, nat)>, agents: map<string, int>)
    requires g.nodes != [] && UniqueIds(g.nodes) && InOrder(g, links)
    requires NamedAndTyped(g) && IdsTrimmed(g)
    requires g.nodes[0].kind != Some("end")
    requires g.nodes[0].id !in Destinations(g.edges)
          || forall i :: 0 <= i < |g.nodes| ==> g.nodes[i].id in Destinations(g.edges)
    requires Buildable(g) && AgentsLinked(g.nodes, agents) && Small(g)
    ensures AlwaysFinishes(g, agents)
  {
    InOrderIsKnown(g, links);
    InOrderIsRanked(g, links);
    InOrderHasNoFanOut(g, links);
    EntryIsFirst(g);
    RankedWorkflowFinishes(g, agents, id => Position(g.nodes, id));
  }

  lemma EntryIsFirst(g: Graph)
    requires g.nodes != [] && UniqueIds(g.nodes) && g.nodes[0].kind != Some("end")
    requires g.nodes[0].id !in Destinations(g.edges)
          || forall i :: 0 <= i < |g.nodes| ==> g.nodes[i].id in Destinations(g.edges)
    ensures EntryNode(g.nodes, g.edges) == g.nodes[0].id
    ensures g.nodes[0].id !in IdsOfKind(g.nodes, "end")
  {
    assert IsEntry(g.nodes, Destinations(g.edges), g.nodes[0].id);
  }

  // ---------------------------------------------------------------- the two looping seeds

  lemma DevIds()
    ensures UniqueIds(DevPipeline().nodes)
  {
    var nodes := DevPipeline().nodes;
    assert |nodes[0].id| == 7 && |nodes[1].id| == 7 && nodes[0].id[0] == 'p' && nodes[1].id[0] == 'b';
    assert |nodes[2].id| == 8 && |nodes[3].id| == 8 && nodes[2].id[0] == 'f' && nodes[3].id[0] == 'r';
    assert |nodes[5].id| == 6 && |nodes[7].id| == 6 && nodes[5].id[0] == 't' && nodes[7].id[0] == 'd';
    assert |nodes[4].id| == 11 && |nodes[6].id| == 9;
  }

  function DevLinks(): seq<(nat, nat)> {
    [(0, 1), (1, 2), (2, 3), (3, 4), (4, 5), (4, 1), (5, 6), (6, 7), (6, 1)]
  }

  lemma DevIsLinked()
    ensures Linked(DevPipeline(), DevLinks())
  {
  }

  lemma DevPlain()
    ensures forall k :: 0 <= k < 9 ==> (!Labelled(DevPipeline().edges[k]) <==> k in {0, 1, 2, 3, 6})
  {
  }

  lemma DevPlainInOrder()
    ensures PlainInOrder(DevPipeline(), DevLinks())
  {
    DevIsLinked();
    DevPlain();
  }

  lemma DevNodes()
    ensures NamedAndTyped(DevPipeline())
    ensures forall i :: 0 <= i < 8 ==> (DevPipeline().nodes[i].kind == Some("condition") <==> i == 4 || i == 6)
    ensures DevPipeline().nodes[0].kind != Some("end")
  {
  }

  /** Where the review gate leads: node 4 to 5, or back to 1 at most twice. */
  lemma ReviewGate()
    ensures LeadsByGate(DevPipeline(), 4, 5, 1, 2)
  {
    var start := [Then("planner", "backend"), Then("backend", "frontend"), Then("frontend", "reviewer"),
                  Then("reviewer", "review_gate")];
    var rest := [Then("tester", "test_gate")] + Gate("test_gate", "devops", "backend", 2);
    GateOutgoing(start, rest, "review_gate", "tester", "backend", 2);
    assert DevPipeline().edges == start + Gate("review_gate", "tester", "backend", 2) + rest;
  }

  /** Where the test gate leads: node 6 to 7, or back to 1 at most twice. */
  lemma TestGate()
    ensures LeadsByGate(DevPipeline(), 6, 7, 1, 2)
  {
    var start := [Then("planner", "backend"), Then("backend", "frontend"), Then("frontend", "reviewer"),
                  Then("reviewer", "review_gate")]
                 + Gate("review_gate", "tester", "backend", 2) + [Then("tester", "test_gate")];
    GateOutgoing(start, [], "test_gate", "devops", "backend", 2);
    assert DevPipeline().edges == start + Gate("test_gate", "devops", "backend", 2) + [];
  }

  /** The branches of the condition at position `i` resolve to `ok` and `low`, with `maxLoops` loops. */
  ghost predicate LeadsByGate(g: Graph, i: nat, ok: nat, low: nat, maxLoops: int) {
    && i < |g.nodes| && ok < |g.nodes| && low < |g.nodes|
    && OkBranch(Outgoing(g.edges, g.nodes[i].id)) == Some(g.nodes[ok].id)
    && LowBranch(Outgoing(g.edges, g.nodes[i].id)) == Some(g.nodes[low].id)
    && LoopBudget(Outgoing(g.edges, g.nodes[i].id)) == maxLoops
  }

  /** Conditions resolve, their ok branches forward, when each of them is one of the gates at `i` and `j`. */
  lemma GatesInOrder(g: Graph, i: nat, okI: nat, lowI: nat, maxI: int, j: nat, okJ: nat, lowJ: nat, maxJ: int)
    requires LeadsByGate(g, i, okI, lowI, maxI) && LeadsByGate(g, j, okJ, lowJ, maxJ) && i < okI && j < okJ
    requires forall k :: 0 <= k < |g.nodes| ==>
      g.nodes[k].kind.Some? && (g.nodes[k].kind == Some("condition") ==> k == i || k == j)
    ensures OkInOrder(g) && Buildable(g)
  {
    forall n | n in g.nodes
      ensures n.kind.Some?
      ensures n.kind == Some("condition") ==>
                OkBranch(Outgoing(g.edges, n.id)).Some? && LowBranch(Outgoing(g.edges, n.id)).Some?
    {
      var k :| 0 <= k < |g.nodes| && g.nodes[k] == n;
    }
  }

  lemma DevOkInOrder()
    ensures OkInOrder(DevPipeline()) && Buildable(DevPipeline())
  {
    ReviewGate();
    TestGate();
    DevNodes();
    GatesInOrder(DevPipeline(), 4, 5, 1, 2, 6, 7, 1, 2);
  }

  lemma DevBudgets()
    ensures LoopBudgets(DevPipeline().nodes, DevPipeline().edges) == 4
  {
    var nodes, edges := DevPipeline().nodes, DevPipeline().edges;
    ReviewGate();
    TestGate();
    NoConditionsNoBudget(nodes[..4], edges);
    assert nodes[..5][..4] == nodes[..4] && nodes[..6][..5] == nodes[..5];
    assert nodes[..7][..6] == nodes[..6] && nodes[..8][..7] == nodes[..7] && nodes[..8] == nodes;
    assert LoopBudgets(nodes[..5], edges) == 2;
    assert LoopBudgets(nodes[..6], edges) == 2;
    assert LoopBudgets(nodes[..7], edges) == 4;
  }

  lemma DevEntry()
    ensures DevPipeline().nodes[0].id !in Destinations(DevPipeline().edges)
  {
    forall e | e in DevPipeline().edges ensures e.dst[0] != 'p' {
    }
  }

  /** The development pipeline takes at most 40 node steps. */
  lemma DevPipelineFinishes(agents: map<string, int>)
    requires AgentsLinked(DevPipeline().nodes, agents)
    ensures Bound(|DevPipeline().nodes|, LoopBudgets(DevPipeline().nodes, DevPipeline().edges)) == 40
    ensures AlwaysFinishes(DevPipeline(), agents)
  {
    DevIds();
    DevNodes();
    DevPlainInOrder();
    DevOkInOrder();
    DevBudgets();
    DevEntry();
    DevIdsTrimmed();
    InOrderFinishes(DevPipeline(), DevLinks(), agents);
  }

  predicate IsLetter(c: char) {
    'a' <= c <= 'z'
  }

  lemma LettersAreTrimmed(id: string)
    requires id != "" && IsLetter(id[0]) && IsLetter(id[|id| - 1])
    ensures Trimmed(id)
  {
  }

  lemma DevIdsTrimmed()
    ensures IdsTrimmed(DevPipeline())
  {
    var nodes := DevPipeline().nodes;
    forall n | n in nodes ensures Trimmed(n.id) {
      var i :| 0 <= i < 8 && nodes[i] == n;
      LettersAreTrimmed(nodes[i].id);
    }
  }

  lemma TriageNodes()
    ensures NamedAndTyped(SupportTriage()) && UniqueIds(SupportTriage().nodes)
    ensures forall i :: 0 <= i < 4 ==> (SupportTriage().nodes[i].kind == Some("condition") <==> i == 1)
    ensures SupportTriage().nodes[0].kind != Some("end")
  {
    var nodes := SupportTriage().nodes;
    assert |nodes[0].id| == 6 && |nodes[1].id| == 16 && |nodes[2].id| == 10 && |nodes[3].id| == 3;
  }

  lemma TriageIdsTrimmed()
    ensures IdsTrimmed(SupportTriage())
  {
    var nodes := SupportTriage().nodes;
    forall n | n in nodes ensures Trimmed(n.id) {
      var i :| 0 <= i < 4 && nodes[i] == n;
      LettersAreTrimmed(nodes[i].id);
    }
  }

  lemma TriageGate()
    ensures LeadsByGate(SupportTriage(), 1, 2, 0, 3)
  {
    GateOutgoing([Then("triage", "confidence_check")], [Then("specialist", "end")],
                 "confidence_check", "specialist", "triage", 3);
  }

  lemma TriagePlainInOrder()
    ensures PlainInOrder(SupportTriage(), [(0, 1), (1, 2), (1, 0), (2, 3)])
  {
    assert forall k :: 0 <= k < 4 ==> (!Labelled(SupportTriage().edges[k]) <==> k == 0 || k == 3);
  }

  /** Every node of the triage loop is entered by some edge, so the first listed one is the entry. */
  lemma TriageEntry()
    ensures forall i :: 0 <= i < 4 ==> SupportTriage().nodes[i].id in Destinations(SupportTriage().edges)
  {
    var edges := SupportTriage().edges;
    assert edges[0] in edges && edges[1] in edges && edges[2] in edges && edges[3] in edges;
  }

  lemma TriageBudgets()
    ensures LoopBudgets(SupportTriage().nodes, SupportTriage().edges) == 3
  {
    var nodes, edges := SupportTriage().nodes, SupportTriage().edges;
    TriageGate();
    assert nodes[..2][..1] == nodes[..1] && nodes[..3][..2] == nodes[..2] && nodes[..4][..3] == nodes[..3];
    assert nodes[..4] == nodes;
    NoConditionsNoBudget(nodes[..1], edges);
    assert LoopBudgets(nodes[..2], edges) == 3;
  }

  /** The triage loop takes at most 16 node steps. */
  lemma SupportTriageFinishes(agents: map<string, int>)
    requires AgentsLinked(SupportTriage().nodes, agents)
    ensures Bound(|SupportTriage().nodes|, LoopBudgets(SupportTriage().nodes, SupportTriage().edges)) == 16
    ensures AlwaysFinishes(SupportTriage(), agents)
  {
    TriageNodes();
    TriageIdsTrimmed();
    TriageGate();
    GatesInOrder(SupportTriage(), 1, 2, 0, 3, 1, 2, 0, 3);
    TriagePlainInOrder();
    TriageEntry();
    TriageBudgets();
    InOrderFinishes(SupportTriage(), [(0, 1), (1, 2), (1, 0), (2, 3)], agents);
  }
}
