/** Compiling a workflow that went through the editor: the blueprint as a whole, and when it is the same. */
module SavedBlueprint {
  import opened Prelude
  import opened WorkflowGraph
  import opened BranchResolution
  import opened GraphBuilder
  import opened CompiledWorkflow
  import opened Editor
  import opened EditorRoundTrip
  import opened SavedWorkflow

  /** Every node has a type or none; an empty one becomes agent in the editor. */
  ghost predicate TypesNamed(g: Graph) {
    forall n :: n in g.nodes ==> n.kind != Some("")
  }

  // ---------------------------------------------------------------- plain edges

  lemma SameWiring(nodes: seq<Node>, saved: seq<Node>, e: Edge)
    requires UniqueIds(nodes) && UniqueIds(saved)
    requires IdsOfKind(saved, "condition") == IdsOfKind(nodes, "condition")
    requires IdsOfKind(saved, "end") == IdsOfKind(nodes, "end")
    ensures WiredEdge(saved, e) == WiredEdge(nodes, e)
  {
    EndById(nodes, e.src);
    EndById(saved, e.src);
  }

  lemma SavedWiring(g: Graph, listed: map<string, int>, e: Edge)
    requires CleanIds(g)
    ensures WiredEdge(RoundTrip(g, listed).nodes, e) == WiredEdge(g.nodes, e)
  {
    SavedKinds(g, listed, "condition");
    SavedKinds(g, listed, "end");
    SavedIds(g, listed);
    SameWiring(g.nodes, RoundTrip(g, listed).nodes, e);
  }

  /** In a safe workflow an edge is wired as before when it comes back normalised. */
  lemma NormalisedWiring(g: Graph, e: Edge)
    requires EditorSafe(g) && e in g.edges
    ensures WiredEdge(g.nodes, Normalised(g.nodes, e)) == WiredEdge(g.nodes, e)
  {
    DrawnByKind(g, e);
  }

  lemma SavedWiredEdges(g: Graph, listed: map<string, int>)
    requires EditorSafe(g)
    ensures WiredEdges(RoundTrip(g, listed).nodes, RoundTrip(g, listed).edges) == WiredEdges(g.nodes, g.edges)
  {
    var saved := RoundTrip(g, listed);
    forall e | e in g.edges
      ensures Normalised(g.nodes, e) in saved.edges
      ensures WiredEdge(saved.nodes, Normalised(g.nodes, e)) == WiredEdge(g.nodes, e)
    {
      SafeEdgesSurvive(g, listed, e);
      SavedWiring(g, listed, Normalised(g.nodes, e));
      NormalisedWiring(g, e);
    }
    forall s | s in saved.edges ensures exists e :: e in g.edges && Normalised(g.nodes, e) == s {
      SavedEdges(g, listed, s);
    }
  }

  // ---------------------------------------------------------------- closing edges, routes, entry

  lemma SavedSources(g: Graph, listed: map<string, int>)
    requires EditorSafe(g)
    ensures Sources(RoundTrip(g, listed).edges) == Sources(g.edges)
  {
    forall e | e in g.edges ensures e.src in Sources(RoundTrip(g, listed).edges) {
      SafeEdgesSurvive(g, listed, e);
    }
    forall s | s in RoundTrip(g, listed).edges ensures s.src in Sources(g.edges) {
      SavedEdgeOrigin(g, listed, s);
    }
  }

  lemma LeftOpenExactly(nodes: seq<Node>, edges: seq<Edge>, n: Node)
    requires UniqueIds(nodes) && n in nodes
    ensures LeftOpen(nodes, edges, n)
       <==> n.id !in Sources(edges) + IdsOfKind(nodes, "end") + IdsOfKind(nodes, "condition")
  {
    NodeByUniqueId(nodes, n);
    EndById(nodes, n.id);
  }

  lemma ClosingEdgesExactly(nodes: seq<Node>, edges: seq<Edge>, w: (string, Target))
    requires UniqueIds(nodes)
    ensures w in ClosingEdges(nodes, edges)
       <==> && w.1 == Finish && w.0 in Ids(nodes)
            && w.0 !in Sources(edges) + IdsOfKind(nodes, "end") + IdsOfKind(nodes, "condition")
  {
    forall n | n in nodes
      ensures LeftOpen(nodes, edges, n)
         <==> n.id !in Sources(edges) + IdsOfKind(nodes, "end") + IdsOfKind(nodes, "condition")
    {
      LeftOpenExactly(nodes, edges, n);
    }
  }

  lemma SavedClosingEdges(g: Graph, listed: map<string, int>)
    requires EditorSafe(g)
    ensures ClosingEdges(RoundTrip(g, listed).nodes, RoundTrip(g, listed).edges) == ClosingEdges(g.nodes, g.edges)
  {
    var saved := RoundTrip(g, listed);
    SavedIds(g, listed);
    SavedSources(g, listed);
    SavedKinds(g, listed, "condition");
    SavedKinds(g, listed, "end");
    forall w ensures w in ClosingEdges(saved.nodes, saved.edges) <==> w in ClosingEdges(g.nodes, g.edges) {
      ClosingEdgesExactly(g.nodes, g.edges, w);
      ClosingEdgesExactly(saved.nodes, saved.edges, w);
    }
  }

  lemma SavedTargets(g: Graph, listed: map<string, int>, id: string)
    requires EditorSafe(g)
    ensures Targets(Outgoing(RoundTrip(g, listed).edges, id)) == Targets(Outgoing(g.edges, id))
  {
    var saved := RoundTrip(g, listed);
    forall e | e in g.edges && e.src == id ensures exists s :: s in saved.edges && s.src == id && s.dst == e.dst {
      SafeEdgesSurvive(g, listed, e);
      assert Normalised(g.nodes, e).src == id && Normalised(g.nodes, e).dst == e.dst;
    }
    forall s | s in saved.edges && s.src == id ensures exists e :: e in g.edges && e.src == id && e.dst == s.dst {
      SavedEdgeOrigin(g, listed, s);
    }
  }

  lemma SavedRouting(g: Graph, listed: map<string, int>, id: string)
    requires EditorSafe(g) && id in IdsOfKind(g.nodes, "condition")
    ensures RoutingFor(Outgoing(RoundTrip(g, listed).edges, id)) == RoutingFor(Outgoing(g.edges, id))
  {
    ConditionSurvives(g, listed, id);
    SavedTargets(g, listed, id);
  }

  lemma SameRoutes(conditions: set<string>, a: seq<Edge>, b: seq<Edge>)
    requires forall id :: id in conditions ==> RoutingFor(Outgoing(a, id)) == RoutingFor(Outgoing(b, id))
    ensures Routes(conditions, a) == Routes(conditions, b)
  {
  }

  lemma SavedRoutes(g: Graph, listed: map<string, int>)
    requires EditorSafe(g)
    ensures Routes(IdsOfKind(RoundTrip(g, listed).nodes, "condition"), RoundTrip(g, listed).edges)
         == Routes(IdsOfKind(g.nodes, "condition"), g.edges)
  {
    SavedKinds(g, listed, "condition");
    forall id | id in IdsOfKind(g.nodes, "condition")
      ensures RoutingFor(Outgoing(RoundTrip(g, listed).edges, id)) == RoutingFor(Outgoing(g.edges, id))
    {
      SavedRouting(g, listed, id);
    }
    SameRoutes(IdsOfKind(g.nodes, "condition"), RoundTrip(g, listed).edges, g.edges);
  }

  lemma SavedEntryPoint(g: Graph, listed: map<string, int>)
    requires EditorSafe(g)
    ensures var saved := RoundTrip(g, listed);
      EntryPoint(saved.nodes, EntryNode(saved.nodes, saved.edges)) == EntryPoint(g.nodes, EntryNode(g.nodes, g.edges))
  {
    SavedEntry(g, listed);
    SavedIds(g, listed);
    SavedKinds(g, listed, "end");
    EndById(g.nodes, EntryNode(g.nodes, g.edges));
    EndById(RoundTrip(g, listed).nodes, EntryNode(g.nodes, g.edges));
  }

  // ---------------------------------------------------------------- node functions

  /** What the function of a node becomes: three loops, a field and a channel where none was named. */
  function AfterSaving(n: Node, fn: NodeFn): NodeFn {
    match fn
    case ConditionFn(field, threshold, low, ok, _) =>
      ConditionFn(if field == "" then "confidence" else field, threshold, low, ok, DEFAULT_MAX_LOOPS)
    case ChannelFn(channel) => ChannelFn(if n.channel.GetOr("") == "" then "telegram" else channel)
    case _ => fn
  }

  ghost function FnAfterSaving(n: Node, fn: Result<Option<NodeFn>, CompileError>)
    : Result<Option<NodeFn>, CompileError>
  {
    match fn
    case Ok(Some(f)) => Ok(Some(AfterSaving(n, f)))
    case _ => fn
  }

  /** What the editor makes of one node's settings, its branches apart. */
  lemma SettingsCompiled(n: Node, i: nat, listed: map<string, int>, agents: map<string, int>,
                         before: seq<Edge>, after: seq<Edge>)
    requires n.id != "" && n.kind != Some("")
    requires n.kind == Some("condition") ==>
      OkBranch(after) == OkBranch(before) && LowBranch(after) == LowBranch(before)
        && LoopBudget(after) == DEFAULT_MAX_LOOPS
    ensures NodeFnFor(ReadNode(DrawNode(n, i, listed)), after, agents) == FnAfterSaving(n, NodeFnFor(n, before, agents))
  {
  }

  /** The node functions of a blueprint after saving. */
  ghost function FnsAfterSaving(byId: map<string, Node>, fns: map<string, NodeFn>): map<string, NodeFn> {
    map id | id in fns && id in byId :: AfterSaving(byId[id], fns[id])
  }

  ghost function AllAfterSaving(byId: map<string, Node>, added: Result<map<string, NodeFn>, CompileError>)
    : Result<map<string, NodeFn>, CompileError>
  {
    match added
    case Ok(fns) => Ok(FnsAfterSaving(byId, fns))
    case Err(error) => Err(error)
  }

  lemma FnsUpdated(byId: map<string, Node>, n: Node, fns: map<string, NodeFn>, fn: NodeFn)
    requires n.id in byId && byId[n.id] == n
    ensures FnsAfterSaving(byId, fns[n.id := fn]) == FnsAfterSaving(byId, fns)[n.id := AfterSaving(n, fn)]
    ensures n.id in FnsAfterSaving(byId, fns) <==> n.id in fns
  {
  }

  lemma AddOneAfterSaving(
    byId: map<string, Node>, n: Node,
    before: Result<map<string, NodeFn>, CompileError>, fn: Result<Option<NodeFn>, CompileError>)
    requires n.id in byId && byId[n.id] == n
    ensures AddOne(AllAfterSaving(byId, before), n.id, FnAfterSaving(n, fn))
         == AllAfterSaving(byId, AddOne(before, n.id, fn))
  {
    if before.Ok? && fn.Ok? && fn.value.Some? {
      FnsUpdated(byId, n, before.value, fn.value.value);
    }
  }

  /** The node at position `i` compiles as saving it demands. */
  ghost predicate FnAlike(g: Graph, saved: Graph, agents: map<string, int>, i: nat) {
    && i < |g.nodes| && i < |saved.nodes| && saved.nodes[i].id == g.nodes[i].id
    && NodeFnFor(saved.nodes[i], Outgoing(saved.edges, saved.nodes[i].id), agents)
       == FnAfterSaving(g.nodes[i], NodeFnFor(g.nodes[i], Outgoing(g.edges, g.nodes[i].id), agents))
  }

  lemma SavedFn(g: Graph, listed: map<string, int>, agents: map<string, int>, i: nat)
    requires CleanIds(g) && TypesNamed(g) && i < |g.nodes| && i < |RoundTrip(g, listed).nodes|
    ensures FnAlike(g, RoundTrip(g, listed), agents, i)
  {
    var n, saved := g.nodes[i], RoundTrip(g, listed);
    assert n in g.nodes;
    NodesReadBack(g, listed);
    SavedNodeAt(g, listed, i);
    if n.kind == Some("condition") {
      assert n.id in IdsOfKind(g.nodes, "condition");
      ConditionSurvives(g, listed, n.id);
    }
    SettingsCompiled(n, i, listed, agents, Outgoing(g.edges, n.id), Outgoing(saved.edges, n.id));
  }

  ghost predicate AddedAlike(g: Graph, saved: Graph, agents: map<string, int>, k: nat)
    requires k <= |g.nodes| && k <= |saved.nodes|
  {
    AddedNodes(saved.nodes[..k], saved.edges, agents)
      == AllAfterSaving(NodeById(g.nodes), AddedNodes(g.nodes[..k], g.edges, agents))
  }

  lemma NextAddedAlike(g: Graph, saved: Graph, agents: map<string, int>, k: nat)
    requires UniqueIds(g.nodes) && FnAlike(g, saved, agents, k) && AddedAlike(g, saved, agents, k)
    ensures AddedAlike(g, saved, agents, k + 1)
  {
    var n := g.nodes[k];
    AddedByOne(g.nodes, g.edges, agents, k);
    AddedByOne(saved.nodes, saved.edges, agents, k);
    NodeByUniqueId(g.nodes, n);
    AddOneAfterSaving(NodeById(g.nodes), n, AddedNodes(g.nodes[..k], g.edges, agents),
      NodeFnFor(n, Outgoing(g.edges, n.id), agents));
  }

  lemma NoneAddedAlike(g: Graph, saved: Graph, agents: map<string, int>)
    ensures AddedAlike(g, saved, agents, 0)
  {
    assert AllAfterSaving(NodeById(g.nodes), Ok(map[])) == Ok(map[]);
  }

  lemma {:induction false} AllAddedAlike(g: Graph, saved: Graph, agents: map<string, int>, k: nat)
    requires UniqueIds(g.nodes) && |saved.nodes| == |g.nodes| && k <= |g.nodes|
    requires forall i :: 0 <= i < |g.nodes| ==> FnAlike(g, saved, agents, i)
    ensures AddedAlike(g, saved, agents, k)
  {
    if k > 0 {
      AllAddedAlike(g, saved, agents, k - 1);
      assert FnAlike(g, saved, agents, k - 1);
      NextAddedAlike(g, saved, agents, k - 1);
    } else {
      NoneAddedAlike(g, saved, agents);
    }
  }

  // ---------------------------------------------------------------- the blueprint

  /** What a compiled workflow becomes when the editor saves the stored one. */
  ghost function BlueprintAfterSaving(nodes: seq<Node>, compiled: Result<Blueprint, CompileError>)
    : Result<Blueprint, CompileError>
  {
    match compiled
    case Ok(graph) => Ok(graph.(nodes := FnsAfterSaving(NodeById(nodes), graph.nodes)))
    case Err(error) => Err(error)
  }

  lemma SavedNodesAdded(g: Graph, listed: map<string, int>, agents: map<string, int>)
    requires CleanIds(g) && TypesNamed(g)
    ensures |RoundTrip(g, listed).nodes| == |g.nodes|
    ensures AddedNodes(RoundTrip(g, listed).nodes, RoundTrip(g, listed).edges, agents)
         == AllAfterSaving(NodeById(g.nodes), AddedNodes(g.nodes, g.edges, agents))
  {
    var saved := RoundTrip(g, listed);
    SavedCount(g, listed);
    assert g.nodes[..|g.nodes|] == g.nodes && saved.nodes[..|g.nodes|] == saved.nodes;
    forall i | 0 <= i < |g.nodes| ensures FnAlike(g, saved, agents, i) {
      SavedFn(g, listed, agents, i);
    }
    AllAddedAlike(g, saved, agents, |g.nodes|);
  }

  /**
   A safe workflow compiles after saving exactly if it did before, or fails with the same error. Edges, closing
   edges, routes and entry are the same; node functions differ at most in their loops, field and channel.
   */
  lemma CompiledAfterSaving(g: Graph, listed: map<string, int>, agents: map<string, int>)
    requires EditorSafe(g) && TypesNamed(g)
    ensures Compiled(RoundTrip(g, listed).nodes, RoundTrip(g, listed).edges, agents)
         == BlueprintAfterSaving(g.nodes, Compiled(g.nodes, g.edges, agents))
  {
    SavedNodesAdded(g, listed, agents);
    SavedWiredEdges(g, listed);
    SavedClosingEdges(g, listed);
    SavedRoutes(g, listed);
    SavedEntryPoint(g, listed);
  }

  /** Nothing that the editor would fill in or reset. */
  predicate KeepsFn(n: Node, edges: seq<Edge>) {
    && (n.kind == Some("condition") ==> n.field != Some("") && LoopBudget(Outgoing(edges, n.id)) == DEFAULT_MAX_LOOPS)
    && (n.kind == Some("channel") ==> n.channel.GetOr("") != "")
  }

  lemma KeepsFnExactly(n: Node, edges: seq<Edge>, agents: map<string, int>, fn: NodeFn)
    requires Builds(n, edges, agents, fn)
    ensures AfterSaving(n, fn) == fn <==> KeepsFn(n, edges)
  {
  }

  /** Saving leaves a safe workflow that compiles as it runs exactly if no setting of it is filled in or reset. */
  lemma SavingKeepsBlueprintExactly(g: Graph, listed: map<string, int>, agents: map<string, int>)
    requires EditorSafe(g) && TypesNamed(g) && Compiled(g.nodes, g.edges, agents).Ok?
    ensures Compiled(RoundTrip(g, listed).nodes, RoundTrip(g, listed).edges, agents)
         == Compiled(g.nodes, g.edges, agents)
       <==> forall n :: n in g.nodes ==> KeepsFn(n, g.edges)
  {
    CompiledAfterSaving(g, listed, agents);
    SameFnsExactly(g, agents);
    SameBlueprintExactly(g.nodes, Compiled(g.nodes, g.edges, agents));
  }

  lemma SameBlueprintExactly(nodes: seq<Node>, compiled: Result<Blueprint, CompileError>)
    requires compiled.Ok?
    ensures BlueprintAfterSaving(nodes, compiled) == compiled
       <==> FnsAfterSaving(NodeById(nodes), compiled.value.nodes) == compiled.value.nodes
  {
  }

  /** The function at `id`, if there is one, stays as it is. */
  ghost predicate KeepsFnAt(byId: map<string, Node>, fns: map<string, NodeFn>, id: string) {
    id in fns ==> id in byId && AfterSaving(byId[id], fns[id]) == fns[id]
  }

  lemma SameFnsAtAllIds(byId: map<string, Node>, fns: map<string, NodeFn>)
    ensures FnsAfterSaving(byId, fns) == fns <==> forall id :: KeepsFnAt(byId, fns, id)
  {
    if FnsAfterSaving(byId, fns) == fns {
      forall id ensures KeepsFnAt(byId, fns, id) {
        assert id in fns ==> id in FnsAfterSaving(byId, fns);
      }
    }
    if forall id :: KeepsFnAt(byId, fns, id) {
      forall id | id in fns ensures id in FnsAfterSaving(byId, fns) && FnsAfterSaving(byId, fns)[id] == fns[id] {
        assert KeepsFnAt(byId, fns, id);
      }
    }
  }

  lemma KeepsFnAtNode(g: Graph, agents: map<string, int>, n: Node)
    requires UniqueIds(g.nodes) && Compiled(g.nodes, g.edges, agents).Ok? && n in g.nodes && KnownKind(n)
    ensures KeepsFnAt(NodeById(g.nodes), Compiled(g.nodes, g.edges, agents).value.nodes, n.id) <==> KeepsFn(n, g.edges)
  {
    NodeByUniqueId(g.nodes, n);
    NodeOfCompiled(g.nodes, g.edges, agents, n);
    KeepsFnExactly(n, g.edges, agents, Compiled(g.nodes, g.edges, agents).value.nodes[n.id]);
  }

  lemma SameFnsExactly(g: Graph, agents: map<string, int>)
    requires UniqueIds(g.nodes) && Compiled(g.nodes, g.edges, agents).Ok?
    ensures var fns := Compiled(g.nodes, g.edges, agents).value.nodes;
      FnsAfterSaving(NodeById(g.nodes), fns) == fns <==> forall n :: n in g.nodes ==> KeepsFn(n, g.edges)
  {
    var byId, fns := NodeById(g.nodes), Compiled(g.nodes, g.edges, agents).value.nodes;
    SameFnsAtAllIds(byId, fns);
    if forall id :: KeepsFnAt(byId, fns, id) {
      forall n | n in g.nodes ensures KeepsFn(n, g.edges) {
        if KnownKind(n) {
          assert KeepsFnAt(byId, fns, n.id);
          KeepsFnAtNode(g, agents, n);
        }
      }
    }
    if forall n :: n in g.nodes ==> KeepsFn(n, g.edges) {
      forall id ensures KeepsFnAt(byId, fns, id) {
        if id in fns {
          var n := OriginIsKnown(g.nodes, g.edges, agents, id);
          KeepsFnAtNode(g, agents, n);
        }
      }
    }
  }
}
