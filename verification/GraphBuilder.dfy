/** Compiling the stored JSON into a state graph (graph_builder.py). */
module GraphBuilder {
  import opened Prelude
  import opened WorkflowGraph
  import opened BranchResolution

  /** What a node does when it runs, with everything its closure captures. */
  datatype NodeFn =
    | AgentFn(agent: int)
    | ChannelFn(channel: string)
    | ConditionFn(field: string, threshold: real, low: string, ok: string, maxLoops: int)
    | EndFn

  datatype Target = To(id: string) | Finish

  /** `add_conditional_edges`: the route to take when `pending_route` is empty, and the permitted ones. */
  datatype Routing = Routing(fallback: string, mapping: set<string>)

  datatype CompileError =
    | NoNodes
    | MissingAgent(node: string)
    | MissingBranches(node: string)
    | DuplicateNode(node: string)

  /** The contents of a state graph. */
  datatype Blueprint = Blueprint(
    nodes: map<string, NodeFn>,
    edges: set<(string, Target)>,
    routes: map<string, Routing>,
    entry: Option<string>)

  // ---------------------------------------------------------------- what compiling means

  /** The function for one node; a node of unknown type gets none. */
  function NodeFnFor(node: Node, branches: seq<Edge>, agents: map<string, int>): Result<Option<NodeFn>, CompileError> {
    var kind := node.kind.GetOr("agent");
    if kind == "agent" then
      if node.id in agents then Ok(Some(AgentFn(agents[node.id]))) else Err(MissingAgent(node.id))
    else if kind == "channel" then
      Ok(Some(ChannelFn(node.channel.GetOr("internal"))))
    else if kind == "condition" then
      match (LowBranch(branches), OkBranch(branches))
      case (Some(low), Some(ok)) =>
        Ok(Some(ConditionFn(node.field.GetOr("confidence"), node.threshold.GetOr(0.7), low, ok, LoopBudget(branches))))
      case _ => Err(MissingBranches(node.id))
    else if kind == "end" then Ok(Some(EndFn))
    else Ok(None)
  }

  /** One more node, given what the nodes before it have come to. */
  function AddOne(before: Result<map<string, NodeFn>, CompileError>, id: string, fn: Result<Option<NodeFn>,
                  CompileError>)
    : Result<map<string, NodeFn>, CompileError>
  {
    var known :- before;
    var f :- fn;
    if f.None? then Ok(known)
    else if id in known then Err(DuplicateNode(id))
    else Ok(known[id := f.value])
  }

  /** The nodes added one after the other; the first failure wins. */
  function AddedNodes(nodes: seq<Node>, edges: seq<Edge>, agents: map<string, int>)
    : Result<map<string, NodeFn>, CompileError>
  {
    if nodes == [] then Ok(map[])
    else
      var node := nodes[|nodes| - 1];
      AddOne(AddedNodes(nodes[..|nodes| - 1], edges, agents), node.id,
        NodeFnFor(node, Outgoing(edges, node.id), agents))
  }

  lemma AddedByOne(nodes: seq<Node>, edges: seq<Edge>, agents: map<string, int>, k: nat)
    requires k < |nodes|
    ensures AddedNodes(nodes[..k + 1], edges, agents)
         == AddOne(AddedNodes(nodes[..k], edges, agents), nodes[k].id,
                   NodeFnFor(nodes[k], Outgoing(edges, nodes[k].id), agents))
  {
    assert nodes[..k + 1][..k] == nodes[..k];
  }

  /** The graph edge that one stored edge becomes, if any. */
  ghost function WiredEdge(nodes: seq<Node>, e: Edge): Option<(string, Target)> {
    if e.src in IdsOfKind(nodes, "condition") || Labelled(e) then None
    else if e.dst in IdsOfKind(nodes, "end") then Some((e.src, Finish))
    else if e.src in NodeById(nodes) && NodeById(nodes)[e.src].kind == Some("end") then None
    else Some((e.src, To(e.dst)))
  }

  ghost function WiredEdges(nodes: seq<Node>, edges: seq<Edge>): set<(string, Target)> {
    set e | e in edges && WiredEdge(nodes, e).Some? :: WiredEdge(nodes, e).value
  }

  /** A node that no stored edge leaves and that is neither an end nor a condition leads to END. */
  ghost predicate LeftOpen(nodes: seq<Node>, edges: seq<Edge>, n: Node) {
    n.id !in Sources(edges) && n.kind != Some("end") && n.id !in IdsOfKind(nodes, "condition")
  }

  ghost function ClosingEdges(nodes: seq<Node>, edges: seq<Edge>): set<(string, Target)> {
    set n | n in nodes && LeftOpen(nodes, edges, n) :: (n.id, Finish)
  }

  lemma WiredEdgesAppend(nodes: seq<Node>, edges: seq<Edge>, e: Edge)
    ensures WiredEdges(nodes, edges + [e])
         == WiredEdges(nodes, edges) + if WiredEdge(nodes, e).Some? then {WiredEdge(nodes, e).value} else {}
  {
    assert forall x :: x in edges + [e] <==> x in edges || x == e;
  }

  ghost function RoutingFor(branches: seq<Edge>): Option<Routing> {
    if OkBranch(branches).Some? && LowBranch(branches).Some?
    then Some(Routing(OkBranch(branches).value, Targets(branches)))
    else None
  }

  ghost function Routes(conditions: set<string>, edges: seq<Edge>): map<string, Routing> {
    map id | id in conditions && RoutingFor(Outgoing(edges, id)).Some? :: RoutingFor(Outgoing(edges, id)).value
  }

  lemma RoutesExtend(conditions: set<string>, edges: seq<Edge>, id: string)
    requires id !in conditions
    ensures Routes(conditions + {id}, edges)
         == match RoutingFor(Outgoing(edges, id))
            case Some(routing) => Routes(conditions, edges)[id := routing]
            case None => Routes(conditions, edges)
  {
  }

  ghost function EntryPoint(nodes: seq<Node>, entry: string): Option<string> {
    if entry != "" && !(entry in NodeById(nodes) && NodeById(nodes)[entry].kind == Some("end"))
    then Some(entry) else None
  }

  /** The graph that `_compile_graph` builds from normalized nodes and edges. */
  ghost function Compiled(nodes: seq<Node>, edges: seq<Edge>, agents: map<string, int>)
    : Result<Blueprint, CompileError>
  {
    if nodes == [] then Err(NoNodes) else
    var added :- AddedNodes(nodes, edges, agents);
    Ok(WiredGraph(nodes, edges, added))
  }

  /** What `_wire_edges` makes of the nodes added. */
  ghost function WiredGraph(nodes: seq<Node>, edges: seq<Edge>, added: map<string, NodeFn>): Blueprint {
    Blueprint(
      added,
      WiredEdges(nodes, edges) + ClosingEdges(nodes, edges),
      Routes(IdsOfKind(nodes, "condition"), edges),
      EntryPoint(nodes, EntryNode(nodes, edges)))
  }

  // ---------------------------------------------------------------- the builder and the compiler

  /** The graph object that the compiler fills in. */
  class StateGraph {
    var nodes: map<string, NodeFn>
    var edges: set<(string, Target)>
    var routes: map<string, Routing>
    var entry: Option<string>

    constructor ()
      ensures View() == Blueprint(map[], {}, map[], None)
    {
      nodes, edges, routes, entry := map[], {}, map[], None;
    }

    ghost function View(): Blueprint
      reads this
    {
      Blueprint(nodes, edges, routes, entry)
    }

    /** Refuses a name that is taken. */
    method AddNode(id: string, fn: NodeFn) returns (added: bool)
      modifies this`nodes
      ensures added == (id !in old(nodes))
      ensures nodes == if added then old(nodes)[id := fn] else old(nodes)
    {
      added := id !in nodes;
      if added {
        nodes := nodes[id := fn];
      }
    }

    method AddEdge(src: string, target: Target)
      modifies this`edges
      ensures edges == old(edges) + {(src, target)}
    {
      edges := edges + {(src, target)};
    }

    method AddConditionalEdges(id: string, fallback: string, mapping: set<string>)
      modifies this`routes
      ensures routes == old(routes)[id := Routing(fallback, mapping)]
    {
      routes := routes[id := Routing(fallback, mapping)];
    }

    method SetEntryPoint(id: string)
      modifies this`entry
      ensures entry == Some(id)
    {
      entry := Some(id);
    }
  }

  /** `_compile_graph` */
  method CompileGraph(graphJson: Graph, agents: map<string, int>)
    returns (graph: StateGraph, error: Option<CompileError>)
    ensures fresh(graph)
    ensures match Compiled(NormalizedNodes(graphJson.nodes), NormalizedEdges(graphJson.edges), agents)
            case Ok(blueprint) => error == None && graph.View() == blueprint
            case Err(failure) => error == Some(failure)
  {
    graph := new StateGraph();
    var nodes := NormalizeNodes(graphJson.nodes);
    var edges := NormalizeEdges(graphJson.edges);
    if nodes == [] {
      return graph, Some(NoNodes);
    }
    var outgoing := OutgoingMap(edges);
    var entry := PickEntryNode(nodes, edges);
    error := AddNodes(graph, nodes, edges, outgoing, agents);
    CompiledFromNodes(nodes, edges, agents);
    if error == None {
      WireEdges(graph, nodes, edges, outgoing, entry);
    }
  }

  /** Once there are nodes, compiling fails only where adding them fails. */
  lemma CompiledFromNodes(nodes: seq<Node>, edges: seq<Edge>, agents: map<string, int>)
    requires nodes != []
    ensures match AddedNodes(nodes, edges, agents)
            case Ok(added) => Compiled(nodes, edges, agents) == Ok(WiredGraph(nodes, edges, added))
            case Err(failure) => Compiled(nodes, edges, agents) == Err(failure)
  {
  }

  /** The node loop of `_compile_graph`. */
  method AddNodes(graph: StateGraph, nodes: seq<Node>, ghost edges: seq<Edge>,
                  outgoing: map<string, seq<Edge>>, agents: map<string, int>)
    returns (error: Option<CompileError>)
    requires graph.nodes == map[]
    requires forall id :: Branches(outgoing, id) == Outgoing(edges, id)
    modifies graph`nodes
    ensures match AddedNodes(nodes, edges, agents)
            case Ok(added) => error == None && graph.nodes == added
            case Err(failure) => error == Some(failure)
  {
    for i := 0 to |nodes|
      invariant AddedNodes(nodes[..i], edges, agents) == Ok(graph.nodes)
    {
      var node := nodes[i];
      var fn := BuildNode(node, Branches(outgoing, node.id), agents);
      AddedByOne(nodes, edges, agents, i);
      if fn.Err? {
        FirstFailureWins(nodes, i + 1, edges, agents);
        return Some(fn.error);
      }
      if fn.value.Some? {
        var added := graph.AddNode(node.id, fn.value.value);
        if !added {
          FirstFailureWins(nodes, i + 1, edges, agents);
          return Some(DuplicateNode(node.id));
        }
      }
    }
    assert nodes[..|nodes|] == nodes;
    error := None;
  }

  /** The branches on the type of a node inside the node loop. */
  method BuildNode(node: Node, branches: seq<Edge>, agents: map<string, int>)
    returns (fn: Result<Option<NodeFn>, CompileError>)
    ensures fn == NodeFnFor(node, branches, agents)
  {
    var kind := node.kind.GetOr("agent");
    if kind == "agent" {
      if node.id !in agents {
        return Err(MissingAgent(node.id));
      }
      return Ok(Some(AgentFn(agents[node.id])));
    } else if kind == "channel" {
      return Ok(Some(ChannelFn(node.channel.GetOr("internal"))));
    } else if kind == "condition" {
      var ok, low, maxLoops := ResolveForNode(branches);
      if ok.None? || low.None? {
        return Err(MissingBranches(node.id));
      }
      return Ok(Some(
        ConditionFn(node.field.GetOr("confidence"), node.threshold.GetOr(0.7), low.value, ok.value, maxLoops)));
    } else if kind == "end" {
      return Ok(Some(EndFn));
    }
    fn := Ok(None);
  }

  lemma {:induction false} FirstFailureWins(nodes: seq<Node>, i: nat, edges: seq<Edge>, agents: map<string, int>)
    requires i <= |nodes| && AddedNodes(nodes[..i], edges, agents).Err?
    ensures AddedNodes(nodes, edges, agents) == AddedNodes(nodes[..i], edges, agents)
    decreases |nodes|
  {
    if i == |nodes| {
      assert nodes[..i] == nodes;
    } else {
      assert nodes[..|nodes| - 1][..i] == nodes[..i];
      FirstFailureWins(nodes[..|nodes| - 1], i, edges, agents);
    }
  }

  /** `_wire_edges` */
  method WireEdges(graph: StateGraph, nodes: seq<Node>, edges: seq<Edge>,
                   outgoing: map<string, seq<Edge>>, entry: string)
    requires graph.edges == {} && graph.routes == map[] && graph.entry == None
    requires forall id :: Branches(outgoing, id) == Outgoing(edges, id)
    modifies graph`edges, graph`routes, graph`entry
    ensures graph.edges == WiredEdges(nodes, edges) + ClosingEdges(nodes, edges)
    ensures graph.routes == Routes(IdsOfKind(nodes, "condition"), edges)
    ensures graph.entry == EntryPoint(nodes, entry)
  {
    var nodeById := NodeById(nodes);
    var endNodes := IdsOfKind(nodes, "end");
    var conditionNodes := IdsOfKind(nodes, "condition");

    if entry != "" && !(entry in nodeById && nodeById[entry].kind == Some("end")) {
      graph.SetEntryPoint(entry);
    }

    for i := 0 to |edges|
      invariant graph.edges == WiredEdges(nodes, edges[..i])
      invariant graph.routes == map[] && graph.entry == EntryPoint(nodes, entry)
    {
      var e := edges[i];
      assert edges[..i + 1] == edges[..i] + [e];
      WiredEdgesAppend(nodes, edges[..i], e);
      if e.src !in conditionNodes && !Labelled(e) {
        if e.dst in endNodes {
          graph.AddEdge(e.src, Finish);
        } else if !(e.src in nodeById && nodeById[e.src].kind == Some("end")) {
          graph.AddEdge(e.src, To(e.dst));
        }
      }
    }
    assert edges[..|edges|] == edges;

    WireConditions(graph, conditionNodes, edges, outgoing);
    CloseOpenNodes(graph, nodes, edges, conditionNodes);
  }

  /** The loop over condition nodes inside `_wire_edges`. */
  method WireConditions(graph: StateGraph, conditionNodes: set<string>, ghost edges: seq<Edge>,
                        outgoing: map<string, seq<Edge>>)
    requires graph.routes == map[]
    requires forall id :: Branches(outgoing, id) == Outgoing(edges, id)
    modifies graph`routes
    ensures graph.routes == Routes(conditionNodes, edges)
  {
    var todo := conditionNodes;
    while todo != {}
      invariant todo <= conditionNodes
      invariant graph.routes == Routes(conditionNodes - todo, edges)
    {
      var id :| id in todo;
      RoutesExtend(conditionNodes - todo, edges, id);
      assert conditionNodes - (todo - {id}) == (conditionNodes - todo) + {id};
      todo := todo - {id};
      var ok, low, mapping := ResolveForWiring(Branches(outgoing, id));
      if ok.Some? && low.Some? {
        graph.AddConditionalEdges(id, ok.value, mapping);
      }
    }
    assert conditionNodes - todo == conditionNodes;
  }

  /** The last loop of `_wire_edges`. */
  method CloseOpenNodes(graph: StateGraph, nodes: seq<Node>, edges: seq<Edge>, conditionNodes: set<string>)
    requires conditionNodes == IdsOfKind(nodes, "condition")
    modifies graph`edges
    ensures graph.edges == old(graph.edges) + ClosingEdges(nodes, edges)
  {
    var sources := set e | e in edges :: e.src;
    for i := 0 to |nodes|
      invariant graph.edges == old(graph.edges)
          + set n | n in nodes[..i] && LeftOpen(nodes, edges, n) :: (n.id, Finish)
    {
      var node := nodes[i];
      assert nodes[..i + 1] == nodes[..i] + [node];
      if node.id !in sources && node.kind != Some("end") && node.kind != Some("condition")
         && node.id !in conditionNodes {
        graph.AddEdge(node.id, Finish);
      }
    }
    assert nodes[..|nodes|] == nodes;
  }

  // ---------------------------------------------------------------- what a compiled graph guarantees

  ghost predicate Builds(n: Node, edges: seq<Edge>, agents: map<string, int>, fn: NodeFn) {
    NodeFnFor(n, Outgoing(edges, n.id), agents) == Ok(Some(fn))
  }

  /** Condition functions come from condition nodes only, and carry the resolved branches. */
  lemma ConditionsAreConditions(n: Node, edges: seq<Edge>, agents: map<string, int>, fn: NodeFn)
    requires Builds(n, edges, agents, fn)
    ensures fn.ConditionFn? <==> n.kind == Some("condition")
    ensures fn.ConditionFn? ==>
              && OkBranch(Outgoing(edges, n.id)) == Some(fn.ok)
              && LowBranch(Outgoing(edges, n.id)) == Some(fn.low)
              && LoopBudget(Outgoing(edges, n.id)) == fn.maxLoops
  {
  }

  /** Every function in the graph belongs to a node of the workflow. */
  lemma {:induction false} AddedNodeOrigin(nodes: seq<Node>, edges: seq<Edge>, agents: map<string, int>, id: string)
    requires AddedNodes(nodes, edges, agents).Ok? && id in AddedNodes(nodes, edges, agents).value
    ensures exists n :: n in nodes && n.id == id && Builds(n, edges, agents, AddedNodes(nodes, edges, agents).value[id])
  {
    var init, last := nodes[..|nodes| - 1], nodes[|nodes| - 1];
    assert nodes == init + [last];
    if id in AddedNodes(init, edges, agents).value {
      AddedNodeOrigin(init, edges, agents, id);
    } else {
      assert last in nodes && Builds(last, edges, agents, AddedNodes(nodes, edges, agents).value[id]);
    }
  }

  /** Every node of a known type is in the graph, with its own function. */
  lemma {:induction false} NodeIsAdded(nodes: seq<Node>, edges: seq<Edge>, agents: map<string, int>, n: Node)
    requires AddedNodes(nodes, edges, agents).Ok? && n in nodes
    requires NodeFnFor(n, Outgoing(edges, n.id), agents) != Ok(None)
    ensures n.id in AddedNodes(nodes, edges, agents).value
    ensures Builds(n, edges, agents, AddedNodes(nodes, edges, agents).value[n.id])
  {
    var init, last := nodes[..|nodes| - 1], nodes[|nodes| - 1];
    assert nodes == init + [last];
    if n in init {
      NodeIsAdded(init, edges, agents, n);
    }
  }

  /**
   The two branch resolutions agree: whatever route the function of a condition node can store, the
   mapping wired for that node contains it, and the wired fallback is the node's own ok branch.
   */
  lemma BranchResolutionsAgree(nodes: seq<Node>, edges: seq<Edge>, agents: map<string, int>, id: string)
    requires Compiled(nodes, edges, agents).Ok?
    requires id in Compiled(nodes, edges, agents).value.nodes
    requires Compiled(nodes, edges, agents).value.nodes[id].ConditionFn?
    ensures var graph := Compiled(nodes, edges, agents).value;
            id in graph.routes
            && {graph.nodes[id].ok, graph.nodes[id].low} <= graph.routes[id].mapping
            && graph.routes[id].fallback == graph.nodes[id].ok
  {
    var graph := Compiled(nodes, edges, agents).value;
    AddedNodeOrigin(nodes, edges, agents, id);
    var n :| n in nodes && n.id == id && Builds(n, edges, agents, graph.nodes[id]);
    ConditionsAreConditions(n, edges, agents, graph.nodes[id]);
    ResolvedBranchesAreTargets(Outgoing(edges, id));
  }

  // ---------------------------------------------------------------- the compiled graph, node by node, edge by edge

  /** What a node of each type runs as: with its own agent, its channel, its field, threshold and branches. */
  predicate RunsAs(n: Node, branches: seq<Edge>, agents: map<string, int>, fn: NodeFn) {
    && (n.kind in {None, Some("agent")} ==> n.id in agents && fn == AgentFn(agents[n.id]))
    && (n.kind == Some("channel") ==> fn == ChannelFn(if n.channel.Some? then n.channel.value else "internal"))
    && (n.kind == Some("condition") ==>
          && fn.ConditionFn?
          && fn.field == (if n.field.Some? then n.field.value else "confidence")
          && fn.threshold == (if n.threshold.Some? then n.threshold.value else 0.7)
          && OkBranch(branches) == Some(fn.ok) && LowBranch(branches) == Some(fn.low)
          && fn.maxLoops == LoopBudget(branches))
    && (n.kind == Some("end") ==> fn == EndFn)
  }

  /** In every graph that compiles, each node of a known type runs as its settings and the agent map say. */
  lemma NodesRunAsDeclared(nodes: seq<Node>, edges: seq<Edge>, agents: map<string, int>, n: Node)
    requires Compiled(nodes, edges, agents).Ok? && n in nodes
    requires n.kind in {None, Some("agent"), Some("channel"), Some("condition"), Some("end")}
    ensures n.id in Compiled(nodes, edges, agents).value.nodes
    ensures RunsAs(n, Outgoing(edges, n.id), agents, Compiled(nodes, edges, agents).value.nodes[n.id])
  {
    NodeIsAdded(nodes, edges, agents, n);
  }

  /** Why compiling fails: at the first node that cannot be added. */
  predicate CannotBeAdded(nodes: seq<Node>, edges: seq<Edge>, agents: map<string, int>, i: nat, error: CompileError) {
    && i < |nodes|
    && var n := nodes[i];
       match error
       case NoNodes => false
       case MissingAgent(id) => id == n.id && n.kind in {None, Some("agent")} && id !in agents
       case MissingBranches(id) =>
         id == n.id && n.kind == Some("condition")
         && (OkBranch(Outgoing(edges, id)).None? || LowBranch(Outgoing(edges, id)).None?)
       case DuplicateNode(id) =>
         id == n.id && exists j :: 0 <= j < i && nodes[j].id == id
  }

  /** An error is that of the first node in order that cannot be added. */
  lemma {:induction false} ErrorsMeanFaults(nodes: seq<Node>, edges: seq<Edge>, agents: map<string, int>)
    returns (i: nat)
    requires AddedNodes(nodes, edges, agents).Err?
    ensures CannotBeAdded(nodes, edges, agents, i, AddedNodes(nodes, edges, agents).error)
    ensures AddedNodes(nodes[..i], edges, agents).Ok?
  {
    var init, last := nodes[..|nodes| - 1], nodes[|nodes| - 1];
    assert nodes == init + [last];
    var before := AddedNodes(init, edges, agents);
    i := |init|;
    if before.Err? {
      i := ErrorsMeanFaults(init, edges, agents);
      assert init[..i] == nodes[..i];
    } else {
      LastFault(nodes, edges, agents);
    }
  }

  /** The last node is at fault if those before it can be added. */
  lemma LastFault(nodes: seq<Node>, edges: seq<Edge>, agents: map<string, int>)
    requires AddedNodes(nodes, edges, agents).Err? && AddedNodes(nodes[..|nodes| - 1], edges, agents).Ok?
    ensures CannotBeAdded(nodes, edges, agents, |nodes| - 1, AddedNodes(nodes, edges, agents).error)
  {
    var init, last := nodes[..|nodes| - 1], nodes[|nodes| - 1];
    if last.id in AddedNodes(init, edges, agents).value {
      AddedNodeOrigin(init, edges, agents, last.id);
      var n :| n in init && n.id == last.id;
      var j :| 0 <= j < |init| && init[j] == n;
      assert nodes[j].id == last.id;
    }
  }

  /** The edge has no label, or an empty one. */
  predicate IsPlain(e: Edge) {
    e.when == None || e.when == Some("")
  }

  ghost predicate HasKind(nodes: seq<Node>, id: string, kind: string) {
    exists n :: n in nodes && n.id == id && n.kind == Some(kind)
  }

  lemma KindById(nodes: seq<Node>, id: string)
    requires UniqueIds(nodes)
    ensures HasKind(nodes, id, "end") <==> id in NodeById(nodes) && NodeById(nodes)[id].kind == Some("end")
  {
    if HasKind(nodes, id, "end") {
      var n :| n in nodes && n.id == id && n.kind == Some("end");
      NodeByUniqueId(nodes, n);
    }
  }

  /** Some plain edge leads from `a`, which is neither condition nor end, to `b`, which is no end. */
  ghost predicate LinksPlainly(nodes: seq<Node>, edges: seq<Edge>, a: string, b: string) {
    && !HasKind(nodes, a, "condition") && !HasKind(nodes, a, "end") && !HasKind(nodes, b, "end")
    && exists e :: e in edges && IsPlain(e) && e.src == a && e.dst == b
  }

  /** A plain edge leads from `a` to an end; or `a` is a node that no edge leaves, and neither condition nor end. */
  ghost predicate LinksToEnd(nodes: seq<Node>, edges: seq<Edge>, a: string) {
    && !HasKind(nodes, a, "condition")
    && ((exists e :: e in edges && IsPlain(e) && e.src == a && HasKind(nodes, e.dst, "end"))
        || (!HasKind(nodes, a, "end") && (exists n :: n in nodes && n.id == a) && forall e :: e in edges ==>
          e.src != a))
  }

  lemma WiredPlainEdge(nodes: seq<Node>, e: Edge, a: string, b: string)
    requires UniqueIds(nodes)
    ensures WiredEdge(nodes, e) == Some((a, To(b)))
       <==> IsPlain(e) && e.src == a && e.dst == b
            && !HasKind(nodes, a, "condition") && !HasKind(nodes, a, "end") && !HasKind(nodes, b, "end")
    ensures WiredEdge(nodes, e) == Some((a, Finish))
       <==> IsPlain(e) && e.src == a && !HasKind(nodes, a, "condition") && HasKind(nodes, e.dst, "end")
  {
    KindById(nodes, e.src);
  }

  /** The edges of a compiled graph, read off the stored one. */
  lemma EdgesExactly(nodes: seq<Node>, edges: seq<Edge>, agents: map<string, int>, a: string, b: string)
    requires Compiled(nodes, edges, agents).Ok? && UniqueIds(nodes)
    ensures (a, To(b)) in Compiled(nodes, edges, agents).value.edges <==> LinksPlainly(nodes, edges, a, b)
    ensures (a, Finish) in Compiled(nodes, edges, agents).value.edges <==> LinksToEnd(nodes, edges, a)
  {
    forall e ensures WiredEdge(nodes, e) == Some((a, To(b)))
       <==> IsPlain(e) && e.src == a && e.dst == b
            && !HasKind(nodes, a, "condition") && !HasKind(nodes, a, "end") && !HasKind(nodes, b, "end")
    {
      WiredPlainEdge(nodes, e, a, b);
    }
    forall e ensures WiredEdge(nodes, e) == Some((a, Finish))
       <==> IsPlain(e) && e.src == a && !HasKind(nodes, a, "condition") && HasKind(nodes, e.dst, "end")
    {
      WiredPlainEdge(nodes, e, a, b);
    }
    ClosedExactly(nodes, edges, a);
  }

  lemma ClosedExactly(nodes: seq<Node>, edges: seq<Edge>, a: string)
    requires UniqueIds(nodes)
    ensures (a, Finish) in ClosingEdges(nodes, edges)
       <==> && !HasKind(nodes, a, "condition") && !HasKind(nodes, a, "end")
            && (exists n :: n in nodes && n.id == a) && forall e :: e in edges ==> e.src != a
  {
    forall n | n in nodes && n.id == a ensures n.kind == Some("end") <==> HasKind(nodes, a, "end") {
      KindById(nodes, a);
      NodeByUniqueId(nodes, n);
    }
  }

  /** Conditions, and they alone, are routed: among the targets of all their edges, and to ok by default. */
  lemma RoutesExactly(nodes: seq<Node>, edges: seq<Edge>, agents: map<string, int>, id: string)
    requires Compiled(nodes, edges, agents).Ok?
    ensures var graph := Compiled(nodes, edges, agents).value;
      && (id in graph.routes <==> HasKind(nodes, id, "condition"))
      && (id in graph.routes ==>
            && graph.routes[id].mapping == (set e | e in edges && e.src == id :: e.dst)
            && Some(graph.routes[id].fallback) == OkBranch(Outgoing(edges, id)))
  {
    if HasKind(nodes, id, "condition") {
      var n :| n in nodes && n.id == id && n.kind == Some("condition");
      NodesRunAsDeclared(nodes, edges, agents, n);
      assert id in IdsOfKind(nodes, "condition");
    }
  }

  /** A run starts at the first node that no edge enters (or the first of all), unless that is an end or unnamed. */
  lemma EntryExactly(nodes: seq<Node>, edges: seq<Edge>, agents: map<string, int>)
    requires Compiled(nodes, edges, agents).Ok? && UniqueIds(nodes)
    ensures var entry := EntryNode(nodes, edges);
      Compiled(nodes, edges, agents).value.entry == if entry != "" && !HasKind(nodes, entry, "end") then Some(entry)
        else None
  {
    KindById(nodes, EntryNode(nodes, edges));
  }
}
