/** What can be read off the stored JSON about the graph that it compiles to. */
module CompiledWorkflow {
  import opened Prelude
  import opened WorkflowGraph
  import opened BranchResolution
  import opened GraphBuilder
  import opened Execution
  import opened Termination

  predicate KnownKind(n: Node) {
    n.kind.GetOr("agent") in {"agent", "channel", "condition", "end"}
  }

  ghost function Ids(nodes: seq<Node>): set<string> {
    set n | n in nodes :: n.id
  }

  ghost predicate KnownEnds(nodes: seq<Node>, edges: seq<Edge>) {
    forall e :: e in edges ==> e.src in Ids(nodes) && e.dst in Ids(nodes)
  }

  /** The nodes that get a function: those of a known type. */
  ghost function BuiltIds(nodes: seq<Node>): set<string> {
    set n | n in nodes && KnownKind(n) :: n.id
  }

  /** A node that is neither a condition nor an end has at most one unlabelled edge to a node other than an end. */
  ghost predicate NoFanOut(nodes: seq<Node>, edges: seq<Edge>) {
    forall a, b :: a in edges && b in edges && a.src == b.src && !Labelled(a) && !Labelled(b)
                && a.src !in IdsOfKind(nodes, "condition") && a.src !in IdsOfKind(nodes, "end")
                && a.dst !in IdsOfKind(nodes, "end") && b.dst !in IdsOfKind(nodes, "end")
                ==> a.dst == b.dst
  }

  ghost predicate WellFormed(nodes: seq<Node>, edges: seq<Edge>) {
    && nodes != [] && UniqueIds(nodes) && "" !in Ids(nodes)
    && (forall n :: n in nodes ==> KnownKind(n))
    && KnownEnds(nodes, edges)
    && EntryNode(nodes, edges) !in IdsOfKind(nodes, "end")
  }

  /** Every node that the compiler can build on its own is built, when no id is used twice. */
  lemma {:induction false} AddedWhenEachBuilds(nodes: seq<Node>, edges: seq<Edge>, agents: map<string, int>)
    requires UniqueIds(nodes)
    requires forall n :: n in nodes ==> NodeFnFor(n, Outgoing(edges, n.id), agents).Ok?
    ensures AddedNodes(nodes, edges, agents).Ok?
  {
    if nodes != [] {
      var init, last := nodes[..|nodes| - 1], nodes[|nodes| - 1];
      assert nodes == init + [last];
      AddedWhenEachBuilds(init, edges, agents);
      if last.id in AddedNodes(init, edges, agents).value {
        AddedNodeOrigin(init, edges, agents, last.id);
      }
    }
  }

  lemma KnownKindBuilds(n: Node, edges: seq<Edge>, agents: map<string, int>)
    requires KnownKind(n)
    ensures NodeFnFor(n, Outgoing(edges, n.id), agents) != Ok(None)
  {
  }

  lemma NodeOfCompiled(nodes: seq<Node>, edges: seq<Edge>, agents: map<string, int>, n: Node)
    requires Compiled(nodes, edges, agents).Ok? && n in nodes && KnownKind(n)
    ensures n.id in Compiled(nodes, edges, agents).value.nodes
    ensures Builds(n, edges, agents, Compiled(nodes, edges, agents).value.nodes[n.id])
  {
    KnownKindBuilds(n, edges, agents);
    NodeIsAdded(nodes, edges, agents, n);
  }

  lemma OriginIsKnown(nodes: seq<Node>, edges: seq<Edge>, agents: map<string, int>, id: string) returns (n: Node)
    requires Compiled(nodes, edges, agents).Ok? && id in Compiled(nodes, edges, agents).value.nodes
    ensures n in nodes && n.id == id && KnownKind(n)
    ensures Builds(n, edges, agents, Compiled(nodes, edges, agents).value.nodes[id])
  {
    AddedNodeOrigin(nodes, edges, agents, id);
    n :| n in nodes && n.id == id && Builds(n, edges, agents, Compiled(nodes, edges, agents).value.nodes[id]);
  }

  /** A workflow that compiles has a function for each node of a known type, and no others. */
  lemma KeysOfBuilt(nodes: seq<Node>, edges: seq<Edge>, agents: map<string, int>)
    requires Compiled(nodes, edges, agents).Ok?
    ensures Compiled(nodes, edges, agents).value.nodes.Keys == BuiltIds(nodes)
  {
    var graph := Compiled(nodes, edges, agents).value;
    forall n | n in nodes && KnownKind(n) ensures n.id in graph.nodes {
      NodeOfCompiled(nodes, edges, agents, n);
    }
    forall id | id in graph.nodes ensures id in BuiltIds(nodes) {
      var n := OriginIsKnown(nodes, edges, agents, id);
    }
  }

  lemma KeysOfCompiled(nodes: seq<Node>, edges: seq<Edge>, agents: map<string, int>)
    requires WellFormed(nodes, edges) && Compiled(nodes, edges, agents).Ok?
    ensures Compiled(nodes, edges, agents).value.nodes.Keys == Ids(nodes)
  {
    KeysOfBuilt(nodes, edges, agents);
  }

  /** A node whose type is condition is compiled to a condition function, whatever other nodes share its id. */
  lemma ConditionIsBuilt(nodes: seq<Node>, edges: seq<Edge>, agents: map<string, int>, id: string)
    requires Compiled(nodes, edges, agents).Ok? && id in IdsOfKind(nodes, "condition")
    ensures id in Compiled(nodes, edges, agents).value.nodes
    ensures Compiled(nodes, edges, agents).value.nodes[id].ConditionFn?
  {
    var n :| n in nodes && n.kind == Some("condition") && n.id == id;
    NodeOfCompiled(nodes, edges, agents, n);
    ConditionsAreConditions(n, edges, agents, Compiled(nodes, edges, agents).value.nodes[id]);
  }

  /** The function compiled for `id` is a condition exactly when `id` names a condition node. */
  lemma ConditionOfCompiled(nodes: seq<Node>, edges: seq<Edge>, agents: map<string, int>, id: string)
    requires Compiled(nodes, edges, agents).Ok? && id in Compiled(nodes, edges, agents).value.nodes
    ensures var fn := Compiled(nodes, edges, agents).value.nodes[id];
            && (fn.ConditionFn? <==> id in IdsOfKind(nodes, "condition"))
            && (fn.ConditionFn? ==>
                  && OkBranch(Outgoing(edges, id)) == Some(fn.ok)
                  && LowBranch(Outgoing(edges, id)) == Some(fn.low)
                  && LoopBudget(Outgoing(edges, id)) == fn.maxLoops)
  {
    var n := OriginIsKnown(nodes, edges, agents, id);
    ConditionsAreConditions(n, edges, agents, Compiled(nodes, edges, agents).value.nodes[id]);
    if id in IdsOfKind(nodes, "condition") {
      ConditionIsBuilt(nodes, edges, agents, id);
    }
  }

  /** No edge of the workflow has a blank target (as for all edges that normalizing keeps). */
  ghost predicate TargetsNamed(edges: seq<Edge>) {
    forall e :: e in edges ==> e.dst != ""
  }

  lemma BranchesAreNamed(nodes: seq<Node>, edges: seq<Edge>, agents: map<string, int>, id: string)
    requires Compiled(nodes, edges, agents).Ok? && TargetsNamed(edges)
    requires id in Compiled(nodes, edges, agents).value.nodes
      && Compiled(nodes, edges, agents).value.nodes[id].ConditionFn?
    ensures var fn := Compiled(nodes, edges, agents).value.nodes[id]; fn.ok != "" && fn.low != ""
  {
    ConditionOfCompiled(nodes, edges, agents, id);
    ResolvedBranchesAreTargets(Outgoing(edges, id));
  }

  lemma ConditionsOfCompiled(nodes: seq<Node>, edges: seq<Edge>, agents: map<string, int>)
    requires Compiled(nodes, edges, agents).Ok? && TargetsNamed(edges)
    ensures ConditionsWired(Compiled(nodes, edges, agents).value)
  {
    var graph := Compiled(nodes, edges, agents).value;
    forall id | id in graph.nodes && graph.nodes[id].ConditionFn?
      ensures id in graph.routes && {graph.nodes[id].ok, graph.nodes[id].low} <= graph.routes[id].mapping
      ensures graph.nodes[id].ok != "" && graph.nodes[id].low != ""
    {
      BranchResolutionsAgree(nodes, edges, agents, id);
      BranchesAreNamed(nodes, edges, agents, id);
    }
    forall id | id in graph.routes ensures id in graph.nodes && graph.nodes[id].ConditionFn? {
      ConditionIsBuilt(nodes, edges, agents, id);
    }
  }

  // ---------------------------------------------------------------- what the library accepts

  /** What becomes of this edge refers to nodes that have a function. */
  ghost predicate EdgeIsAccepted(nodes: seq<Node>, e: Edge) {
    if e.src in IdsOfKind(nodes, "condition") then e.dst in BuiltIds(nodes)
    else
      || Labelled(e)
      || (if e.dst in IdsOfKind(nodes, "end") then e.src in BuiltIds(nodes)
          else e.src in IdsOfKind(nodes, "end") || {e.src, e.dst} <= BuiltIds(nodes))
  }

  /** The workflows whose compiled graph the library accepts. */
  ghost predicate IsAccepted(nodes: seq<Node>, edges: seq<Edge>) {
    && EntryNode(nodes, edges) in BuiltIds(nodes) - IdsOfKind(nodes, "end") - {""}
    && (forall n :: n in nodes && LeftOpen(nodes, edges, n) ==> n.id in BuiltIds(nodes))
    && (forall e :: e in edges ==> EdgeIsAccepted(nodes, e))
  }

  lemma EndById(nodes: seq<Node>, id: string)
    requires UniqueIds(nodes)
    ensures id in IdsOfKind(nodes, "end") <==> id in NodeById(nodes) && NodeById(nodes)[id].kind == Some("end")
  {
    if id in IdsOfKind(nodes, "end") {
      var n :| n in nodes && n.kind == Some("end") && n.id == id;
      NodeByUniqueId(nodes, n);
    }
  }

  lemma EntryIsAccepted(nodes: seq<Node>, edges: seq<Edge>)
    requires UniqueIds(nodes)
    ensures EntryPoint(nodes, EntryNode(nodes, edges)).Some?
       <==> EntryNode(nodes, edges) !in IdsOfKind(nodes, "end") && EntryNode(nodes, edges) != ""
  {
    EndById(nodes, EntryNode(nodes, edges));
  }

  /** The ends of a wired edge are nodes of the graph. */
  ghost predicate IsAttached(known: set<string>, w: (string, Target)) {
    w.0 in known && (w.1.To? ==> w.1.id in known)
  }

  ghost predicate AllAttached(known: set<string>, wires: set<(string, Target)>) {
    forall w :: w in wires ==> IsAttached(known, w)
  }

  /** The edges that leave conditions, or those that leave other nodes, are accepted. */
  ghost predicate EdgesAccepted(nodes: seq<Node>, edges: seq<Edge>, ofConditions: bool) {
    forall e :: e in edges && (e.src in IdsOfKind(nodes, "condition")) == ofConditions ==> EdgeIsAccepted(nodes, e)
  }

  ghost predicate OpenNodesBuilt(nodes: seq<Node>, edges: seq<Edge>) {
    forall n :: n in nodes && LeftOpen(nodes, edges, n) ==> n.id in BuiltIds(nodes)
  }

  lemma IsAcceptedParts(nodes: seq<Node>, edges: seq<Edge>)
    ensures IsAccepted(nodes, edges)
       <==> && EntryNode(nodes, edges) in BuiltIds(nodes) - IdsOfKind(nodes, "end") - {""}
            && OpenNodesBuilt(nodes, edges) && EdgesAccepted(nodes, edges, true) && EdgesAccepted(nodes, edges, false)
  {
    assert forall e :: e in edges && EdgesAccepted(nodes, edges, true) && EdgesAccepted(nodes, edges, false) ==>
      EdgeIsAccepted(nodes, e);
  }

  lemma EdgeIsAttached(nodes: seq<Node>, e: Edge)
    requires UniqueIds(nodes) && e.src !in IdsOfKind(nodes, "condition")
    ensures EdgeIsAccepted(nodes, e)
       <==> (WiredEdge(nodes, e).Some? ==> IsAttached(BuiltIds(nodes), WiredEdge(nodes, e).value))
  {
    EndById(nodes, e.src);
  }

  lemma PlainEdgesAreAttached(nodes: seq<Node>, edges: seq<Edge>)
    requires UniqueIds(nodes)
    ensures AllAttached(BuiltIds(nodes), WiredEdges(nodes, edges)) <==> EdgesAccepted(nodes, edges, false)
  {
    forall e | e in edges && e.src !in IdsOfKind(nodes, "condition")
      ensures EdgeIsAccepted(nodes, e)
         <==> (WiredEdge(nodes, e).Some? ==> IsAttached(BuiltIds(nodes), WiredEdge(nodes, e).value))
      ensures WiredEdge(nodes, e).Some? ==> WiredEdge(nodes, e).value in WiredEdges(nodes, edges)
    {
      EdgeIsAttached(nodes, e);
    }
  }

  lemma ClosingEdgesAreAttached(nodes: seq<Node>, edges: seq<Edge>)
    ensures AllAttached(BuiltIds(nodes), ClosingEdges(nodes, edges)) <==> OpenNodesBuilt(nodes, edges)
  {
    forall n | n in nodes && LeftOpen(nodes, edges, n) ensures (n.id, Finish) in ClosingEdges(nodes, edges) {}
  }

  lemma RouteMapsTargets(nodes: seq<Node>, edges: seq<Edge>, agents: map<string, int>, id: string)
    requires Compiled(nodes, edges, agents).Ok? && id in IdsOfKind(nodes, "condition")
    ensures id in Compiled(nodes, edges, agents).value.routes
    ensures Compiled(nodes, edges, agents).value.routes[id].mapping == Targets(Outgoing(edges, id))
  {
    ConditionIsBuilt(nodes, edges, agents, id);
    BranchResolutionsAgree(nodes, edges, agents, id);
  }

  /** The mappings stay within `known`. */
  ghost predicate RoutesWithin(graph: Blueprint, known: set<string>) {
    forall id :: id in graph.routes ==> id in known && graph.routes[id].mapping <= known
  }

  lemma RoutesAreWithin(nodes: seq<Node>, edges: seq<Edge>, agents: map<string, int>)
    requires Compiled(nodes, edges, agents).Ok?
    ensures RoutesWithin(Compiled(nodes, edges, agents).value, BuiltIds(nodes)) <==> EdgesAccepted(nodes, edges, true)
  {
    var graph := Compiled(nodes, edges, agents).value;
    forall e | e in edges && e.src in IdsOfKind(nodes, "condition")
      ensures e.src in graph.routes && e.dst in graph.routes[e.src].mapping
    {
      RouteMapsTargets(nodes, edges, agents, e.src);
      assert e in Outgoing(edges, e.src);
    }
    KeysOfBuilt(nodes, edges, agents);
    forall id | id in graph.routes
      ensures id in BuiltIds(nodes) && graph.routes[id].mapping == Targets(Outgoing(edges, id))
    {
      ConditionIsBuilt(nodes, edges, agents, id);
      RouteMapsTargets(nodes, edges, agents, id);
    }
  }

  /** What the library checks of the compiled graph, read off the stored one. */
  lemma AcceptedExactly(nodes: seq<Node>, edges: seq<Edge>, agents: map<string, int>)
    requires Compiled(nodes, edges, agents).Ok? && UniqueIds(nodes)
    ensures Accepted(Compiled(nodes, edges, agents).value) <==> IsAccepted(nodes, edges)
  {
    var graph := Compiled(nodes, edges, agents).value;
    KeysOfBuilt(nodes, edges, agents);
    EntryIsAccepted(nodes, edges);
    PlainEdgesAreAttached(nodes, edges);
    ClosingEdgesAreAttached(nodes, edges);
    RoutesAreWithin(nodes, edges, agents);
    AcceptedParts(graph, WiredEdges(nodes, edges), ClosingEdges(nodes, edges), BuiltIds(nodes));
    IsAcceptedParts(nodes, edges);
  }

  lemma AcceptedParts(graph: Blueprint, plain: set<(string, Target)>, closing: set<(string, Target)>,
                      known: set<string>)
    requires graph.nodes.Keys == known && graph.edges == plain + closing
    ensures Accepted(graph)
       <==> && graph.entry.Some? && graph.entry.value in known
            && AllAttached(known, plain) && AllAttached(known, closing) && RoutesWithin(graph, known)
  {
    assert AllAttached(known, graph.edges) <==> AllAttached(known, plain) && AllAttached(known, closing);
    assert Accepted(graph) <==>
      graph.entry.Some? && graph.entry.value in known && AllAttached(known, graph.edges) && RoutesWithin(graph, known);
  }

  /** A workflow that compiles can be run exactly if the library accepts its graph and there is no fan-out. */
  lemma CompiledIsRunnable(nodes: seq<Node>, edges: seq<Edge>, agents: map<string, int>)
    requires Compiled(nodes, edges, agents).Ok? && UniqueIds(nodes) && TargetsNamed(edges)
    ensures Runnable(Compiled(nodes, edges, agents).value) <==> IsAccepted(nodes, edges) && NoFanOut(nodes, edges)
  {
    AcceptedExactly(nodes, edges, agents);
    ConditionsOfCompiled(nodes, edges, agents);
    SingleTokenExactly(nodes, edges, agents);
    EndsOfCompiled(nodes, edges, agents);
  }

  /** A workflow of known nodes whose edges lead to nodes of its own is accepted. */
  lemma WellFormedIsAccepted(nodes: seq<Node>, edges: seq<Edge>)
    requires WellFormed(nodes, edges)
    ensures IsAccepted(nodes, edges) && TargetsNamed(edges)
  {
    assert BuiltIds(nodes) == Ids(nodes);
    assert IsEntry(nodes, Destinations(edges), EntryNode(nodes, edges));
    assert nodes[0] in nodes;
  }

  lemma SingleTokenExactly(nodes: seq<Node>, edges: seq<Edge>, agents: map<string, int>)
    requires UniqueIds(nodes) && Compiled(nodes, edges, agents).Ok?
    ensures SingleToken(Compiled(nodes, edges, agents).value) <==> NoFanOut(nodes, edges)
  {
    var graph := Compiled(nodes, edges, agents).value;
    if NoFanOut(nodes, edges) {
      forall a, b | a in graph.edges && b in graph.edges && a.0 == b.0 && a.1.To? && b.1.To? ensures a.1 == b.1 {
        var e :| e in edges && WiredEdge(nodes, e) == Some(a);
        var d :| d in edges && WiredEdge(nodes, d) == Some(b);
        EndById(nodes, e.src);
      }
    }
    forall e | e in edges && LeadsPlainly(nodes, e) ensures (e.src, To(e.dst)) in graph.edges {
      EndById(nodes, e.src);
      assert WiredEdge(nodes, e) == Some((e.src, To(e.dst)));
    }
    if SingleToken(graph) {
      SingleTokenNoFanOut(nodes, edges, graph);
    }
  }

  /** An unlabelled edge between nodes that makes a plain edge between nodes. */
  ghost predicate LeadsPlainly(nodes: seq<Node>, e: Edge) {
    && !Labelled(e) && e.src !in IdsOfKind(nodes, "condition")
    && e.src !in IdsOfKind(nodes, "end") && e.dst !in IdsOfKind(nodes, "end")
  }

  lemma SingleTokenNoFanOut(nodes: seq<Node>, edges: seq<Edge>, graph: Blueprint)
    requires SingleToken(graph)
    requires forall e :: e in edges && LeadsPlainly(nodes, e) ==> (e.src, To(e.dst)) in graph.edges
    ensures NoFanOut(nodes, edges)
  {
    forall a, b | a in edges && b in edges && a.src == b.src && LeadsPlainly(nodes, a) && LeadsPlainly(nodes, b)
      ensures a.dst == b.dst
    {
      assert (a.src, To(a.dst)) in graph.edges && (b.src, To(b.dst)) in graph.edges;
    }
  }

  lemma EndOfCompiled(nodes: seq<Node>, edges: seq<Edge>, agents: map<string, int>, id: string) returns (n: Node)
    requires Compiled(nodes, edges, agents).Ok? && id in Compiled(nodes, edges, agents).value.nodes
    requires Compiled(nodes, edges, agents).value.nodes[id].EndFn?
    ensures n in nodes && n.id == id && n.kind == Some("end")
  {
    var fn := Compiled(nodes, edges, agents).value.nodes[id];
    AddedNodeOrigin(nodes, edges, agents, id);
    n :| n in nodes && n.id == id && Builds(n, edges, agents, fn);
  }

  lemma EndsOfCompiled(nodes: seq<Node>, edges: seq<Edge>, agents: map<string, int>)
    requires UniqueIds(nodes) && Compiled(nodes, edges, agents).Ok?
    ensures EndsAreFinal(Compiled(nodes, edges, agents).value)
  {
    var graph := Compiled(nodes, edges, agents).value;
    forall id | id in graph.nodes && graph.nodes[id].EndFn? ensures PlainTargets(graph, id) == {} {
      var n := EndOfCompiled(nodes, edges, agents, id);
      NodeByUniqueId(nodes, n);
      forall e | e in graph.edges && e.0 == id ensures !e.1.To? {
        if e.1.To? {
          EndLeadsNowhere(nodes, edges, agents, n, e.1.id);
        }
      }
    }
  }

  lemma EndIsNoSource(nodes: seq<Node>, e: Edge, n: Node, b: string)
    requires n.kind == Some("end") && n.id in NodeById(nodes) && NodeById(nodes)[n.id] == n
    ensures WiredEdge(nodes, e) != Some((n.id, To(b)))
  {
  }

  lemma EndLeadsNowhere(nodes: seq<Node>, edges: seq<Edge>, agents: map<string, int>, n: Node, b: string)
    requires Compiled(nodes, edges, agents).Ok? && n.kind == Some("end")
    requires n.id in NodeById(nodes) && NodeById(nodes)[n.id] == n
    ensures (n.id, To(b)) !in Compiled(nodes, edges, agents).value.edges
  {
    forall e | e in edges ensures WiredEdge(nodes, e) != Some((n.id, To(b))) {
      EndIsNoSource(nodes, e, n, b);
    }
  }

  /** A plain edge to another node is an unlabelled edge of the workflow. */
  lemma PlainOrigin(nodes: seq<Node>, edges: seq<Edge>, agents: map<string, int>, a: string, b: string)
    requires Compiled(nodes, edges, agents).Ok? && (a, To(b)) in Compiled(nodes, edges, agents).value.edges
    ensures exists e :: e in edges && !Labelled(e) && e.src == a && e.dst == b
  {
    var e :| e in edges && WiredEdge(nodes, e) == Some((a, To(b)));
    assert e in edges && !Labelled(e) && e.src == a && e.dst == b;
  }

  /** Where a forward step comes from: the resolved ok branch of a condition, or an unlabelled edge. */
  lemma ForwardOrigin(nodes: seq<Node>, edges: seq<Edge>, agents: map<string, int>, a: string, b: string)
    requires Compiled(nodes, edges, agents).Ok?
    requires Forward(Compiled(nodes, edges, agents).value, a) == Some(b)
    ensures if a in IdsOfKind(nodes, "condition") then OkBranch(Outgoing(edges, a)) == Some(b)
            else exists e :: e in edges && !Labelled(e) && e.src == a && e.dst == b
  {
    var graph := Compiled(nodes, edges, agents).value;
    ConditionOfCompiled(nodes, edges, agents, a);
    if !graph.nodes[a].ConditionFn? {
      assert b in PlainTargets(graph, a);
      PlainOrigin(nodes, edges, agents, a, b);
    }
  }

  /** A numbering that every forward step increases rules out forward cycles. */
  lemma RankedIsAcyclic(graph: Blueprint, rank: string -> int)
    requires forall a, b :: Forward(graph, a) == Some(b) ==> rank(a) < rank(b)
    ensures ForwardAcyclic(graph)
  {
    forall id | LeadsTo(graph, id, id) ensures false {
      var n :| n > 0 && ForwardBy(graph, id, n) == Some(id);
      RankGrows(graph, rank, id, n);
    }
  }

  lemma {:induction false} RankGrows(graph: Blueprint, rank: string -> int, id: string, n: nat)
    requires forall a, b :: Forward(graph, a) == Some(b) ==> rank(a) < rank(b)
    requires ForwardBy(graph, id, n).Some?
    ensures rank(id) + n <= rank(ForwardBy(graph, id, n).value)
  {
    if n > 0 {
      RankGrows(graph, rank, id, n - 1);
    }
  }

  // ---------------------------------------------------------------- the bound in terms of the JSON

  /** The loop budget that a node contributes. */
  function NodeBudget(edges: seq<Edge>, n: Node): nat {
    if n.kind == Some("condition") then Max(0, LoopBudget(Outgoing(edges, n.id))) else 0
  }

  function LoopBudgets(nodes: seq<Node>, edges: seq<Edge>): nat {
    if nodes == [] then 0
    else LoopBudgets(nodes[..|nodes| - 1], edges) + NodeBudget(edges, nodes[|nodes| - 1])
  }

  lemma {:induction false} NoConditionsNoBudget(nodes: seq<Node>, edges: seq<Edge>)
    requires forall n :: n in nodes ==> n.kind != Some("condition")
    ensures LoopBudgets(nodes, edges) == 0
  {
    if nodes != [] {
      NoConditionsNoBudget(nodes[..|nodes| - 1], edges);
    }
  }

  lemma IdsAppend(init: seq<Node>, last: Node)
    ensures Ids(init + [last]) == Ids(init) + {last.id}
  {
  }

  lemma SumOneMore(init: seq<Node>, last: Node, budget: string -> int)
    requires last.id !in Ids(init)
    ensures Sum(budget, Ids(init + [last])) == Sum(budget, Ids(init)) + budget(last.id)
    ensures |Ids(init + [last])| == |Ids(init)| + 1
  {
    IdsAppend(init, last);
    SumPick(budget, Ids(init + [last]), last.id);
    assert Ids(init + [last]) - {last.id} == Ids(init);
  }

  lemma {:induction false} SumOverIds(nodes: seq<Node>, edges: seq<Edge>, budget: string -> int)
    requires UniqueIds(nodes)
    requires forall n :: n in nodes ==> budget(n.id) == NodeBudget(edges, n)
    ensures Sum(budget, Ids(nodes)) == LoopBudgets(nodes, edges)
    ensures |Ids(nodes)| == |nodes|
  {
    if nodes != [] {
      var init, last := nodes[..|nodes| - 1], nodes[|nodes| - 1];
      assert nodes == init + [last];
      SumOverIds(init, edges, budget);
      SumOneMore(init, last, budget);
    }
  }

  /** The step bound is (number of nodes) times (one plus the sum of the loop budgets). */
  lemma StepBoundOfCompiled(nodes: seq<Node>, edges: seq<Edge>, agents: map<string, int>)
    requires WellFormed(nodes, edges) && Compiled(nodes, edges, agents).Ok?
    ensures StepBound(Compiled(nodes, edges, agents).value) == Bound(|nodes|, LoopBudgets(nodes, edges))
  {
    BudgetOfCompiled(nodes, edges, agents);
    KeysOfCompiled(nodes, edges, agents);
    var graph := Compiled(nodes, edges, agents).value;
    assert |graph.nodes| == |graph.nodes.Keys|;
  }

  lemma BudgetOfCompiled(nodes: seq<Node>, edges: seq<Edge>, agents: map<string, int>)
    requires WellFormed(nodes, edges) && Compiled(nodes, edges, agents).Ok?
    ensures TotalBudget(Compiled(nodes, edges, agents).value) == LoopBudgets(nodes, edges)
    ensures |Ids(nodes)| == |nodes|
  {
    var budgets := Budgets(Compiled(nodes, edges, agents).value);
    KeysOfCompiled(nodes, edges, agents);
    forall n | n in nodes ensures budgets(n.id) == NodeBudget(edges, n) {
      BudgetOfNode(nodes, edges, agents, n);
    }
    SumOverIds(nodes, edges, budgets);
  }

  lemma BudgetOfNode(nodes: seq<Node>, edges: seq<Edge>, agents: map<string, int>, n: Node)
    requires WellFormed(nodes, edges) && Compiled(nodes, edges, agents).Ok? && n in nodes
    ensures Budget(Compiled(nodes, edges, agents).value, n.id) == NodeBudget(edges, n)
  {
    KeysOfCompiled(nodes, edges, agents);
    ConditionOfCompiled(nodes, edges, agents, n.id);
    if n.id in IdsOfKind(nodes, "condition") {
      var c :| c in nodes && c.kind == Some("condition") && c.id == n.id;
      SameNode(nodes, c, n);
    }
  }

  lemma SameNode(nodes: seq<Node>, a: Node, b: Node)
    requires UniqueIds(nodes) && a in nodes && b in nodes && a.id == b.id
    ensures a == b
  {
    NodeByUniqueId(nodes, a);
    NodeByUniqueId(nodes, b);
  }

  // ---------------------------------------------------------------- a criterion on the JSON alone

  /** Unlabelled edges of other nodes and the ok branches of conditions always lead to a higher rank. */
  ghost predicate Ranked(nodes: seq<Node>, edges: seq<Edge>, rank: string -> int) {
    && (forall e :: e in edges && !Labelled(e) && e.src !in IdsOfKind(nodes, "condition") ==> rank(e.src) < rank(e.dst))
    && (forall id :: id in IdsOfKind(nodes, "condition") && OkBranch(Outgoing(edges, id)).Some? ==>
          rank(id) < rank(OkBranch(Outgoing(edges, id)).value))
  }

  lemma RankedCompilesAcyclic(nodes: seq<Node>, edges: seq<Edge>, agents: map<string, int>, rank: string -> int)
    requires Compiled(nodes, edges, agents).Ok? && Ranked(nodes, edges, rank)
    ensures ForwardAcyclic(Compiled(nodes, edges, agents).value)
  {
    var graph := Compiled(nodes, edges, agents).value;
    forall a, b | Forward(graph, a) == Some(b) ensures rank(a) < rank(b) {
      ForwardOrigin(nodes, edges, agents, a, b);
    }
    RankedIsAcyclic(graph, rank);
  }

  /** What a ranked workflow compiles to can be run, and halts within the bound read off the JSON. */
  lemma RankedWorkflow(nodes: seq<Node>, edges: seq<Edge>, agents: map<string, int>, rank: string -> int)
    requires WellFormed(nodes, edges) && NoFanOut(nodes, edges) && Compiled(nodes, edges, agents).Ok?
    requires Ranked(nodes, edges, rank)
    ensures Runnable(Compiled(nodes, edges, agents).value)
    ensures ForwardAcyclic(Compiled(nodes, edges, agents).value)
    ensures StepBound(Compiled(nodes, edges, agents).value) == Bound(|nodes|, LoopBudgets(nodes, edges))
  {
    WellFormedIsAccepted(nodes, edges);
    CompiledIsRunnable(nodes, edges, agents);
    RankedCompilesAcyclic(nodes, edges, agents, rank);
    StepBoundOfCompiled(nodes, edges, agents);
  }
}
