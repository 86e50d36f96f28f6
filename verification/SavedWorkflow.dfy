/** Running a workflow that went through the editor: what the wiring becomes, and when it still halts. */
module SavedWorkflow {
  import opened Prelude
  import opened Text
  import opened WorkflowGraph
  import opened BranchResolution
  import opened GraphBuilder
  import opened Termination
  import opened CompiledWorkflow
  import opened Seeds
  import opened Editor
  import opened EditorRoundTrip
  import opened EditorAndRuntime

  /** Every node has its own id, which is neither blank nor padded, and so have the edge ends. */
  ghost predicate CleanIds(g: Graph) {
    && UniqueIds(g.nodes)
    && (forall n :: n in g.nodes ==> n.id != "" && Trimmed(n.id))
    && KnownEnds(g.nodes, g.edges)
  }

  lemma CleanIdsMap(g: Graph)
    requires CleanIds(g)
    ensures UniqueSimpleIds(g.nodes)
    ensures forall id :: id in IdMap(g.nodes) <==> id in Ids(g.nodes)
  {
    forall i | 0 <= i < |g.nodes| ensures SimpleId(g.nodes[i], i) == g.nodes[i].id {
      assert g.nodes[i] in g.nodes;
    }
    forall id | id in IdMap(g.nodes) ensures id in Ids(g.nodes) {
      IdMapOrigin(g.nodes, |g.nodes|, id);
    }
    forall n | n in g.nodes ensures n.id in IdMap(g.nodes) {
      var i :| 0 <= i < |g.nodes| && g.nodes[i] == n;
      IdMapFinds(g.nodes, |g.nodes|, i);
    }
  }

  // ---------------------------------------------------------------- where saved edges come from

  lemma RegroupedIsDrawn(g: Graph, saved: Edge)
    requires saved in Regrouped(g, |g.nodes|)
    ensures exists e :: e in g.edges && Drawn(g.nodes, e) && Normalised(g.nodes, e) == saved
  {
    var i, port := RegroupedOrigin(g, |g.nodes|, saved);
    var drawn := DrawnFrom(g.nodes, g.edges, i, port);
    var k :| 0 <= k < |drawn| && Normalised(g.nodes, drawn[k]) == saved;
    assert drawn[k] in drawn;
  }

  lemma {:induction false} RegroupedKeeps(g: Graph, n: nat, e: Edge)
    requires n <= |g.nodes| && e in g.edges && Drawn(g.nodes, e) && IdMap(g.nodes)[e.src] <= n
    ensures Normalised(g.nodes, e) in Regrouped(g, n)
  {
    if IdMap(g.nodes)[e.src] < n {
      RegroupedKeeps(g, n - 1, e);
    } else {
      var port := OutputKeyForWhen(e.when);
      var drawn := DrawnFrom(g.nodes, g.edges, n - 1, port);
      assert e in drawn;
      var k :| 0 <= k < |drawn| && drawn[k] == e;
      assert NormalisedFrom(g, n - 1, port)[k] == Normalised(g.nodes, e);
    }
  }

  /** The saved edges are exactly the drawable ones, normalised. */
  lemma SavedEdges(g: Graph, agents: map<string, int>, saved: Edge)
    ensures saved in RoundTrip(g, agents).edges
       <==> exists e :: e in g.edges && Drawn(g.nodes, e) && Normalised(g.nodes, e) == saved
  {
    EdgesAreRegrouped(g, agents);
    if saved in RoundTrip(g, agents).edges {
      RegroupedIsDrawn(g, saved);
    }
    if exists e :: e in g.edges && Drawn(g.nodes, e) && Normalised(g.nodes, e) == saved {
      var e :| e in g.edges && Drawn(g.nodes, e) && Normalised(g.nodes, e) == saved;
      RegroupedKeeps(g, |g.nodes|, e);
    }
  }

  lemma KindByIdMap(g: Graph, n: Node)
    requires CleanIds(g) && n in g.nodes
    ensures n.id in IdMap(g.nodes) && g.nodes[IdMap(g.nodes)[n.id] - 1] == n
  {
    CleanIdsMap(g);
    assert n.id in Ids(g.nodes);
    var i :| 0 <= i < |g.nodes| && g.nodes[i] == n;
    assert SimpleId(g.nodes[i], i) == n.id;
    IdMapFinds(g.nodes, |g.nodes|, i);
  }

  // ---------------------------------------------------------------- plain wiring

  /** The nodes that plain edges lead to from `id`. */
  ghost function PlainDestinations(nodes: seq<Node>, edges: seq<Edge>, id: string): set<string> {
    set e | e in edges && e.src == id && WiredEdge(nodes, e) == Some((id, To(e.dst))) :: e.dst
  }

  /** The targets of edges that the runtime ignores because of a label the editor then drops. */
  ghost function LabelledDestinations(nodes: seq<Node>, edges: seq<Edge>, id: string): set<string> {
    set e | e in edges && e.src == id && Labelled(e) && !IsLow(e) && e.dst !in IdsOfKind(nodes, "end") :: e.dst
  }

  lemma SavedCount(g: Graph, agents: map<string, int>)
    ensures |RoundTrip(g, agents).nodes| == |g.nodes|
  {
    NodesReadBack(g, agents);
  }

  lemma SavedNodeAt(g: Graph, agents: map<string, int>, i: nat)
    requires CleanIds(g) && i < |g.nodes|
    ensures i < |RoundTrip(g, agents).nodes|
    ensures RoundTrip(g, agents).nodes[i].id == g.nodes[i].id
    ensures RoundTrip(g, agents).nodes[i].kind == Some(EditorKind(g.nodes[i]))
  {
    SavedNodes(g, agents);
    assert g.nodes[i] in g.nodes;
  }

  lemma SameKinds(nodes: seq<Node>, saved: seq<Node>, kind: string)
    requires |saved| == |nodes| && kind != "" && kind != "agent"
    requires forall i :: 0 <= i < |nodes| ==> saved[i].id == nodes[i].id && saved[i].kind == Some(EditorKind(nodes[i]))
    ensures IdsOfKind(saved, kind) == IdsOfKind(nodes, kind)
  {
    forall n | n in nodes && n.kind == Some(kind) ensures n.id in IdsOfKind(saved, kind) {
      var i :| 0 <= i < |nodes| && nodes[i] == n;
      assert saved[i] in saved;
    }
    forall s | s in saved && s.kind == Some(kind) ensures s.id in IdsOfKind(nodes, kind) {
      var i :| 0 <= i < |saved| && saved[i] == s;
      assert nodes[i] in nodes;
    }
  }

  lemma SavedKinds(g: Graph, agents: map<string, int>, kind: string)
    requires CleanIds(g) && kind != "" && kind != "agent"
    ensures IdsOfKind(RoundTrip(g, agents).nodes, kind) == IdsOfKind(g.nodes, kind)
  {
    SavedCount(g, agents);
    var saved := RoundTrip(g, agents).nodes;
    forall i | 0 <= i < |g.nodes|
      ensures saved[i].id == g.nodes[i].id && saved[i].kind == Some(EditorKind(g.nodes[i]))
    {
      SavedNodeAt(g, agents, i);
    }
    SameKinds(g.nodes, saved, kind);
  }

  /** The type of the node that an edge leaves decides whether and how it comes back. */
  lemma DrawnByKind(g: Graph, e: Edge)
    requires CleanIds(g) && e in g.edges
    ensures Drawn(g.nodes, e)
       <==> e.src !in IdsOfKind(g.nodes, "end") && (IsLow(e) ==> e.src in IdsOfKind(g.nodes, "condition"))
    ensures Normalised(g.nodes, e).when
         == if e.src in IdsOfKind(g.nodes, "condition") then (if IsLow(e) then Some("low") else Some("ok")) else None
  {
    CleanIdsMap(g);
    var n :| n in g.nodes && n.id == e.src;
    KindByIdMap(g, n);
    KindOfId(g, n, "end");
    KindOfId(g, n, "condition");
  }

  lemma KindOfId(g: Graph, n: Node, kind: string)
    requires CleanIds(g) && n in g.nodes && kind != "" && kind != "agent"
    ensures n.id in IdsOfKind(g.nodes, kind) <==> EditorKind(n) == kind
  {
    if n.id in IdsOfKind(g.nodes, kind) {
      var m :| m in g.nodes && m.kind == Some(kind) && m.id == n.id;
    }
  }

  lemma WiredPlainly(nodes: seq<Node>, e: Edge)
    requires e.src !in IdsOfKind(nodes, "condition") && e.src !in IdsOfKind(nodes, "end")
    ensures WiredEdge(nodes, e) == Some((e.src, To(e.dst))) <==> !Labelled(e) && e.dst !in IdsOfKind(nodes, "end")
  {
  }

  /**
   Saving in the editor wires exactly the plain edges that were wired before, and on top of them every
   edge whose label (other than low) the runtime used to ignore.
   */
  lemma PlainEdgesAfterSaving(g: Graph, agents: map<string, int>, id: string)
    requires CleanIds(g) && id !in IdsOfKind(g.nodes, "condition") && id !in IdsOfKind(g.nodes, "end")
    ensures PlainDestinations(RoundTrip(g, agents).nodes, RoundTrip(g, agents).edges, id)
         == PlainDestinations(g.nodes, g.edges, id) + LabelledDestinations(g.nodes, g.edges, id)
  {
    var saved := RoundTrip(g, agents);
    SavedKinds(g, agents, "end");
    SavedKinds(g, agents, "condition");
    forall b | b in PlainDestinations(saved.nodes, saved.edges, id)
      ensures b in PlainDestinations(g.nodes, g.edges, id) + LabelledDestinations(g.nodes, g.edges, id)
    {
      var s :| s in saved.edges && s.src == id && WiredEdge(saved.nodes, s) == Some((id, To(s.dst))) && s.dst == b;
      SavedEdges(g, agents, s);
      var e :| e in g.edges && Drawn(g.nodes, e) && Normalised(g.nodes, e) == s;
      DrawnByKind(g, e);
      WiredPlainly(saved.nodes, s);
      WiredPlainly(g.nodes, e);
    }
    forall e | e in g.edges && e.src == id && !IsLow(e) && e.dst !in IdsOfKind(g.nodes, "end")
      ensures e.dst in PlainDestinations(saved.nodes, saved.edges, id)
    {
      DrawnByKind(g, e);
      var s := Normalised(g.nodes, e);
      SavedEdges(g, agents, s);
      WiredPlainly(saved.nodes, s);
    }
    PlainIsNotLow(g, id);
  }

  lemma PlainIsNotLow(g: Graph, id: string)
    requires id !in IdsOfKind(g.nodes, "condition") && id !in IdsOfKind(g.nodes, "end")
    ensures forall b :: b in PlainDestinations(g.nodes, g.edges, id) ==>
              exists e :: e in g.edges && e.src == id && !IsLow(e) && e.dst !in IdsOfKind(g.nodes, "end") && e.dst == b
  {
    forall b | b in PlainDestinations(g.nodes, g.edges, id)
      ensures exists e :: e in g.edges && e.src == id && !IsLow(e) && e.dst !in IdsOfKind(g.nodes, "end") && e.dst == b
    {
      var e :| e in g.edges && e.src == id && WiredEdge(g.nodes, e) == Some((id, To(e.dst))) && e.dst == b;
      WiredPlainly(g.nodes, e);
    }
  }

  // ---------------------------------------------------------------- what a node does

  /** The agent that an agent node comes to name by id: its own, or else the one of that name in the editor's list. */
  function AgentIdAfterSaving(n: Node, agents: map<string, int>): Option<int> {
    match (n.agentId, n.agentName)
    case (Some(id), _) => Some(id)
    case (None, Some(name)) => if name != "" && name in agents then Some(agents[name]) else None
    case (None, None) => None
  }

  /** Every setting of a saved node, from the settings of the node at position `i`. */
  ghost predicate HasSettingsOf(saved: Node, n: Node, i: nat, agents: map<string, int>) {
    var kind := if n.kind.Some? && n.kind.value != "" then n.kind.value else "agent";
    && saved.id == (if n.id != "" then n.id else "node_" + Decimal(i + 1))
    && saved.kind == Some(kind) && saved.title == n.title && saved.agentName == None
    && saved.agentId == (if kind == "agent" then AgentIdAfterSaving(n, agents) else None)
    && saved.field == (if kind == "condition" && n.field != Some("") then n.field else None)
    && saved.threshold == (if kind == "condition" then n.threshold else None)
    && saved.channel == (if kind != "channel" then None
                         else if n.channel in {None, Some("")} then Some("telegram") else n.channel)
    && saved.posX == Some(if n.posX.Some? then n.posX.value else 60.0 + (i % 4) as real * 176.0)
    && saved.posY == Some(if n.posY.Some? then n.posY.value else 60.0 + (i / 4) as real * 140.0)
  }

  /**
   What saving makes of every setting. Title, position and threshold stay; so do an agent named by id, a
   field that is not blank and a channel that is named, read by a run as before. An agent named by name
   becomes the id that the editor's list has for it; the name itself is dropped.
   */
  lemma SettingsAfterSaving(g: Graph, agents: map<string, int>, i: nat)
    requires i < |g.nodes|
    ensures i < |RoundTrip(g, agents).nodes|
    ensures HasSettingsOf(RoundTrip(g, agents).nodes[i], g.nodes[i], i, agents)
    ensures var n, saved := g.nodes[i], RoundTrip(g, agents).nodes[i];
            && (n.kind == Some("condition") ==>
                  (saved.field.GetOr("confidence") == n.field.GetOr("confidence") <==> n.field != Some("")))
            && (n.kind == Some("channel") ==>
                  (saved.channel.GetOr("internal") == n.channel.GetOr("internal") <==> n.channel.GetOr("") != ""))
  {
    NodesReadBack(g, agents);
  }

  // ---------------------------------------------------------------- workflows that survive as a whole

  /** No edge leaves an end node, and only conditions label their edges. */
  ghost predicate EditorSafe(g: Graph) {
    && CleanIds(g)
    && forall e :: e in g.edges ==>
         && e.src !in IdsOfKind(g.nodes, "end")
         && (Labelled(e) ==> e.src in IdsOfKind(g.nodes, "condition"))
  }

  lemma SafeEdgesSurvive(g: Graph, agents: map<string, int>, e: Edge)
    requires EditorSafe(g) && e in g.edges
    ensures Normalised(g.nodes, e) in RoundTrip(g, agents).edges
  {
    DrawnByKind(g, e);
    SavedEdges(g, agents, Normalised(g.nodes, e));
  }

  /** `saved` has the ends of `e`; both are labelled at conditions only. */
  ghost predicate StemsFrom(g: Graph, saved: Edge, e: Edge) {
    && e in g.edges && e.src == saved.src && e.dst == saved.dst
    && if saved.src in IdsOfKind(g.nodes, "condition") then Labelled(saved) else !Labelled(saved) && !Labelled(e)
  }

  lemma NormalisedStems(g: Graph, e: Edge)
    requires EditorSafe(g) && e in g.edges
    ensures StemsFrom(g, Normalised(g.nodes, e), e)
  {
    DrawnByKind(g, e);
  }

  lemma SavedEdgeOrigin(g: Graph, agents: map<string, int>, saved: Edge)
    requires EditorSafe(g) && saved in RoundTrip(g, agents).edges
    ensures exists e :: StemsFrom(g, saved, e)
  {
    SavedEdges(g, agents, saved);
    var e :| e in g.edges && Drawn(g.nodes, e) && Normalised(g.nodes, e) == saved;
    NormalisedStems(g, e);
  }

  lemma SavedIdAt(g: Graph, agents: map<string, int>)
    requires CleanIds(g)
    ensures |RoundTrip(g, agents).nodes| == |g.nodes|
    ensures forall i :: 0 <= i < |g.nodes| ==> RoundTrip(g, agents).nodes[i].id == g.nodes[i].id
  {
    SavedNodes(g, agents);
    forall i | 0 <= i < |g.nodes| ensures SimpleId(g.nodes[i], i) == g.nodes[i].id {
      assert g.nodes[i] in g.nodes;
    }
  }

  lemma SameIds(a: seq<Node>, b: seq<Node>)
    requires |a| == |b| && forall i :: 0 <= i < |a| ==> a[i].id == b[i].id
    ensures Ids(a) <= Ids(b)
    ensures UniqueIds(b) ==> UniqueIds(a)
  {
    forall n | n in a ensures n.id in Ids(b) {
      var i :| 0 <= i < |a| && a[i] == n;
      assert b[i] in b;
    }
  }

  lemma SavedIds(g: Graph, agents: map<string, int>)
    requires CleanIds(g)
    ensures |RoundTrip(g, agents).nodes| == |g.nodes|
    ensures forall i :: 0 <= i < |g.nodes| ==> RoundTrip(g, agents).nodes[i].id == g.nodes[i].id
    ensures Ids(RoundTrip(g, agents).nodes) == Ids(g.nodes)
    ensures UniqueIds(RoundTrip(g, agents).nodes)
  {
    SavedIdAt(g, agents);
    SameIds(RoundTrip(g, agents).nodes, g.nodes);
    SameIds(g.nodes, RoundTrip(g, agents).nodes);
  }

  lemma SavedDestinations(g: Graph, agents: map<string, int>)
    requires EditorSafe(g)
    ensures Destinations(RoundTrip(g, agents).edges) == Destinations(g.edges)
  {
    forall e | e in g.edges ensures e.dst in Destinations(RoundTrip(g, agents).edges) {
      SafeEdgesSurvive(g, agents, e);
    }
    forall s | s in RoundTrip(g, agents).edges ensures s.dst in Destinations(g.edges) {
      SavedEdgeOrigin(g, agents, s);
    }
  }

  lemma SameEntry(nodes: seq<Node>, saved: seq<Node>, entered: set<string>, entry: string)
    requires |saved| == |nodes| && forall i :: 0 <= i < |nodes| ==> saved[i].id == nodes[i].id
    requires IsEntry(nodes, entered, entry)
    ensures IsEntry(saved, entered, entry)
  {
  }

  lemma SavedEntry(g: Graph, agents: map<string, int>)
    requires EditorSafe(g)
    ensures EntryNode(RoundTrip(g, agents).nodes, RoundTrip(g, agents).edges) == EntryNode(g.nodes, g.edges)
  {
    SavedIds(g, agents);
    SavedDestinations(g, agents);
    SameEntry(g.nodes, RoundTrip(g, agents).nodes, Destinations(g.edges), EntryNode(g.nodes, g.edges));
  }

  lemma SavedIsWellFormed(g: Graph, agents: map<string, int>)
    requires EditorSafe(g) && WellFormed(g.nodes, g.edges)
    ensures WellFormed(RoundTrip(g, agents).nodes, RoundTrip(g, agents).edges)
  {
    var saved := RoundTrip(g, agents);
    SavedIds(g, agents);
    SavedEntry(g, agents);
    SavedKinds(g, agents, "end");
    forall n | n in saved.nodes ensures KnownKind(n) {
      SavedKindKnown(g, agents, n);
    }
    forall s | s in saved.edges ensures s.src in Ids(g.nodes) && s.dst in Ids(g.nodes) {
      SavedEdgeOrigin(g, agents, s);
    }
  }

  lemma SavedKindKnown(g: Graph, agents: map<string, int>, n: Node)
    requires n in RoundTrip(g, agents).nodes && forall m :: m in g.nodes ==> KnownKind(m)
    ensures KnownKind(n) && n.kind.Some?
  {
    SavedNodes(g, agents);
    var i :| 0 <= i < |g.nodes| && RoundTrip(g, agents).nodes[i] == n;
    assert g.nodes[i] in g.nodes;
  }

  /** A condition of a workflow with clean ids resolves the same way after saving, with the default budget. */
  lemma ConditionSurvives(g: Graph, agents: map<string, int>, id: string)
    requires CleanIds(g) && id in IdsOfKind(g.nodes, "condition")
    ensures var before, after := Outgoing(g.edges, id), Outgoing(RoundTrip(g, agents).edges, id);
            && OkBranch(after) == OkBranch(before)
            && LowBranch(after) == LowBranch(before)
            && LoopBudget(after) == DEFAULT_MAX_LOOPS
  {
    CleanIdsMap(g);
    var n :| n in g.nodes && n.kind == Some("condition") && n.id == id;
    var i :| 0 <= i < |g.nodes| && g.nodes[i] == n;
    BranchesSurviveSaving(g, agents, i);
  }

  lemma SavedIsRanked(g: Graph, agents: map<string, int>, rank: string -> int)
    requires EditorSafe(g) && Ranked(g.nodes, g.edges, rank)
    ensures Ranked(RoundTrip(g, agents).nodes, RoundTrip(g, agents).edges, rank)
  {
    var saved := RoundTrip(g, agents);
    SavedKinds(g, agents, "condition");
    forall s | s in saved.edges && !Labelled(s) && s.src !in IdsOfKind(g.nodes, "condition")
      ensures rank(s.src) < rank(s.dst)
    {
      SavedEdgeOrigin(g, agents, s);
    }
    forall id | id in IdsOfKind(g.nodes, "condition") && OkBranch(Outgoing(saved.edges, id)).Some?
      ensures rank(id) < rank(OkBranch(Outgoing(saved.edges, id)).value)
    {
      ConditionSurvives(g, agents, id);
    }
  }

  lemma SavedHasNoFanOut(g: Graph, agents: map<string, int>)
    requires EditorSafe(g) && NoFanOut(g.nodes, g.edges)
    ensures NoFanOut(RoundTrip(g, agents).nodes, RoundTrip(g, agents).edges)
  {
    var saved := RoundTrip(g, agents);
    SavedKinds(g, agents, "condition");
    SavedKinds(g, agents, "end");
    forall a, b | a in saved.edges && b in saved.edges && a.src == b.src
                  && a.src !in IdsOfKind(g.nodes, "condition")
                  && a.dst !in IdsOfKind(g.nodes, "end") && b.dst !in IdsOfKind(g.nodes, "end")
      ensures a.dst == b.dst
    {
      SavedEdgeOrigin(g, agents, a);
      SavedEdgeOrigin(g, agents, b);
      var d :| StemsFrom(g, a, d);
      var e :| StemsFrom(g, b, e);
    }
  }

  lemma SavedIsBuildable(g: Graph, agents: map<string, int>)
    requires EditorSafe(g) && Buildable(g) && forall n :: n in g.nodes ==> KnownKind(n)
    ensures Buildable(RoundTrip(g, agents))
  {
    var saved := RoundTrip(g, agents);
    SavedKinds(g, agents, "condition");
    forall n | n in saved.nodes
      ensures n.kind.Some?
      ensures n.kind == Some("condition") ==>
                OkBranch(Outgoing(saved.edges, n.id)).Some? && LowBranch(Outgoing(saved.edges, n.id)).Some?
    {
      SavedKindKnown(g, agents, n);
      if n.kind == Some("condition") {
        assert n.id in IdsOfKind(saved.nodes, "condition");
        ConditionSurvives(g, agents, n.id);
      }
    }
  }

  function ConditionCount(nodes: seq<Node>): nat {
    if nodes == [] then 0
    else ConditionCount(nodes[..|nodes| - 1]) + if nodes[|nodes| - 1].kind == Some("condition") then 1 else 0
  }

  lemma {:induction false} DefaultBudgets(nodes: seq<Node>, edges: seq<Edge>)
    requires forall n :: n in nodes && n.kind == Some("condition") ==>
      LoopBudget(Outgoing(edges, n.id)) == DEFAULT_MAX_LOOPS
    ensures LoopBudgets(nodes, edges) == 3 * ConditionCount(nodes)
  {
    if nodes != [] {
      DefaultBudgets(nodes[..|nodes| - 1], edges);
    }
  }

  lemma {:induction false} SameConditionCount(a: seq<Node>, b: seq<Node>)
    requires |a| == |b|
    requires forall i :: 0 <= i < |a| ==> (a[i].kind == Some("condition") <==> b[i].kind == Some("condition"))
    ensures ConditionCount(a) == ConditionCount(b)
  {
    if a != [] {
      SameConditionCount(a[..|a| - 1], b[..|b| - 1]);
    }
  }

  lemma SavedBudgets(g: Graph, agents: map<string, int>)
    requires CleanIds(g)
    ensures LoopBudgets(RoundTrip(g, agents).nodes, RoundTrip(g, agents).edges) == 3 * ConditionCount(g.nodes)
  {
    var saved := RoundTrip(g, agents);
    SavedNodes(g, agents);
    SavedKinds(g, agents, "condition");
    forall n | n in saved.nodes && n.kind == Some("condition")
      ensures LoopBudget(Outgoing(saved.edges, n.id)) == DEFAULT_MAX_LOOPS
    {
      assert n.id in IdsOfKind(saved.nodes, "condition");
      ConditionSurvives(g, agents, n.id);
    }
    DefaultBudgets(saved.nodes, saved.edges);
    SameConditionCount(saved.nodes, g.nodes);
  }

  lemma SavedIdsTrimmed(g: Graph, agents: map<string, int>)
    requires CleanIds(g)
    ensures IdsTrimmed(RoundTrip(g, agents))
  {
    SavedCount(g, agents);
    forall n | n in RoundTrip(g, agents).nodes ensures Trimmed(n.id) {
      var i :| 0 <= i < |RoundTrip(g, agents).nodes| && RoundTrip(g, agents).nodes[i] == n;
      SavedNodeAt(g, agents, i);
      assert g.nodes[i] in g.nodes;
    }
  }

  /** After a save in the editor a ranked workflow still ends; its bound has three loops for each condition. */
  lemma SavedWorkflowFinishes(g: Graph, listed: map<string, int>, agents: map<string, int>, rank: string -> int)
    requires EditorSafe(g) && WellFormed(g.nodes, g.edges) && NoFanOut(g.nodes, g.edges)
    requires Ranked(g.nodes, g.edges, rank) && Buildable(g)
    requires AgentsLinked(RoundTrip(g, listed).nodes, agents)
    requires Bound(|g.nodes|, 3 * ConditionCount(g.nodes)) <= RECURSION_LIMIT
    ensures Bound(|RoundTrip(g, listed).nodes|, LoopBudgets(RoundTrip(g, listed).nodes, RoundTrip(g, listed).edges))
         == Bound(|g.nodes|, 3 * ConditionCount(g.nodes))
    ensures AlwaysFinishes(RoundTrip(g, listed), agents)
  {
    SavedIsWellFormed(g, listed);
    SavedHasNoFanOut(g, listed);
    SavedIsRanked(g, listed, rank);
    SavedIsBuildable(g, listed);
    SavedBudgets(g, listed);
    SavedIds(g, listed);
    SavedIdsTrimmed(g, listed);
    RankedWorkflowFinishes(RoundTrip(g, listed), agents, rank);
  }

  // ---------------------------------------------------------------- concrete findings

  /** Two agents, and between them an edge labelled ok. */
  function LabelledPair(a: string, b: string): Graph {
    Graph([AgentNode(a, "", ""), AgentNode(b, "", "")], [Edge(a, b, Some("ok"), None)])
  }

  lemma PairIsClean(a: string, b: string)
    requires a != b && a != "" && Trimmed(a) && b != "" && Trimmed(b)
    ensures CleanIds(LabelledPair(a, b))
  {
    var g := LabelledPair(a, b);
    assert g.nodes[0] in g.nodes && g.nodes[1] in g.nodes;
    assert g.nodes[0].id == a && g.nodes[1].id == b;
  }

  lemma PairIsLabelled(a: string, b: string)
    ensures var g := LabelledPair(a, b);
            && IdsOfKind(g.nodes, "condition") == {} && IdsOfKind(g.nodes, "end") == {}
            && PlainDestinations(g.nodes, g.edges, a) == {} && LabelledDestinations(g.nodes, g.edges, a) == {b}
  {
    var g := LabelledPair(a, b);
    forall n | n in g.nodes ensures n.kind == Some("agent") {}
    assert g.edges[0] in g.edges && Labelled(g.edges[0]) && !IsLow(g.edges[0]);
    assert forall e :: e in g.edges ==> e == g.edges[0];
  }

  /** An agent's edge labelled ok is ignored at run time, and wired once the editor has saved the graph. */
  lemma SavingWiresIgnoredEdge(a: string, b: string, agents: map<string, int>)
    requires a != b && a != "" && Trimmed(a) && b != "" && Trimmed(b)
    ensures var g := LabelledPair(a, b);
            && PlainDestinations(g.nodes, g.edges, a) == {}
            && PlainDestinations(RoundTrip(g, agents).nodes, RoundTrip(g, agents).edges, a) == {b}
  {
    PairIsClean(a, b);
    PairIsLabelled(a, b);
    PlainEdgesAfterSaving(LabelledPair(a, b), agents, a);
  }

  /** The development pipeline loses its budgets of two, gets three instead, and still ends, within 56 steps. */
  lemma DevPipelineFinishesAfterSaving(listed: map<string, int>, agents: map<string, int>)
    requires AgentsLinked(RoundTrip(DevPipeline(), listed).nodes, agents)
    ensures var saved := RoundTrip(DevPipeline(), listed);
      Bound(|saved.nodes|, LoopBudgets(saved.nodes, saved.edges)) == 56
    ensures AlwaysFinishes(RoundTrip(DevPipeline(), listed), agents)
  {
    var g := DevPipeline();
    DevIds();
    DevNodes();
    DevPlainInOrder();
    DevOkInOrder();
    DevEntry();
    InOrderIsKnown(g, DevLinks());
    InOrderIsRanked(g, DevLinks());
    InOrderHasNoFanOut(g, DevLinks());
    EntryIsFirst(g);
    DevIsSafe();
    DevConditionCount();
    SavedWorkflowFinishes(g, listed, agents, id => Position(g.nodes, id));
  }

  lemma {:induction false} NoConditionsToCount(nodes: seq<Node>)
    requires forall n :: n in nodes ==> n.kind != Some("condition")
    ensures ConditionCount(nodes) == 0
  {
    if nodes != [] {
      NoConditionsToCount(nodes[..|nodes| - 1]);
    }
  }

  lemma DevConditionCount()
    ensures ConditionCount(DevPipeline().nodes) == 2
  {
    var nodes := DevPipeline().nodes;
    NoConditionsToCount(nodes[..4]);
    assert nodes[..8] == nodes && nodes[..8][..7] == nodes[..7] && nodes[..7][..6] == nodes[..6];
    assert nodes[..6][..5] == nodes[..5] && nodes[..5][..4] == nodes[..4];
    assert ConditionCount(nodes[..6]) == 1;
  }

  lemma DevIsSafe()
    ensures EditorSafe(DevPipeline())
  {
    var g := DevPipeline();
    DevIds();
    DevNodes();
    DevIsLinked();
    InOrderIsKnown(g, DevLinks());
    DevIdsTrimmed();
    DevLabels();
  }

  lemma DevLabels()
    ensures IdsOfKind(DevPipeline().nodes, "end") == {}
    ensures forall e :: e in DevPipeline().edges && Labelled(e) ==> e.src in IdsOfKind(DevPipeline().nodes, "condition")
  {
    var g := DevPipeline();
    DevNodes();
    assert g.nodes[4] in g.nodes && g.nodes[6] in g.nodes;
    assert g.nodes[4].id == "review_gate" && g.nodes[6].id == "test_gate";
  }
}
