/** What opening a workflow in the visual editor and saving it keeps, and what it changes. */
module EditorRoundTrip {
  import opened Prelude
  import opened WorkflowGraph
  import opened Editor

  /** No two nodes have one id, counting the ids the editor makes up for nodes without one. */
  ghost predicate UniqueSimpleIds(nodes: seq<Node>) {
    forall i, j :: 0 <= i < j < |nodes| ==> SimpleId(nodes[i], i) != SimpleId(nodes[j], j)
  }

  // ---------------------------------------------------------------- the id maps

  lemma {:induction false} IdMapFinds(nodes: seq<Node>, n: nat, i: nat)
    requires UniqueSimpleIds(nodes) && i < n <= |nodes|
    ensures SimpleId(nodes[i], i) in IdMapUpTo(nodes, n) && IdMapUpTo(nodes, n)[SimpleId(nodes[i], i)] == i + 1
  {
    if i < n - 1 {
      IdMapFinds(nodes, n - 1, i);
    }
  }

  lemma {:induction false} IdMapOrigin(nodes: seq<Node>, n: nat, id: string)
    requires n <= |nodes| && id in IdMapUpTo(nodes, n)
    ensures SimpleId(nodes[IdMapUpTo(nodes, n)[id] - 1], IdMapUpTo(nodes, n)[id] - 1) == id
  {
    if id != SimpleId(nodes[n - 1], n - 1) {
      IdMapOrigin(nodes, n - 1, id);
    }
  }

  lemma {:induction false} IdMapDependsOnIds(a: seq<Node>, b: seq<Node>, n: nat)
    requires n <= |a| == |b| && forall i :: 0 <= i < |a| ==> SimpleId(a[i], i) == SimpleId(b[i], i)
    ensures IdMapUpTo(a, n) == IdMapUpTo(b, n)
  {
    if n > 0 {
      IdMapDependsOnIds(a, b, n - 1);
    }
  }

  /** The editor's ids are 1, 2, ... and stand for the nodes in order. */
  lemma {:induction false} ReadIdsOf(data: seq<DrawnNode>, n: nat)
    requires n <= |data| && forall k :: 0 <= k < |data| ==> data[k].id == k + 1
    ensures forall k :: k in ReadIds(data, n) <==> 1 <= k <= n
    ensures forall k :: 1 <= k <= n ==> ReadIds(data, n)[k] == ReadId(data[k - 1])
  {
    if n > 0 {
      ReadIdsOf(data, n - 1);
    }
  }

  lemma DrawnIds(g: Graph, agents: map<string, int>, k: nat)
    requires k < |g.nodes|
    ensures IsDrawnAt(g.nodes, Drawflow(g, agents), k)
  {
  }

  lemma ReadIdsFinds(g: Graph, agents: map<string, int>)
    ensures KnowsIds(g.nodes, ReadIds(Drawflow(g, agents), |g.nodes|))
  {
    var data := Drawflow(g, agents);
    forall k | 0 <= k < |data| ensures IsDrawnAt(g.nodes, data, k) {
      DrawnIds(g, agents, k);
    }
    ReadIdsOfDrawn(g.nodes, data, ReadIds(data, |data|));
  }

  ghost predicate IsDrawnAt(nodes: seq<Node>, data: seq<DrawnNode>, k: nat)
    requires k < |nodes| == |data|
  {
    data[k].id == k + 1 && ReadId(data[k]) == SimpleId(nodes[k], k)
  }

  lemma ReadIdAt(nodes: seq<Node>, data: seq<DrawnNode>, k: nat)
    requires |data| == |nodes| && k < |nodes| && IsDrawnAt(nodes, data, k)
    requires forall k :: 0 <= k < |data| ==> data[k].id == k + 1
    ensures k + 1 in ReadIds(data, |nodes|) && ReadIds(data, |nodes|)[k + 1] == SimpleId(nodes[k], k)
  {
    ReadIdsOf(data, |data|);
  }

  /** `ids` maps 1, 2, ... to the ids of the nodes in order. */
  ghost predicate KnowsIds(nodes: seq<Node>, ids: map<nat, string>) {
    && (forall k :: k in ids <==> 1 <= k <= |nodes|)
    && (forall k :: 1 <= k <= |nodes| ==> ids[k] == SimpleId(nodes[k - 1], k - 1))
  }

  lemma ReadIdsOfDrawn(nodes: seq<Node>, data: seq<DrawnNode>, ids: map<nat, string>)
    requires |data| == |nodes| && forall k :: 0 <= k < |nodes| ==> IsDrawnAt(nodes, data, k)
    requires ids == ReadIds(data, |data|)
    ensures KnowsIds(nodes, ids)
  {
    forall k | 0 <= k < |data| ensures data[k].id == k + 1 {
      assert IsDrawnAt(nodes, data, k);
    }
    ReadIdsOf(data, |data|);
    forall k | 1 <= k <= |nodes| ensures ids[k] == SimpleId(nodes[k - 1], k - 1) {
      ReadIdAt(nodes, data, k - 1);
    }
  }

  // ---------------------------------------------------------------- one port

  /** The form in which an edge comes back: labelled exactly when it leaves a condition, without a budget. */
  ghost function Normalised(nodes: seq<Node>, e: Edge): Edge {
    Edge(e.src, e.dst,
         if e.src in IdMap(nodes)
         then WhenFromOutputKey(OutputKeyForWhen(e.when), EditorKind(nodes[IdMap(nodes)[e.src] - 1]))
         else None,
         None)
  }

  ghost function NormalisedFrom(g: Graph, i: nat, port: Port): seq<Edge> {
    Map(e => Normalised(g.nodes, e), DrawnFrom(g.nodes, g.edges, i, port))
  }

  lemma NoPortNothingDrawn(g: Graph, i: nat, port: Port)
    requires i < |g.nodes| && port !in OutputsForType(EditorKind(g.nodes[i]))
    ensures DrawnFrom(g.nodes, g.edges, i, port) == []
  {
    FilterNone((e: Edge) => LeavesBy(g.nodes, e, i, port), g.edges);
  }

  /** `ids` knows every node, and `d` is the editor's node at position `i`. */
  ghost predicate ReadsNode(nodes: seq<Node>, ids: map<nat, string>, d: DrawnNode, i: nat) {
    && i < |nodes| && ReadId(d) == SimpleId(nodes[i], i) && d.name == EditorKind(nodes[i])
    && KnowsIds(nodes, ids)
  }

  lemma ConnectionReadsBack(nodes: seq<Node>, ids: map<nat, string>, d: DrawnNode, i: nat, port: Port, e: Edge)
    requires ReadsNode(nodes, ids, d, i) && LeavesBy(nodes, e, i, port)
    ensures ConnectionTo(nodes, e).node in ids
    ensures Edge(ReadId(d), ids[ConnectionTo(nodes, e).node], WhenFromOutputKey(port, d.name), None)
         == Normalised(nodes, e)
  {
    IdMapOrigin(nodes, |nodes|, e.src);
    IdMapOrigin(nodes, |nodes|, e.dst);
  }

  lemma {:induction false} ConnectionsReadBack(
    nodes: seq<Node>, ids: map<nat, string>, d: DrawnNode, i: nat, port: Port, edges: seq<Edge>)
    requires ReadsNode(nodes, ids, d, i)
    requires forall e :: e in edges ==> LeavesBy(nodes, e, i, port)
    ensures ReadConnections(ids, d, port, Map(e => ConnectionTo(nodes, e), edges))
         == Map(e => Normalised(nodes, e), edges)
  {
    if edges != [] {
      var init, last := edges[..|edges| - 1], edges[|edges| - 1];
      var connections := Map(e => ConnectionTo(nodes, e), edges);
      assert connections[..|edges| - 1] == Map(e => ConnectionTo(nodes, e), init);
      ConnectionsReadBack(nodes, ids, d, i, port, init);
      assert last in edges;
      ConnectionReadsBack(nodes, ids, d, i, port, last);
    }
  }

  lemma PortReadsBack(g: Graph, agents: map<string, int>, i: nat, port: Port)
    requires i < |g.nodes|
    ensures ReadPort(ReadIds(Drawflow(g, agents), |g.nodes|), Drawflow(g, agents)[i], port)
         == NormalisedFrom(g, i, port)
  {
    var d := Drawflow(g, agents)[i];
    if port in d.outputs {
      ReadIdsFinds(g, agents);
      ConnectionsReadBack(g.nodes, ReadIds(Drawflow(g, agents), |g.nodes|), d, i, port,
        DrawnFrom(g.nodes, g.edges, i, port));
    } else {
      NoPortNothingDrawn(g, i, port);
    }
  }

  // ---------------------------------------------------------------- the whole edge list

  /** The edges that come back from the first `n` nodes: grouped by node, then by port, each group in stored order. */
  ghost function Regrouped(g: Graph, n: nat): seq<Edge> {
    if n == 0 then []
    else Regrouped(g, n - 1) + NormalisedFrom(g, n - 1, Output1) + NormalisedFrom(g, n - 1, Output2)
  }

  lemma {:induction false} EdgesReadBack(g: Graph, ids: map<nat, string>, data: seq<DrawnNode>, n: nat)
    requires n <= |g.nodes| == |data|
    requires forall i, port :: 0 <= i < |g.nodes| ==> ReadPort(ids, data[i], port) == NormalisedFrom(g, i, port)
    ensures ReadEdges(ids, data, n) == Regrouped(g, n)
  {
    if n > 0 {
      EdgesReadBack(g, ids, data, n - 1);
    }
  }

  lemma EdgesAreRegrouped(g: Graph, agents: map<string, int>)
    ensures RoundTrip(g, agents).edges == Regrouped(g, |g.nodes|)
  {
    var data := Drawflow(g, agents);
    forall i, port | 0 <= i < |g.nodes|
      ensures ReadPort(ReadIds(data, |data|), data[i], port) == NormalisedFrom(g, i, port)
    {
      PortReadsBack(g, agents, i, port);
    }
    EdgesReadBack(g, ReadIds(data, |data|), data, |data|);
  }

  lemma NodesReadBack(g: Graph, agents: map<string, int>)
    ensures |RoundTrip(g, agents).nodes| == |g.nodes|
    ensures forall i :: 0 <= i < |g.nodes| ==>
      RoundTrip(g, agents).nodes[i] == ReadNode(DrawNode(g.nodes[i], i, agents))
  {
  }

  /** The edge leaves the node at position `i` by this port. */
  ghost predicate InGroup(nodes: seq<Node>, e: Edge, i: nat, port: Port)
    requires i < |nodes|
  {
    e.src == SimpleId(nodes[i], i) && OutputKeyForWhen(e.when) == port
  }

  lemma NormalisedGroup(g: Graph, i: nat, port: Port)
    requires i < |g.nodes|
    ensures forall e :: e in NormalisedFrom(g, i, port) ==>
              InGroup(g.nodes, e, i, port) && Drawn(g.nodes, e) && Normalised(g.nodes, e) == e
  {
    var originals, edges := DrawnFrom(g.nodes, g.edges, i, port), NormalisedFrom(g, i, port);
    forall e | e in edges
      ensures InGroup(g.nodes, e, i, port) && Drawn(g.nodes, e) && Normalised(g.nodes, e) == e
    {
      var k :| 0 <= k < |edges| && edges[k] == e;
      assert originals[k] in originals;
      NormalisedEdge(g.nodes, originals[k], i, port);
    }
  }

  lemma NormalisedEdge(nodes: seq<Node>, e: Edge, i: nat, port: Port)
    requires i < |nodes| && LeavesBy(nodes, e, i, port)
    ensures var n := Normalised(nodes, e);
            InGroup(nodes, n, i, port) && Drawn(nodes, n) && Normalised(nodes, n) == n
  {
    IdMapOrigin(nodes, |nodes|, e.src);
  }

  ghost function GroupOf(nodes: seq<Node>, edges: seq<Edge>, i: nat, port: Port): seq<Edge>
    requires i < |nodes|
  {
    Filter((e: Edge) => InGroup(nodes, e, i, port), edges)
  }

  lemma GroupOfGroup(g: Graph, i: nat, port: Port, j: nat, q: Port)
    requires UniqueSimpleIds(g.nodes) && i < |g.nodes| && j < |g.nodes|
    ensures GroupOf(g.nodes, NormalisedFrom(g, j, q), i, port)
         == if i == j && port == q then NormalisedFrom(g, i, port) else []
  {
    NormalisedGroup(g, j, q);
    if i == j && port == q {
      FilterAll((e: Edge) => InGroup(g.nodes, e, i, port), NormalisedFrom(g, j, q));
    } else {
      FilterNone((e: Edge) => InGroup(g.nodes, e, i, port), NormalisedFrom(g, j, q));
    }
  }

  lemma GroupAppend(nodes: seq<Node>, a: seq<Edge>, b: seq<Edge>, i: nat, port: Port)
    requires i < |nodes|
    ensures GroupOf(nodes, a + b, i, port) == GroupOf(nodes, a, i, port) + GroupOf(nodes, b, i, port)
  {
    FilterAppend((e: Edge) => InGroup(nodes, e, i, port), a, b);
  }

  lemma GroupOfNode(g: Graph, j: nat, i: nat, port: Port)
    requires UniqueSimpleIds(g.nodes) && i < |g.nodes| && j < |g.nodes|
    ensures GroupOf(g.nodes, NormalisedFrom(g, j, Output1) + NormalisedFrom(g, j, Output2), i, port)
         == if i == j then NormalisedFrom(g, i, port) else []
  {
    GroupAppend(g.nodes, NormalisedFrom(g, j, Output1), NormalisedFrom(g, j, Output2), i, port);
    GroupOfGroup(g, i, port, j, Output1);
    GroupOfGroup(g, i, port, j, Output2);
  }

  lemma RegroupedNode(g: Graph, n: nat)
    requires 0 < n <= |g.nodes|
    ensures Regrouped(g, n)
         == Regrouped(g, n - 1) + (NormalisedFrom(g, n - 1, Output1) + NormalisedFrom(g, n - 1, Output2))
  {
    assert Regrouped(g, n)
      == Regrouped(g, n - 1) + NormalisedFrom(g, n - 1, Output1) + NormalisedFrom(g, n - 1, Output2);
  }

  /** What the node at position `i` contributes. */
  ghost function NodeEdges(g: Graph, i: nat): seq<Edge> {
    NormalisedFrom(g, i, Output1) + NormalisedFrom(g, i, Output2)
  }

  ghost function KeptUpTo(g: Graph, keep: Edge -> bool, n: nat): seq<Edge> {
    Filter(keep, Regrouped(g, n))
  }

  lemma KeptOfNextNode(g: Graph, keep: Edge -> bool, k: nat)
    requires k < |g.nodes|
    ensures KeptUpTo(g, keep, k + 1) == KeptUpTo(g, keep, k) + Filter(keep, NodeEdges(g, k))
  {
    RegroupedNode(g, k + 1);
    FilterAppend(keep, Regrouped(g, k), NodeEdges(g, k));
  }

  /** A filter that keeps edges of one node only keeps those, of all the edges that come back. */
  lemma FilterOneNode(g: Graph, keep: Edge -> bool, i: nat)
    requires i < |g.nodes|
    requires forall k :: 0 <= k < |g.nodes| && k != i ==> Filter(keep, NodeEdges(g, k)) == []
    ensures Filter(keep, Regrouped(g, |g.nodes|)) == Filter(keep, NodeEdges(g, i))
  {
    var size := |g.nodes|;
    var whole := seq(size + 1, k requires 0 <= k <= size => KeptUpTo(g, keep, k));
    var parts := seq(size, k requires 0 <= k < size => Filter(keep, NodeEdges(g, k)));
    forall k | 0 <= k < size ensures whole[k + 1] == whole[k] + parts[k] {
      KeptOfNextNode(g, keep, k);
      assert whole[k] == KeptUpTo(g, keep, k) && whole[k + 1] == KeptUpTo(g, keep, k + 1);
    }
    OneOfMany(whole, parts, i, size);
  }

  lemma GroupOfRegrouped(g: Graph, i: nat, port: Port)
    requires UniqueSimpleIds(g.nodes) && i < |g.nodes|
    ensures GroupOf(g.nodes, Regrouped(g, |g.nodes|), i, port) == NormalisedFrom(g, i, port)
  {
    var nodes := g.nodes;
    var keep := (e: Edge) => InGroup(nodes, e, i, port);
    forall k | 0 <= k < |nodes|
      ensures Filter(keep, NodeEdges(g, k)) == if i == k then NormalisedFrom(g, i, port) else []
    {
      GroupOfNode(g, k, i, port);
    }
    FilterOneNode(g, keep, i);
  }

  /** Node position first, then port. */
  ghost function Slot(nodes: seq<Node>, e: Edge): int {
    if e.src in IdMap(nodes) then 2 * (IdMap(nodes)[e.src] - 1) + (if OutputKeyForWhen(e.when) == Output2 then 1 else 0)
    else -1
  }

  ghost predicate SortedBySlot(nodes: seq<Node>, edges: seq<Edge>) {
    forall a, b :: 0 <= a < b < |edges| ==> Slot(nodes, edges[a]) <= Slot(nodes, edges[b])
  }

  lemma SlotsOfGroup(g: Graph, i: nat, port: Port)
    requires UniqueSimpleIds(g.nodes) && i < |g.nodes|
    ensures forall e :: e in NormalisedFrom(g, i, port) ==>
      Slot(g.nodes, e) == 2 * i + (if port == Output2 then 1 else 0)
  {
    NormalisedGroup(g, i, port);
    IdMapFinds(g.nodes, |g.nodes|, i);
  }

  lemma {:induction false} RegroupedOrigin(g: Graph, n: nat, e: Edge) returns (j: nat, port: Port)
    requires n <= |g.nodes| && e in Regrouped(g, n)
    ensures j < n && e in NormalisedFrom(g, j, port)
  {
    if e in NormalisedFrom(g, n - 1, Output1) {
      j, port := n - 1, Output1;
    } else if e in NormalisedFrom(g, n - 1, Output2) {
      j, port := n - 1, Output2;
    } else {
      j, port := RegroupedOrigin(g, n - 1, e);
    }
  }

  lemma SortedAppend(nodes: seq<Node>, a: seq<Edge>, b: seq<Edge>, slot: int)
    requires SortedBySlot(nodes, a) && (forall e :: e in a ==> Slot(nodes, e) < slot)
    requires forall e :: e in b ==> Slot(nodes, e) == slot
    ensures SortedBySlot(nodes, a + b)
    ensures forall e :: e in a + b ==> Slot(nodes, e) < slot + 1
  {
  }

  lemma RegroupedSlots(g: Graph, n: nat)
    requires UniqueSimpleIds(g.nodes) && n <= |g.nodes|
    ensures forall e :: e in Regrouped(g, n) ==> Slot(g.nodes, e) < 2 * n
  {
    forall e | e in Regrouped(g, n) ensures Slot(g.nodes, e) < 2 * n {
      var j, port := RegroupedOrigin(g, n, e);
      SlotsOfGroup(g, j, port);
    }
  }

  lemma NodeSorted(g: Graph, edges: seq<Edge>, i: nat)
    requires UniqueSimpleIds(g.nodes) && i < |g.nodes|
    requires SortedBySlot(g.nodes, edges) && forall e :: e in edges ==> Slot(g.nodes, e) < 2 * i
    ensures SortedBySlot(g.nodes, edges + NormalisedFrom(g, i, Output1) + NormalisedFrom(g, i, Output2))
  {
    var first := NormalisedFrom(g, i, Output1);
    SlotsOfGroup(g, i, Output1);
    SlotsOfGroup(g, i, Output2);
    SortedAppend(g.nodes, edges, first, 2 * i);
    SortedAppend(g.nodes, edges + first, NormalisedFrom(g, i, Output2), 2 * i + 1);
  }

  lemma NextNodeSorted(g: Graph, n: nat)
    requires UniqueSimpleIds(g.nodes) && n < |g.nodes|
    requires SortedBySlot(g.nodes, Regrouped(g, n))
    ensures SortedBySlot(g.nodes, Regrouped(g, n + 1))
  {
    RegroupedSlots(g, n);
    NodeSorted(g, Regrouped(g, n), n);
  }

  lemma {:induction false} RegroupedSorted(g: Graph, n: nat)
    requires UniqueSimpleIds(g.nodes) && n <= |g.nodes|
    ensures SortedBySlot(g.nodes, Regrouped(g, n))
  {
    if n == 0 {
      assert Regrouped(g, n) == [];
    } else {
      RegroupedSorted(g, n - 1);
      NextNodeSorted(g, n - 1);
      assert n - 1 + 1 == n;
    }
  }

  lemma RegroupedDrawn(g: Graph, n: nat)
    requires n <= |g.nodes|
    ensures forall e :: e in Regrouped(g, n) ==> Drawn(g.nodes, e) && Normalised(g.nodes, e) == e
  {
    forall e | e in Regrouped(g, n) ensures Drawn(g.nodes, e) && Normalised(g.nodes, e) == e {
      var j, port := RegroupedOrigin(g, n, e);
      NormalisedGroup(g, j, port);
    }
  }

  /**
   The round trip is a stable sort of the drawable edges by (source position, port): every node stays,
   the edge list is sorted, and each port carries exactly its drawable edges, in stored order, normalised.
   */
  lemma RoundTripEdges(g: Graph, agents: map<string, int>)
    requires UniqueSimpleIds(g.nodes)
    ensures SortedBySlot(g.nodes, RoundTrip(g, agents).edges)
    ensures forall e :: e in RoundTrip(g, agents).edges ==> Drawn(g.nodes, e)
    ensures forall i, port :: 0 <= i < |g.nodes| ==>
              GroupOf(g.nodes, RoundTrip(g, agents).edges, i, port)
              == Map(e => Normalised(g.nodes, e), DrawnFrom(g.nodes, g.edges, i, port))
  {
    EdgesAreRegrouped(g, agents);
    RegroupedSorted(g, |g.nodes|);
    RegroupedDrawn(g, |g.nodes|);
    forall i, port | 0 <= i < |g.nodes|
      ensures GroupOf(g.nodes, RoundTrip(g, agents).edges, i, port) == NormalisedFrom(g, i, port)
    {
      GroupOfRegrouped(g, i, port);
    }
  }

  // ---------------------------------------------------------------- doing it twice

  lemma NodeTwice(n: Node, index: nat, agents: map<string, int>, others: map<string, int>)
    ensures var once := ReadNode(DrawNode(n, index, agents));
            && ReadNode(DrawNode(once, index, others)) == once
            && SimpleId(once, index) == once.id == SimpleId(n, index)
            && EditorKind(once) == EditorKind(n) && once.kind == Some(EditorKind(n))
  {
  }

  /** The saved nodes have the ids and types that the editor worked with. */
  lemma SavedNodes(g: Graph, agents: map<string, int>)
    ensures |RoundTrip(g, agents).nodes| == |g.nodes|
    ensures forall i :: 0 <= i < |g.nodes| ==>
              && RoundTrip(g, agents).nodes[i].id == SimpleId(g.nodes[i], i)
              && SimpleId(RoundTrip(g, agents).nodes[i], i) == SimpleId(g.nodes[i], i)
              && RoundTrip(g, agents).nodes[i].kind == Some(EditorKind(g.nodes[i]))
              && EditorKind(RoundTrip(g, agents).nodes[i]) == EditorKind(g.nodes[i])
    ensures IdMap(RoundTrip(g, agents).nodes) == IdMap(g.nodes)
  {
    NodesReadBack(g, agents);
    forall i | 0 <= i < |g.nodes|
      ensures SimpleId(RoundTrip(g, agents).nodes[i], i) == RoundTrip(g, agents).nodes[i].id == SimpleId(g.nodes[i], i)
      ensures RoundTrip(g, agents).nodes[i].kind == Some(EditorKind(g.nodes[i]))
    {
      NodeTwice(g.nodes[i], i, agents, agents);
    }
    IdMapDependsOnIds(RoundTrip(g, agents).nodes, g.nodes, |g.nodes|);
  }

  /** In a saved graph every edge leaves by the port of its group. */
  lemma SavedEdgeLeaves(g: Graph, saved: Graph, e: Edge, i: nat, port: Port)
    requires UniqueSimpleIds(g.nodes) && i < |g.nodes| == |saved.nodes| && IdMap(saved.nodes) == IdMap(g.nodes)
    requires forall k :: 0 <= k < |g.nodes| ==> EditorKind(saved.nodes[k]) == EditorKind(g.nodes[k])
    requires Drawn(g.nodes, e)
    ensures LeavesBy(saved.nodes, e, i, port) == InGroup(g.nodes, e, i, port)
    ensures Normalised(saved.nodes, e) == Normalised(g.nodes, e)
  {
    IdMapFinds(g.nodes, |g.nodes|, i);
    IdMapOrigin(g.nodes, |g.nodes|, e.src);
  }

  lemma SamePort(g: Graph, saved: Graph, i: nat, port: Port)
    requires UniqueSimpleIds(g.nodes) && i < |g.nodes| == |saved.nodes|
    requires saved.edges == Regrouped(g, |g.nodes|) && IdMap(saved.nodes) == IdMap(g.nodes)
    requires forall k :: 0 <= k < |g.nodes| ==> EditorKind(saved.nodes[k]) == EditorKind(g.nodes[k])
    ensures NormalisedFrom(saved, i, port) == NormalisedFrom(g, i, port)
  {
    RegroupedDrawn(g, |g.nodes|);
    forall e | e in saved.edges
      ensures LeavesBy(saved.nodes, e, i, port) == InGroup(g.nodes, e, i, port) && Normalised(saved.nodes, e) == e
    {
      SavedEdgeLeaves(g, saved, e, i, port);
    }
    FilterAgree((e: Edge) => LeavesBy(saved.nodes, e, i, port), (e: Edge) => InGroup(g.nodes, e, i, port), saved.edges);
    GroupOfRegrouped(g, i, port);
  }

  lemma {:induction false} SameRegrouped(g: Graph, saved: Graph, n: nat)
    requires UniqueSimpleIds(g.nodes) && n <= |g.nodes| == |saved.nodes|
    requires saved.edges == Regrouped(g, |g.nodes|) && IdMap(saved.nodes) == IdMap(g.nodes)
    requires forall k :: 0 <= k < |g.nodes| ==> EditorKind(saved.nodes[k]) == EditorKind(g.nodes[k])
    ensures Regrouped(saved, n) == Regrouped(g, n)
  {
    if n > 0 {
      SameRegrouped(g, saved, n - 1);
      SamePort(g, saved, n - 1, Output1);
      SamePort(g, saved, n - 1, Output2);
    }
  }

  /** A second round trip changes nothing, even when the agents have changed in between. */
  lemma RoundTripTwice(g: Graph, agents: map<string, int>, others: map<string, int>)
    requires UniqueSimpleIds(g.nodes)
    ensures RoundTrip(RoundTrip(g, agents), others) == RoundTrip(g, agents)
  {
    var once := RoundTrip(g, agents);
    var twice := RoundTrip(once, others);
    EdgesAreRegrouped(g, agents);
    EdgesAreRegrouped(once, others);
    NodesReadBack(g, agents);
    NodesReadBack(once, others);
    SavedNodes(g, agents);
    SameRegrouped(g, once, |g.nodes|);
    forall i | 0 <= i < |g.nodes| ensures twice.nodes[i] == once.nodes[i] {
      NodeTwice(g.nodes[i], i, agents, others);
    }
  }
}
