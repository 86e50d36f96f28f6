/**
 The stored workflow: the `{nodes, edges}` JSON object that the editor saves, the seeds write and
 the runtime compiles, and the way the runtime reads it (graph_builder.py).
 */
module WorkflowGraph {
  import opened Prelude
  import opened Text

  /** One entry of `nodes`; `None` is a key the JSON object does not have. */
  datatype Node = Node(
    id: string,
    kind: Option<string>,
    title: string,
    agentId: Option<int>,
    agentName: Option<string>,
    field: Option<string>,
    threshold: Option<real>,
    channel: Option<string>,
    posX: Option<real>,
    posY: Option<real>)

  /** One entry of `edges`. */
  datatype Edge = Edge(src: string, dst: string, when: Option<string>, maxLoops: Option<int>)

  datatype Graph = Graph(nodes: seq<Node>, edges: seq<Edge>)

  predicate IsLow(e: Edge) {
    e.when == Some("low")
  }

  /** `if edge.get("when")`: the label is there and is not the empty string. */
  predicate Labelled(e: Edge) {
    e.when.Some? && e.when.value != ""
  }

  // ---------------------------------------------------------------- reading the JSON

  function TrimNode(n: Node): Node {
    n.(id := Strip(n.id))
  }

  function TrimEdge(e: Edge): Edge {
    e.(src := Strip(e.src), dst := Strip(e.dst))
  }

  /** The nodes the runtime sees: ids trimmed, nodes whose id is blank dropped. */
  function NormalizedNodes(raw: seq<Node>): seq<Node> {
    Filter((n: Node) => n.id != "", Map(TrimNode, raw))
  }

  /** The edges the runtime sees: ends trimmed, edges with a blank end dropped. */
  function NormalizedEdges(raw: seq<Edge>): seq<Edge> {
    Filter((e: Edge) => e.src != "" && e.dst != "", Map(TrimEdge, raw))
  }

  method NormalizeNodes(raw: seq<Node>) returns (normalized: seq<Node>)
    ensures normalized == NormalizedNodes(raw)
  {
    normalized := [];
    ghost var keep := (n: Node) => n.id != "";
    for i := 0 to |raw|
      invariant normalized == NormalizedNodes(raw[..i])
    {
      assert Map(TrimNode, raw[..i + 1])[..i] == Map(TrimNode, raw[..i]);
      var id := Strip(raw[i].id);
      if id != "" {
        normalized := normalized + [raw[i].(id := id)];
      }
    }
    assert raw[..|raw|] == raw;
  }

  method NormalizeEdges(raw: seq<Edge>) returns (edges: seq<Edge>)
    ensures edges == NormalizedEdges(raw)
  {
    edges := [];
    for i := 0 to |raw|
      invariant edges == NormalizedEdges(raw[..i])
    {
      assert Map(TrimEdge, raw[..i + 1])[..i] == Map(TrimEdge, raw[..i]);
      var src, dst := Strip(raw[i].src), Strip(raw[i].dst);
      if src != "" && dst != "" {
        edges := edges + [raw[i].(src := src, dst := dst)];
      }
    }
    assert raw[..|raw|] == raw;
  }

  ghost predicate IsNormal(g: Graph) {
    && (forall n :: n in g.nodes ==> Trimmed(n.id) && n.id != "")
    && (forall e :: e in g.edges ==> Trimmed(e.src) && Trimmed(e.dst) && e.src != "" && e.dst != "")
  }

  lemma NormalizedIsNormal(g: Graph)
    ensures IsNormal(Graph(NormalizedNodes(g.nodes), NormalizedEdges(g.edges)))
  {
    forall n | n in NormalizedNodes(g.nodes) ensures Trimmed(n.id) && n.id != "" {
      var k :| 0 <= k < |g.nodes| && Map(TrimNode, g.nodes)[k] == n;
    }
    forall e | e in NormalizedEdges(g.edges) ensures Trimmed(e.src) && Trimmed(e.dst) && e.src != "" && e.dst != "" {
      var k :| 0 <= k < |g.edges| && Map(TrimEdge, g.edges)[k] == e;
    }
  }

  /** Every node and edge that is kept is a stored one with its ids trimmed, and all with ids are kept. */
  lemma NormalizedExactly(g: Graph, n: Node, e: Edge)
    ensures n in NormalizedNodes(g.nodes)
       <==> exists raw :: raw in g.nodes && Strip(raw.id) != "" && n == raw.(id := Strip(raw.id))
    ensures e in NormalizedEdges(g.edges)
       <==> exists raw :: raw in g.edges && Strip(raw.src) != "" && Strip(raw.dst) != ""
                       && e == raw.(src := Strip(raw.src), dst := Strip(raw.dst))
  {
    forall raw | raw in g.nodes ensures TrimNode(raw) in Map(TrimNode, g.nodes) {
      var k :| 0 <= k < |g.nodes| && g.nodes[k] == raw;
      assert Map(TrimNode, g.nodes)[k] == TrimNode(raw);
    }
    forall raw | raw in g.edges ensures TrimEdge(raw) in Map(TrimEdge, g.edges) {
      var k :| 0 <= k < |g.edges| && g.edges[k] == raw;
      assert Map(TrimEdge, g.edges)[k] == TrimEdge(raw);
    }
  }

  /** Normalizing drops nothing and changes nothing exactly when every id and every end is trimmed and not blank. */
  lemma NormalizedIdentity(g: Graph)
    ensures IsNormal(g) <==> NormalizedNodes(g.nodes) == g.nodes && NormalizedEdges(g.edges) == g.edges
  {
    if IsNormal(g) {
      assert Map(TrimNode, g.nodes) == g.nodes;
      assert Map(TrimEdge, g.edges) == g.edges;
      FilterAll((n: Node) => n.id != "", g.nodes);
      FilterAll((e: Edge) => e.src != "" && e.dst != "", g.edges);
    }
    NormalizedIsNormal(g);
  }

  // ---------------------------------------------------------------- looking things up

  /** The edges that leave `id`, in stored order. */
  function Outgoing(edges: seq<Edge>, id: string): seq<Edge> {
    Filter((e: Edge) => e.src == id, edges)
  }

  lemma OutgoingAppend(a: seq<Edge>, b: seq<Edge>, id: string)
    ensures Outgoing(a + b, id) == Outgoing(a, id) + Outgoing(b, id)
  {
    FilterAppend((e: Edge) => e.src == id, a, b);
  }

  ghost function Sources(edges: seq<Edge>): set<string> {
    set e | e in edges :: e.src
  }

  ghost function Destinations(edges: seq<Edge>): set<string> {
    set e | e in edges :: e.dst
  }

  /** `outgoing.get(id, [])` */
  function Branches(outgoing: map<string, seq<Edge>>, id: string): seq<Edge> {
    if id in outgoing then outgoing[id] else []
  }

  method OutgoingMap(edges: seq<Edge>) returns (outgoing: map<string, seq<Edge>>)
    ensures outgoing.Keys == Sources(edges)
    ensures forall id :: Branches(outgoing, id) == Outgoing(edges, id)
  {
    outgoing := map[];
    for i := 0 to |edges|
      invariant outgoing.Keys == Sources(edges[..i])
      invariant forall id :: Branches(outgoing, id) == Outgoing(edges[..i], id)
    {
      var e := edges[i];
      assert edges[..i + 1] == edges[..i] + [e];
      ghost var before := outgoing;
      outgoing := outgoing[e.src := Branches(outgoing, e.src) + [e]];
      forall id
        ensures Branches(outgoing, id) == Outgoing(edges[..i + 1], id)
      {
        OutgoingAppend(edges[..i], [e], id);
        assert Branches(outgoing, id) == Branches(before, id) + if e.src == id then [e] else [];
      }
    }
    assert edges[..|edges|] == edges;
  }

  /** `{n["id"]: n for n in nodes}`: of two nodes with one id the later stays. */
  function NodeById(nodes: seq<Node>): (byId: map<string, Node>)
    ensures forall id :: id in byId <==> exists n :: n in nodes && n.id == id
    ensures forall id :: id in byId ==> byId[id] in nodes && byId[id].id == id
  {
    if nodes == [] then map[] else
    assert nodes == nodes[..|nodes| - 1] + [nodes[|nodes| - 1]];
    NodeById(nodes[..|nodes| - 1])[nodes[|nodes| - 1].id := nodes[|nodes| - 1]]
  }

  ghost predicate UniqueIds(nodes: seq<Node>) {
    forall i, j :: 0 <= i < j < |nodes| ==> nodes[i].id != nodes[j].id
  }

  lemma NodeByUniqueId(nodes: seq<Node>, n: Node)
    requires UniqueIds(nodes) && n in nodes
    ensures n.id in NodeById(nodes) && NodeById(nodes)[n.id] == n
  {
  }

  function IdsOfKind(nodes: seq<Node>, kind: string): set<string> {
    set n | n in nodes && n.kind == Some(kind) :: n.id
  }

  /** `_pick_entry_node`: the first node that no edge enters, or the first node when all are entered. */
  ghost predicate IsEntry(nodes: seq<Node>, entered: set<string>, entry: string) {
    || (exists i :: 0 <= i < |nodes| && nodes[i].id == entry && entry !in entered
                   && forall j :: 0 <= j < i ==> nodes[j].id in entered)
    || ((forall j :: 0 <= j < |nodes| ==> nodes[j].id in entered)
        && entry == if nodes != [] then nodes[0].id else "")
  }

  ghost function EntryNode(nodes: seq<Node>, edges: seq<Edge>): (entry: string)
    ensures IsEntry(nodes, Destinations(edges), entry)
    ensures forall other :: IsEntry(nodes, Destinations(edges), other) ==> other == entry
  {
    EntryExists(nodes, Destinations(edges), 0);
    var entry :| IsEntry(nodes, Destinations(edges), entry);
    entry
  }

  lemma {:induction false} EntryExists(nodes: seq<Node>, entered: set<string>, i: nat)
    requires i <= |nodes| && forall j :: 0 <= j < i ==> nodes[j].id in entered
    ensures exists entry :: IsEntry(nodes, entered, entry)
    decreases |nodes| - i
  {
    if i == |nodes| {
      assert IsEntry(nodes, entered, if nodes != [] then nodes[0].id else "");
    } else if nodes[i].id !in entered {
      assert IsEntry(nodes, entered, nodes[i].id);
    } else {
      EntryExists(nodes, entered, i + 1);
    }
  }

  method PickEntryNode(nodes: seq<Node>, edges: seq<Edge>) returns (entry: string)
    ensures entry == EntryNode(nodes, edges)
  {
    var entered := set e | e in edges :: e.dst;
    for i := 0 to |nodes|
      invariant forall j :: 0 <= j < i ==> nodes[j].id in entered
    {
      if nodes[i].id !in entered {
        assert IsEntry(nodes, Destinations(edges), nodes[i].id);
        return nodes[i].id;
      }
    }
    entry := if nodes != [] then nodes[0].id else "";
    assert IsEntry(nodes, Destinations(edges), entry);
  }
}
