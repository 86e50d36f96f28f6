/**
 The visual editor's translation between the stored graph and its own format (workflow-graph.js).
 The editor's `data` object is keyed 1, 2, 3, ... and read back in that order, so it is a sequence here.
 */
module Editor {
  import opened Prelude
  import opened Text
  import opened WorkflowGraph

  datatype Port = Output1 | Output2

  /** A drawn connection; the reader looks for `max_loops` on it, the writer never sets it. */
  datatype Connection = Connection(node: nat, maxLoops: Option<int>)

  datatype NodeData = NodeData(
    nodeId: string, title: string, field: string, threshold: Option<real>, channel: string, agentId: Option<int>)

  datatype DrawnNode = DrawnNode(
    id: nat, name: string, data: NodeData, outputs: map<Port, seq<Connection>>, posX: real, posY: real)

  // ---------------------------------------------------------------- the pure helpers

  /** `value || default` on an optional string. */
  function OrElse(value: Option<string>, default: string): string {
    if value.GetOr("") != "" then value.value else default
  }

  function SimpleId(n: Node, index: nat): string {
    if n.id != "" then n.id else "node_" + Decimal(index + 1)
  }

  function EditorKind(n: Node): string {
    OrElse(n.kind, "agent")
  }

  function DefaultPos(index: nat): (real, real) {
    (60.0 + (index % 4) as real * 80.0 * 2.2, 60.0 + (index / 4) as real * 70.0 * 2.0)
  }

  function OutputsForType(kind: string): map<Port, seq<Connection>> {
    if kind == "end" then map[]
    else if kind == "condition" then map[Output1 := [], Output2 := []]
    else map[Output1 := []]
  }

  function OutputKeyForWhen(when: Option<string>): Port {
    if when == Some("low") then Output2 else Output1
  }

  function WhenFromOutputKey(port: Port, sourceType: string): Option<string> {
    if sourceType != "condition" then None
    else if port == Output2 then Some("low") else Some("ok")
  }

  function ResolveAgentId(n: Node, agentsByName: map<string, int>): Option<int> {
    if n.agentId.Some? then n.agentId
    else if n.agentName.GetOr("") != "" && n.agentName.value in agentsByName then Some(agentsByName[n.agentName.value])
    else None
  }

  /** The editor's copy of a node, with nothing connected yet. */
  function DrawNode(n: Node, index: nat, agentsByName: map<string, int>): DrawnNode {
    DrawnNode(
      index + 1,
      EditorKind(n),
      NodeData(SimpleId(n, index), n.title, n.field.GetOr(""), n.threshold, OrElse(n.channel, "telegram"),
               ResolveAgentId(n, agentsByName)),
      OutputsForType(EditorKind(n)),
      n.posX.GetOr(DefaultPos(index).0),
      n.posY.GetOr(DefaultPos(index).1))
  }

  /** The stored form of an editor node. */
  function ReadNode(d: DrawnNode): Node {
    Node(
      ReadId(d),
      Some(d.name),
      d.data.title,
      if d.name == "agent" then d.data.agentId else None,
      None,
      if d.name == "condition" && d.data.field != "" then Some(d.data.field) else None,
      if d.name == "condition" then d.data.threshold else None,
      if d.name == "channel" && d.data.channel != "" then Some(d.data.channel) else None,
      Some(d.posX),
      Some(d.posY))
  }

  function ReadId(d: DrawnNode): string {
    if d.data.nodeId != "" then d.data.nodeId else "node_" + Decimal(d.id)
  }

  // ---------------------------------------------------------------- writing the editor's format

  /** `idMap`: the editor id of each stored id; of two nodes with one id the later counts. */
  function IdMap(nodes: seq<Node>): map<string, nat> {
    IdMapUpTo(nodes, |nodes|)
  }

  function IdMapUpTo(nodes: seq<Node>, n: nat): (idMap: map<string, nat>)
    requires n <= |nodes|
    ensures forall id :: id in idMap ==> 1 <= idMap[id] <= n
  {
    if n == 0 then map[] else IdMapUpTo(nodes, n - 1)[SimpleId(nodes[n - 1], n - 1) := n]
  }

  /** The edge has known ends, and its source has the port it leaves by. */
  ghost predicate Drawn(nodes: seq<Node>, e: Edge) {
    && e.src in IdMap(nodes) && e.dst in IdMap(nodes)
    && OutputKeyForWhen(e.when) in OutputsForType(EditorKind(nodes[IdMap(nodes)[e.src] - 1]))
  }

  /** The edge is drawn from this port of the node at position `i`. */
  ghost predicate LeavesBy(nodes: seq<Node>, e: Edge, i: nat, port: Port) {
    Drawn(nodes, e) && IdMap(nodes)[e.src] == i + 1 && OutputKeyForWhen(e.when) == port
  }

  /** The edges drawn from one port, in stored order. */
  ghost function DrawnFrom(nodes: seq<Node>, edges: seq<Edge>, i: nat, port: Port): seq<Edge> {
    Filter((e: Edge) => LeavesBy(nodes, e, i, port), edges)
  }

  ghost function ConnectionTo(nodes: seq<Node>, e: Edge): Connection {
    Connection(if e.dst in IdMap(nodes) then IdMap(nodes)[e.dst] else 0, None)
  }

  ghost function ConnectionsFrom(nodes: seq<Node>, edges: seq<Edge>, i: nat, port: Port): seq<Connection> {
    Map(e => ConnectionTo(nodes, e), DrawnFrom(nodes, edges, i, port))
  }

  ghost function DrawnOutputs(nodes: seq<Node>, edges: seq<Edge>, i: nat): map<Port, seq<Connection>>
    requires i < |nodes|
  {
    map port | port in OutputsForType(EditorKind(nodes[i])) :: ConnectionsFrom(nodes, edges, i, port)
  }

  ghost function Drawflow(g: Graph, agentsByName: map<string, int>): seq<DrawnNode> {
    seq(|g.nodes|, i requires 0 <= i < |g.nodes| =>
      DrawNode(g.nodes[i], i, agentsByName).(outputs := DrawnOutputs(g.nodes, g.edges, i)))
  }

  /** The unconnected nodes: the state between the two loops of `simpleToDrawflow`. */
  ghost predicate DrawnUpTo(g: Graph, agentsByName: map<string, int>, data: seq<DrawnNode>, done: nat)
    requires done <= |g.edges|
  {
    data == Drawflow(Graph(g.nodes, g.edges[..done]), agentsByName)
  }

  /** `source.outputs[port].connections.push(connection)` */
  function Connect(data: seq<DrawnNode>, at: nat, port: Port, connection: Connection): seq<DrawnNode>
    requires at < |data| && port in data[at].outputs
  {
    data[at := data[at].(outputs := data[at].outputs[port := data[at].outputs[port] + [connection]])]
  }

  /** The editor's nodes after one more edge. */
  ghost function WithEdge(nodes: seq<Node>, data: seq<DrawnNode>, e: Edge): seq<DrawnNode>
    requires |data| == |nodes|
  {
    if e.src in IdMap(nodes) && e.dst in IdMap(nodes)
       && OutputKeyForWhen(e.when) in data[IdMap(nodes)[e.src] - 1].outputs
    then Connect(data, IdMap(nodes)[e.src] - 1, OutputKeyForWhen(e.when), ConnectionTo(nodes, e))
    else data
  }

  method SimpleToDrawflow(g: Graph, agents: seq<(string, int)>) returns (data: seq<DrawnNode>)
    ensures data == Drawflow(g, AgentsByName(agents))
  {
    var agentsByName := CollectAgents(agents);
    var idMap;
    data, idMap := PlaceNodes(g.nodes, agentsByName);
    NothingDrawnYet(g, agentsByName, data);
    for k := 0 to |g.edges|
      invariant DrawnUpTo(g, agentsByName, data, k)
    {
      var next := DrawEdge(g.nodes, data, idMap, g.edges[k]);
      DrawOneMore(g, agentsByName, data, next, k);
      data := next;
    }
    assert g.edges[..|g.edges|] == g.edges;
  }

  /** The body of the second loop: the edge goes to the port it leaves by, if its ends and the port exist. */
  method DrawEdge(ghost nodes: seq<Node>, data: seq<DrawnNode>, idMap: map<string, nat>, e: Edge)
    returns (drawn: seq<DrawnNode>)
    requires idMap == IdMap(nodes) && |data| == |nodes|
    ensures drawn == WithEdge(nodes, data, e)
  {
    drawn := data;
    if e.src in idMap && e.dst in idMap {
      var port := OutputKeyForWhen(e.when);
      if port in data[idMap[e.src] - 1].outputs {
        drawn := Connect(data, idMap[e.src] - 1, port, Connection(idMap[e.dst], None));
      }
    }
  }

  ghost predicate PlacedUpTo(nodes: seq<Node>, agentsByName: map<string, int>, data: seq<DrawnNode>, n: nat) {
    |data| == n <= |nodes| && forall k :: 0 <= k < n ==> data[k] == DrawNode(nodes[k], k, agentsByName)
  }

  /** The first loop: every node without connections, and the id map. */
  method PlaceNodes(nodes: seq<Node>, agentsByName: map<string, int>)
    returns (data: seq<DrawnNode>, idMap: map<string, nat>)
    ensures |data| == |nodes| && forall k :: 0 <= k < |nodes| ==> data[k] == DrawNode(nodes[k], k, agentsByName)
    ensures idMap == IdMap(nodes)
  {
    data, idMap := [], map[];
    for i := 0 to |nodes|
      invariant PlacedUpTo(nodes, agentsByName, data, i)
      invariant idMap == IdMapUpTo(nodes, i)
    {
      idMap := idMap[SimpleId(nodes[i], i) := i + 1];
      data := data + [DrawNode(nodes[i], i, agentsByName)];
    }
  }

  function AgentsByName(agents: seq<(string, int)>): map<string, int> {
    if agents == [] then map[]
    else AgentsByName(agents[..|agents| - 1])[agents[|agents| - 1].0 := agents[|agents| - 1].1]
  }

  /** Of two agents with one name the later one counts. */
  lemma {:induction false} AgentsByNameMeaning(agents: seq<(string, int)>, i: nat)
    requires i < |agents| && forall j :: i < j < |agents| ==> agents[j].0 != agents[i].0
    ensures agents[i].0 in AgentsByName(agents) && AgentsByName(agents)[agents[i].0] == agents[i].1
  {
    if i < |agents| - 1 {
      AgentsByNameMeaning(agents[..|agents| - 1], i);
    }
  }

  lemma {:induction false} AgentsByNameKeys(agents: seq<(string, int)>, name: string)
    ensures name in AgentsByName(agents) <==> exists i :: 0 <= i < |agents| && agents[i].0 == name
  {
    if agents != [] {
      AgentsByNameKeys(agents[..|agents| - 1], name);
    }
  }

  method CollectAgents(agents: seq<(string, int)>) returns (agentsByName: map<string, int>)
    ensures agentsByName == AgentsByName(agents)
  {
    agentsByName := map[];
    for i := 0 to |agents|
      invariant agentsByName == AgentsByName(agents[..i])
    {
      assert agents[..i + 1][..i] == agents[..i];
      agentsByName := agentsByName[agents[i].0 := agents[i].1];
    }
    assert agents[..|agents|] == agents;
  }

  lemma NothingDrawnYet(g: Graph, agentsByName: map<string, int>, data: seq<DrawnNode>)
    requires |data| == |g.nodes|
    requires forall k :: 0 <= k < |data| ==> data[k] == DrawNode(g.nodes[k], k, agentsByName)
    ensures DrawnUpTo(g, agentsByName, data, 0)
  {
    forall k | 0 <= k < |data| ensures DrawnOutputs(g.nodes, [], k) == data[k].outputs {
      assert forall port :: ConnectionsFrom(g.nodes, [], k, port) == [];
    }
    assert g.edges[..0] == [];
  }

  /** What drawing the next edge adds to one port. */
  lemma ConnectionsGrow(nodes: seq<Node>, edges: seq<Edge>, e: Edge, i: nat, port: Port)
    ensures ConnectionsFrom(nodes, edges + [e], i, port)
         == ConnectionsFrom(nodes, edges, i, port)
            + if LeavesBy(nodes, e, i, port) then [ConnectionTo(nodes, e)] else []
  {
    FilterAppend((x: Edge) => LeavesBy(nodes, x, i, port), edges, [e]);
  }

  lemma OutputsGrow(nodes: seq<Node>, edges: seq<Edge>, e: Edge, i: nat)
    requires i < |nodes|
    ensures var port, before := OutputKeyForWhen(e.when), DrawnOutputs(nodes, edges, i);
            if LeavesBy(nodes, e, i, port) then
              && port in before
              && DrawnOutputs(nodes, edges + [e], i) == before[port := before[port] + [ConnectionTo(nodes, e)]]
            else DrawnOutputs(nodes, edges + [e], i) == before
  {
    forall port ensures ConnectionsFrom(nodes, edges + [e], i, port)
         == ConnectionsFrom(nodes, edges, i, port)
            + if LeavesBy(nodes, e, i, port) then [ConnectionTo(nodes, e)] else []
    {
      ConnectionsGrow(nodes, edges, e, i, port);
    }
  }

  /** What drawing edge `k` does to the node at position `i`. */
  lemma DrawAtNode(g: Graph, agentsByName: map<string, int>, data: seq<DrawnNode>, k: nat, i: nat)
    requires k < |g.edges| && DrawnUpTo(g, agentsByName, data, k) && i < |g.nodes|
    ensures var next := Drawflow(Graph(g.nodes, g.edges[..k + 1]), agentsByName);
            var port := OutputKeyForWhen(g.edges[k].when);
            if LeavesBy(g.nodes, g.edges[k], i, port) then
              port in data[i].outputs && next[i] == Connect(data, i, port, ConnectionTo(g.nodes, g.edges[k]))[i]
            else next[i] == data[i]
  {
    var edges, e := g.edges[..k], g.edges[k];
    assert g.edges[..k + 1] == edges + [e];
    assert data[i].outputs == DrawnOutputs(g.nodes, edges, i);
    assert Drawflow(Graph(g.nodes, edges + [e]), agentsByName)[i].outputs == DrawnOutputs(g.nodes, edges + [e], i);
    OutputsGrow(g.nodes, edges, e, i);
  }

  lemma DrawNothing(g: Graph, agentsByName: map<string, int>, data: seq<DrawnNode>, k: nat)
    requires k < |g.edges| && DrawnUpTo(g, agentsByName, data, k) && !Drawn(g.nodes, g.edges[k])
    ensures DrawnUpTo(g, agentsByName, data, k + 1)
  {
    var next := Drawflow(Graph(g.nodes, g.edges[..k + 1]), agentsByName);
    forall i | 0 <= i < |g.nodes| ensures next[i] == data[i] {
      DrawAtNode(g, agentsByName, data, k, i);
    }
  }

  lemma DrawConnection(g: Graph, agentsByName: map<string, int>, data: seq<DrawnNode>, k: nat, at: nat)
    requires k < |g.edges| && DrawnUpTo(g, agentsByName, data, k) && at < |g.nodes|
    requires LeavesBy(g.nodes, g.edges[k], at, OutputKeyForWhen(g.edges[k].when))
    ensures OutputKeyForWhen(g.edges[k].when) in data[at].outputs
    ensures DrawnUpTo(g, agentsByName,
              Connect(data, at, OutputKeyForWhen(g.edges[k].when), ConnectionTo(g.nodes, g.edges[k])), k + 1)
  {
    DrawAtNode(g, agentsByName, data, k, at);
    var next := Drawflow(Graph(g.nodes, g.edges[..k + 1]), agentsByName);
    var connected := Connect(data, at, OutputKeyForWhen(g.edges[k].when), ConnectionTo(g.nodes, g.edges[k]));
    forall i | 0 <= i < |g.nodes| ensures next[i] == connected[i] {
      if i != at {
        DrawAtNode(g, agentsByName, data, k, i);
      }
    }
  }

  /** The node at position `at` has the ports of its type. */
  ghost predicate HasPorts(nodes: seq<Node>, data: seq<DrawnNode>, at: nat) {
    at < |nodes| && at < |data| && data[at].outputs.Keys == OutputsForType(EditorKind(nodes[at])).Keys
  }

  lemma PortsOfDrawn(g: Graph, agentsByName: map<string, int>, data: seq<DrawnNode>, k: nat, at: nat)
    requires k <= |g.edges| && DrawnUpTo(g, agentsByName, data, k) && at < |g.nodes|
    ensures HasPorts(g.nodes, data, at)
  {
  }

  lemma WithUndrawnEdge(nodes: seq<Node>, data: seq<DrawnNode>, e: Edge)
    requires |data| == |nodes| && !Drawn(nodes, e)
    requires e.src in IdMap(nodes) ==> HasPorts(nodes, data, IdMap(nodes)[e.src] - 1)
    ensures WithEdge(nodes, data, e) == data
  {
  }

  lemma WithDrawnEdge(nodes: seq<Node>, data: seq<DrawnNode>, e: Edge, at: nat, port: Port)
    requires |data| == |nodes| && HasPorts(nodes, data, at) && LeavesBy(nodes, e, at, port)
    ensures port in data[at].outputs && WithEdge(nodes, data, e) == Connect(data, at, port, ConnectionTo(nodes, e))
  {
  }

  lemma DrawOneAt(g: Graph, agentsByName: map<string, int>, data: seq<DrawnNode>, next: seq<DrawnNode>, k: nat, at: nat)
    requires k < |g.edges| && |data| == |g.nodes| && DrawnUpTo(g, agentsByName, data, k)
    requires at < |g.nodes| && LeavesBy(g.nodes, g.edges[k], at, OutputKeyForWhen(g.edges[k].when))
    requires next == WithEdge(g.nodes, data, g.edges[k])
    ensures DrawnUpTo(g, agentsByName, next, k + 1)
  {
    PortsOfDrawn(g, agentsByName, data, k, at);
    WithDrawnEdge(g.nodes, data, g.edges[k], at, OutputKeyForWhen(g.edges[k].when));
    DrawConnection(g, agentsByName, data, k, at);
  }

  /** Drawing edge `k` changes one port of one node, or nothing. */
  lemma DrawOneMore(g: Graph, agentsByName: map<string, int>, data: seq<DrawnNode>, next: seq<DrawnNode>, k: nat)
    requires k < |g.edges| && |data| == |g.nodes| && DrawnUpTo(g, agentsByName, data, k)
    requires next == WithEdge(g.nodes, data, g.edges[k])
    ensures DrawnUpTo(g, agentsByName, next, k + 1)
  {
    if Drawn(g.nodes, g.edges[k]) {
      DrawOneAt(g, agentsByName, data, next, k, IdMap(g.nodes)[g.edges[k].src] - 1);
    } else {
      if g.edges[k].src in IdMap(g.nodes) {
        PortsOfDrawn(g, agentsByName, data, k, IdMap(g.nodes)[g.edges[k].src] - 1);
      }
      WithUndrawnEdge(g.nodes, data, g.edges[k]);
      DrawNothing(g, agentsByName, data, k);
    }
  }

  // ---------------------------------------------------------------- reading the editor's format

  /** `dfIdToSimple`: the stored id behind each editor id. */
  function ReadIds(data: seq<DrawnNode>, n: nat): map<nat, string>
    requires n <= |data|
  {
    if n == 0 then map[] else ReadIds(data, n - 1)[data[n - 1].id := ReadId(data[n - 1])]
  }

  /** The stored form of the connections of one port; connections to unknown nodes are skipped. */
  function ReadConnections(ids: map<nat, string>, d: DrawnNode, port: Port, connections: seq<Connection>): seq<Edge> {
    if connections == [] then []
    else
      var last := connections[|connections| - 1];
      ReadConnections(ids, d, port, connections[..|connections| - 1])
      + if last.node in ids
        then [Edge(ReadId(d), ids[last.node], WhenFromOutputKey(port, d.name), last.maxLoops)]
        else []
  }

  function ReadPort(ids: map<nat, string>, d: DrawnNode, port: Port): seq<Edge> {
    if port in d.outputs then ReadConnections(ids, d, port, d.outputs[port]) else []
  }

  function ReadEdges(ids: map<nat, string>, data: seq<DrawnNode>, n: nat): seq<Edge>
    requires n <= |data|
  {
    if n == 0 then []
    else ReadEdges(ids, data, n - 1) + ReadPort(ids, data[n - 1], Output1) + ReadPort(ids, data[n - 1], Output2)
  }

  /** A connection to a known node is saved with its budget, labelled by its port if it leaves a condition. */
  lemma ReadConnectionExactly(ids: map<nat, string>, d: DrawnNode, port: Port, connection: Connection)
    ensures ReadConnections(ids, d, port, [connection]) ==
      if connection.node !in ids then []
      else [Edge(if d.data.nodeId != "" then d.data.nodeId else "node_" + Decimal(d.id), ids[connection.node],
                 if d.name != "condition" then None else if port == Output1 then Some("ok") else Some("low"),
                 connection.maxLoops)]
  {
    assert [connection][..0] == [];
  }

  lemma {:induction false} ReadConnectionsJoin(ids: map<nat, string>, d: DrawnNode, port: Port,
                                               a: seq<Connection>, b: seq<Connection>)
    ensures ReadConnections(ids, d, port, a + b) == ReadConnections(ids, d, port, a) + ReadConnections(ids, d, port, b)
  {
    if b == [] {
      assert a + b == a;
    } else {
      assert (a + b)[..|a + b| - 1] == a + b[..|b| - 1];
      ReadConnectionsJoin(ids, d, port, a, b[..|b| - 1]);
    }
  }

  /** What the editor saves of a node: the settings of its type, those that are blank left out. */
  lemma ReadNodeExactly(d: DrawnNode)
    ensures var n := ReadNode(d);
      && n.id == (if d.data.nodeId != "" then d.data.nodeId else "node_" + Decimal(d.id))
      && n.kind == Some(d.name) && n.title == d.data.title && n.agentName == None
      && n.agentId == (if d.name == "agent" then d.data.agentId else None)
      && n.field == (if d.name == "condition" && d.data.field != "" then Some(d.data.field) else None)
      && n.threshold == (if d.name == "condition" then d.data.threshold else None)
      && n.channel == (if d.name == "channel" && d.data.channel != "" then Some(d.data.channel) else None)
      && n.posX == Some(d.posX) && n.posY == Some(d.posY)
  {
  }

  function Simple(data: seq<DrawnNode>): Graph {
    Graph(Map(ReadNode, data), ReadEdges(ReadIds(data, |data|), data, |data|))
  }

  method DrawflowToSimple(data: seq<DrawnNode>) returns (g: Graph)
    ensures g == Simple(data)
  {
    var nodes: seq<Node> := [];
    var edges: seq<Edge> := [];
    var ids: map<nat, string> := map[];
    for i := 0 to |data|
      invariant nodes == Map(ReadNode, data[..i]) && ids == ReadIds(data, i)
    {
      ids := ids[data[i].id := ReadId(data[i])];
      nodes := nodes + [ReadNode(data[i])];
    }
    assert data[..|data|] == data;
    for i := 0 to |data|
      invariant edges == ReadEdges(ids, data, i)
    {
      var first := CollectPort(ids, data[i], Output1);
      var second := CollectPort(ids, data[i], Output2);
      edges := edges + first + second;
    }
    g := Graph(nodes, edges);
  }

  /** The innermost loop, over the connections of one port. */
  method CollectPort(ids: map<nat, string>, d: DrawnNode, port: Port) returns (edges: seq<Edge>)
    ensures edges == ReadPort(ids, d, port)
  {
    edges := [];
    if port in d.outputs {
      var connections := d.outputs[port];
      for k := 0 to |connections|
        invariant edges == ReadConnections(ids, d, port, connections[..k])
      {
        assert connections[..k + 1][..k] == connections[..k];
        var connection := connections[k];
        if connection.node !in ids {
          continue;
        }
        edges := edges + [Edge(ReadId(d), ids[connection.node], WhenFromOutputKey(port, d.name), connection.maxLoops)];
      }
      assert connections[..|connections|] == connections;
    }
  }

  /** Opening a stored graph in the editor and saving it again. */
  ghost function RoundTrip(g: Graph, agentsByName: map<string, int>): Graph {
    Simple(Drawflow(g, agentsByName))
  }

  method LoadAndSave(g: Graph, agents: seq<(string, int)>) returns (saved: Graph)
    ensures saved == RoundTrip(g, AgentsByName(agents))
  {
    var data := SimpleToDrawflow(g, agents);
    saved := DrawflowToSimple(data);
  }
}
