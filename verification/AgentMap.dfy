/**
 From the saved graph to the agents that run it: the links that saving extracts (workflow_service.py) and
 the map that a run builds from them (run_service.py).
 */
module AgentMap {
  import opened Prelude
  import opened Text
  import opened WorkflowGraph
  import opened GraphBuilder

  datatype AgentLink = AgentLink(agentId: int, nodeId: string)

  datatype SaveError = DuplicateAgentNode(nodeId: string) | AgentNotFound(agentId: int, nodeId: string)

  // ---------------------------------------------------------------- saving

  /** Saving links this node to an agent. */
  predicate Linkable(n: Node) {
    n.kind == Some("agent") && Strip(n.id) != "" && n.agentId.Some?
  }

  function LinkFor(n: Node): AgentLink
    requires Linkable(n)
  {
    AgentLink(n.agentId.value, Strip(n.id))
  }

  predicate Links(links: seq<AgentLink>, nodeId: string) {
    exists l :: l in links && l.nodeId == nodeId
  }

  function LinksFrom(nodes: seq<Node>, existing: set<int>): Result<seq<AgentLink>, SaveError> {
    if nodes == [] then Ok([]) else
    var links :- LinksFrom(nodes[..|nodes| - 1], existing);
    var node := nodes[|nodes| - 1];
    if !Linkable(node) then Ok(links)
    else if Links(links, Strip(node.id)) then Err(DuplicateAgentNode(Strip(node.id)))
    else if node.agentId.value !in existing then Err(AgentNotFound(node.agentId.value, Strip(node.id)))
    else Ok(links + [LinkFor(node)])
  }

  /** Some node of the graph asks for this link. */
  predicate IsAskedFor(nodes: seq<Node>, l: AgentLink) {
    exists n :: n in nodes && Linkable(n) && LinkFor(n) == l
  }

  lemma {:induction false} LinksAreAskedFor(nodes: seq<Node>, existing: set<int>, l: AgentLink)
    requires LinksFrom(nodes, existing).Ok?
    ensures l in LinksFrom(nodes, existing).value <==> IsAskedFor(nodes, l)
  {
    if nodes != [] {
      var init, last := nodes[..|nodes| - 1], nodes[|nodes| - 1];
      LinksAreAskedFor(init, existing, l);
      assert nodes == init + [last];
      assert IsAskedFor(nodes, l) <==> IsAskedFor(init, l) || (Linkable(last) && LinkFor(last) == l);
    }
  }

  predicate SameLinkedId(a: Node, b: Node) {
    Linkable(a) && Linkable(b) && Strip(a.id) == Strip(b.id)
  }

  /** No two linked nodes share an id, and every agent they name is there. */
  predicate Acceptable(nodes: seq<Node>, existing: set<int>) {
    && (forall i, j :: 0 <= i < |nodes| && 0 <= j < |nodes| && i != j ==> !SameLinkedId(nodes[i], nodes[j]))
    && (forall i :: 0 <= i < |nodes| && Linkable(nodes[i]) ==> nodes[i].agentId.value in existing)
  }

  lemma LinksMeanIds(nodes: seq<Node>, existing: set<int>, node: Node)
    requires LinksFrom(nodes, existing).Ok? && Linkable(node)
    ensures Links(LinksFrom(nodes, existing).value, Strip(node.id))
       <==> exists i :: 0 <= i < |nodes| && SameLinkedId(nodes[i], node)
  {
    var links := LinksFrom(nodes, existing).value;
    if Links(links, Strip(node.id)) {
      var l :| l in links && l.nodeId == Strip(node.id);
      LinksAreAskedFor(nodes, existing, l);
      var n :| n in nodes && Linkable(n) && LinkFor(n) == l;
      var i :| 0 <= i < |nodes| && nodes[i] == n;
      assert SameLinkedId(nodes[i], node);
    }
    forall i | 0 <= i < |nodes| && SameLinkedId(nodes[i], node) ensures Links(links, Strip(node.id)) {
      LinksAreAskedFor(nodes, existing, LinkFor(nodes[i]));
      assert LinkFor(nodes[i]) in links;
    }
  }

  lemma AcceptableExtends(init: seq<Node>, last: Node, existing: set<int>)
    ensures Acceptable(init + [last], existing) <==>
      && Acceptable(init, existing)
      && (forall i :: 0 <= i < |init| ==> !SameLinkedId(init[i], last))
      && (Linkable(last) ==> last.agentId.value in existing)
  {
    var nodes := init + [last];
    if Acceptable(nodes, existing) {
      forall i | 0 <= i < |init| ensures init[i] == nodes[i] {}
      assert nodes[|init|] == last;
    }
  }

  /** Saving accepts exactly the acceptable graphs. */
  lemma {:induction false} AcceptedExactly(nodes: seq<Node>, existing: set<int>)
    ensures LinksFrom(nodes, existing).Ok? <==> Acceptable(nodes, existing)
  {
    if nodes != [] {
      var init, last := nodes[..|nodes| - 1], nodes[|nodes| - 1];
      AcceptedExactly(init, existing);
      assert nodes == init + [last];
      AcceptableExtends(init, last, existing);
      if LinksFrom(init, existing).Ok? && Linkable(last) {
        LinksMeanIds(init, existing, last);
      }
    }
  }

  /** A stored workflow's graph and its link rows. */
  class Workflow {
    var graph: Graph
    var links: seq<AgentLink>
    var version: int

    constructor (graph: Graph)
      ensures this.graph == graph && links == [] && version == 1
    {
      this.graph, links, version := graph, [], 1;
    }

    /** `save_workflow_graph`, its store update included */
    method SaveGraph(newGraph: Graph, existing: set<int>) returns (error: Option<SaveError>)
      modifies this
      ensures match LinksFrom(newGraph.nodes, existing)
        case Ok(newLinks) => error == None && graph == newGraph && links == newLinks && version == old(version) + 1
        case Err(failure) =>
          error == Some(failure) && graph == old(graph) && links == old(links) && version == old(version)
    {
      var newLinks := AgentLinksFromGraph(newGraph.nodes, existing);
      if newLinks.Err? {
        return Some(newLinks.error);
      }
      graph, links, version := newGraph, newLinks.value, version + 1;
      error := None;
    }
  }

  /** `_agent_links_from_graph` */
  method AgentLinksFromGraph(nodes: seq<Node>, existing: set<int>) returns (result: Result<seq<AgentLink>, SaveError>)
    ensures result == LinksFrom(nodes, existing)
  {
    var links: seq<AgentLink> := [];
    for i := 0 to |nodes|
      invariant LinksFrom(nodes[..i], existing) == Ok(links)
    {
      var node := nodes[i];
      assert nodes[..i + 1][..i] == nodes[..i];
      var nodeId := Strip(node.id);
      if node.kind == Some("agent") && nodeId != "" && node.agentId.Some? {
        if Links(links, nodeId) {
          ErrorStays(nodes, existing, i + 1);
          return Err(DuplicateAgentNode(nodeId));
        }
        if node.agentId.value !in existing {
          ErrorStays(nodes, existing, i + 1);
          return Err(AgentNotFound(node.agentId.value, nodeId));
        }
        links := links + [AgentLink(node.agentId.value, nodeId)];
      }
    }
    assert nodes[..|nodes|] == nodes;
    result := Ok(links);
  }

  lemma {:induction false} ErrorStays(nodes: seq<Node>, existing: set<int>, i: nat)
    requires i <= |nodes| && LinksFrom(nodes[..i], existing).Err?
    ensures LinksFrom(nodes, existing) == LinksFrom(nodes[..i], existing)
  {
    if i < |nodes| {
      assert nodes[..|nodes| - 1][..i] == nodes[..i];
      ErrorStays(nodes[..|nodes| - 1], existing, i);
    } else {
      assert nodes[..i] == nodes;
    }
  }

  // ---------------------------------------------------------------- running

  /** The agents that the link rows name, by node id. */
  function LinkedAgents(links: seq<AgentLink>, existing: set<int>): map<string, int> {
    if links == [] then map[] else
    var before := LinkedAgents(links[..|links| - 1], existing);
    var link := links[|links| - 1];
    if link.agentId in existing then before[link.nodeId := link.agentId] else before
  }

  /** The agent that a node itself names, by id or else by name. */
  function AgentNamed(n: Node, existing: set<int>, byName: map<string, int>): Option<int> {
    if n.agentId.Some? && n.agentId.value in existing then n.agentId
    else if n.agentName.Some? && n.agentName.value != "" && n.agentName.value in byName
      then Some(byName[n.agentName.value])
    else None
  }

  /** Completes the map from the graph's agent nodes; what is already there stays. */
  function WithNodes(agents: map<string, int>, nodes: seq<Node>, existing: set<int>, byName: map<string, int>)
    : map<string, int>
  {
    if nodes == [] then agents else
    var before := WithNodes(agents, nodes[..|nodes| - 1], existing, byName);
    var node := nodes[|nodes| - 1];
    var agent := AgentNamed(node, existing, byName);
    if node.kind == Some("agent") && Strip(node.id) != "" && Strip(node.id) !in before && agent.Some?
    then before[Strip(node.id) := agent.value] else before
  }

  /** `_agents_for_workflow` */
  method AgentsForWorkflow(links: seq<AgentLink>, nodes: seq<Node>, existing: set<int>, byName: map<string, int>)
    returns (agents: map<string, int>)
    ensures agents == WithNodes(LinkedAgents(links, existing), nodes, existing, byName)
  {
    agents := map[];
    for i := 0 to |links|
      invariant agents == LinkedAgents(links[..i], existing)
    {
      assert links[..i + 1][..i] == links[..i];
      if links[i].agentId in existing {
        agents := agents[links[i].nodeId := links[i].agentId];
      }
    }
    assert links[..|links|] == links;
    for i := 0 to |nodes|
      invariant agents == WithNodes(LinkedAgents(links, existing), nodes[..i], existing, byName)
    {
      assert nodes[..i + 1][..i] == nodes[..i];
      var node := nodes[i];
      var nodeId := Strip(node.id);
      if node.kind == Some("agent") && nodeId != "" && nodeId !in agents {
        if node.agentId.Some? && node.agentId.value in existing {
          agents := agents[nodeId := node.agentId.value];
        } else if node.agentName.Some? && node.agentName.value != "" && node.agentName.value in byName {
          agents := agents[nodeId := byName[node.agentName.value]];
        }
      }
    }
    assert nodes[..|nodes|] == nodes;
  }

  /** What a node that names its agent comes to: the agent with its id, if there is one, else the one with its name. */
  lemma NamedExactly(n: Node, existing: set<int>, byName: map<string, int>, agent: int)
    ensures AgentNamed(n, existing, byName) == Some(agent)
       <==> || (n.agentId == Some(agent) && agent in existing)
            || ((n.agentId.None? || n.agentId.value !in existing)
                && exists name :: n.agentName == Some(name) && name != "" && name in byName && byName[name] == agent)
  {
  }

  /** Where several nodes with one id name an agent, the first one counts, unless a link row has settled the matter. */
  lemma {:induction false} FirstNodeCounts(agents: map<string, int>, nodes: seq<Node>, existing: set<int>,
                                           byName: map<string, int>, i: nat)
    requires i < |nodes| && NamesAgent(nodes[i], existing, byName) && Strip(nodes[i].id) !in agents
    requires forall j :: 0 <= j < i && NamesAgent(nodes[j], existing, byName) ==>
      Strip(nodes[j].id) != Strip(nodes[i].id)
    ensures Strip(nodes[i].id) in WithNodes(agents, nodes, existing, byName)
    ensures WithNodes(agents, nodes, existing, byName)[Strip(nodes[i].id)]
      == AgentNamed(nodes[i], existing, byName).value
  {
    var init := nodes[..|nodes| - 1];
    if i < |init| {
      FirstNodeCounts(agents, init, existing, byName, i);
    } else {
      WithNodesKeys(agents, init, existing, byName, Strip(nodes[i].id));
    }
  }

  /** Link rows give each node the agent of its last row whose agent exists. */
  lemma {:induction false} LastLinkCounts(links: seq<AgentLink>, existing: set<int>, i: nat)
    requires i < |links| && links[i].agentId in existing
    requires forall j :: i < j < |links| && links[j].agentId in existing ==> links[j].nodeId != links[i].nodeId
    ensures links[i].nodeId in LinkedAgents(links, existing)
    ensures LinkedAgents(links, existing)[links[i].nodeId] == links[i].agentId
  {
    if i < |links| - 1 {
      LastLinkCounts(links[..|links| - 1], existing, i);
    }
  }

  lemma {:induction false} LinkedAgentsMeaning(links: seq<AgentLink>, existing: set<int>, l: AgentLink)
    requires l in links && l.agentId in existing
    requires forall other :: other in links && other.nodeId == l.nodeId ==> other == l
    ensures l.nodeId in LinkedAgents(links, existing) && LinkedAgents(links, existing)[l.nodeId] == l.agentId
  {
    var init, last := links[..|links| - 1], links[|links| - 1];
    assert links == init + [last];
    if last != l {
      LinkedAgentsMeaning(init, existing, l);
    }
  }

  lemma {:induction false} LinkedAgentsAreLinked(links: seq<AgentLink>, existing: set<int>, id: string)
    requires id in LinkedAgents(links, existing)
    ensures Links(links, id)
  {
    var init, last := links[..|links| - 1], links[|links| - 1];
    assert links == init + [last];
    if id in LinkedAgents(init, existing) {
      LinkedAgentsAreLinked(init, existing, id);
      var l :| l in init && l.nodeId == id;
      assert l in links;
    } else {
      assert last in links;
    }
  }

  /** A node that the run can give an agent to. */
  predicate NamesAgent(n: Node, existing: set<int>, byName: map<string, int>) {
    n.kind == Some("agent") && Strip(n.id) != "" && AgentNamed(n, existing, byName).Some?
  }

  predicate IsNamed(nodes: seq<Node>, existing: set<int>, byName: map<string, int>, id: string) {
    exists n :: n in nodes && NamesAgent(n, existing, byName) && Strip(n.id) == id
  }

  lemma {:induction false} WithNodesKeys(agents: map<string, int>, nodes: seq<Node>, existing: set<int>,
                                         byName: map<string, int>, id: string)
    ensures id in WithNodes(agents, nodes, existing, byName) <==> id in agents || IsNamed(nodes, existing, byName, id)
    ensures id in agents ==> WithNodes(agents, nodes, existing, byName)[id] == agents[id]
  {
    if nodes != [] {
      var init, last := nodes[..|nodes| - 1], nodes[|nodes| - 1];
      WithNodesKeys(agents, init, existing, byName, id);
      assert nodes == init + [last];
      assert IsNamed(nodes, existing, byName, id)
        <==> IsNamed(init, existing, byName, id) || (NamesAgent(last, existing, byName) && Strip(last.id) == id);
    }
  }

  // ---------------------------------------------------------------- saving, then running

  /** The link rows of a workflow that was saved with these nodes, in any order. */
  predicate AreSavedLinks(stored: seq<AgentLink>, nodes: seq<Node>, atSave: set<int>) {
    && LinksFrom(nodes, atSave).Ok?
    && (forall l :: l in stored ==> l in LinksFrom(nodes, atSave).value)
    && (forall l :: l in LinksFrom(nodes, atSave).value ==> l in stored)
  }

  lemma SavedLink(stored: seq<AgentLink>, nodes: seq<Node>, atSave: set<int>, n: Node)
    requires AreSavedLinks(stored, nodes, atSave) && n in nodes && Linkable(n)
    ensures LinkFor(n) in stored && n.agentId.value in atSave
    ensures forall l :: l in stored && l.nodeId == Strip(n.id) ==> l == LinkFor(n)
  {
    var k :| 0 <= k < |nodes| && nodes[k] == n;
    AcceptedExactly(nodes, atSave);
    LinksAreAskedFor(nodes, atSave, LinkFor(n));
    forall l | l in stored && l.nodeId == Strip(n.id) ensures l == LinkFor(n) {
      LinksAreAskedFor(nodes, atSave, l);
      var m :| m in nodes && Linkable(m) && LinkFor(m) == l;
      var j :| 0 <= j < |nodes| && nodes[j] == m;
      assert SameLinkedId(nodes[j], nodes[k]);
    }
  }

  /**
   If saving accepted the graph and no agent has been deleted since, a run gives an agent to exactly the
   ids of the nodes that name one, and a node that names its agent by id gets that agent.
   */
  lemma RunMapExactly(stored: seq<AgentLink>, nodes: seq<Node>, atSave: set<int>, existing: set<int>,
                      byName: map<string, int>, id: string)
    requires AreSavedLinks(stored, nodes, atSave) && atSave <= existing
    ensures var agents := WithNodes(LinkedAgents(stored, existing), nodes, existing, byName);
      && (id in agents <==> IsNamed(nodes, existing, byName, id))
      && forall n :: n in nodes && Linkable(n) && Strip(n.id) == id ==> id in agents && agents[id] == n.agentId.value
  {
    var linked := LinkedAgents(stored, existing);
    WithNodesKeys(linked, nodes, existing, byName, id);
    if id in linked {
      LinkedAgentsAreLinked(stored, existing, id);
      var l :| l in stored && l.nodeId == id;
      LinksAreAskedFor(nodes, atSave, l);
      var n :| n in nodes && Linkable(n) && LinkFor(n) == l;
      SavedLink(stored, nodes, atSave, n);
      assert NamesAgent(n, existing, byName);
    }
    forall n | n in nodes && Linkable(n) && Strip(n.id) == id ensures id in linked && linked[id] == n.agentId.value {
      SavedLink(stored, nodes, atSave, n);
      LinkedAgentsMeaning(stored, existing, LinkFor(n));
    }
  }

  /** The runtime treats the node as an agent: by its type, or for want of one. */
  predicate RunsAsAgent(n: Node) {
    n.kind.GetOr("agent") == "agent"
  }

  /** Adding the nodes fails for want of an agent only at a node that has none. */
  lemma {:induction false} AddingNeedsAgents(nodes: seq<Node>, edges: seq<Edge>, agents: map<string, int>)
    ensures (forall n :: n in nodes && RunsAsAgent(n) ==> n.id in agents) ==>
      forall id :: AddedNodes(nodes, edges, agents) != Err(MissingAgent(id))
    ensures AddedNodes(nodes, edges, agents).Ok? ==> forall n :: n in nodes && RunsAsAgent(n) ==> n.id in agents
  {
    if nodes != [] {
      var init, last := nodes[..|nodes| - 1], nodes[|nodes| - 1];
      assert nodes == init + [last];
      AddingNeedsAgents(init, edges, agents);
    }
  }

  /** Every node that would run as an agent shares its id with one that names an agent. */
  predicate EveryAgentIsNamed(nodes: seq<Node>, existing: set<int>, byName: map<string, int>) {
    forall n :: n in nodes && RunsAsAgent(n) && Strip(n.id) != "" ==> IsNamed(nodes, existing, byName, Strip(n.id))
  }

  lemma NormalizedAgents(nodes: seq<Node>, existing: set<int>, byName: map<string, int>, agents: map<string, int>)
    requires forall id :: id in agents <==> IsNamed(nodes, existing, byName, id)
    ensures EveryAgentIsNamed(nodes, existing, byName) <==>
      forall n :: n in NormalizedNodes(nodes) && RunsAsAgent(n) ==> n.id in agents
  {
    forall n | n in nodes && Strip(n.id) != "" ensures TrimNode(n) in NormalizedNodes(nodes) {
      var k :| 0 <= k < |nodes| && nodes[k] == n;
      assert Map(TrimNode, nodes)[k] == TrimNode(n);
    }
    forall n | n in NormalizedNodes(nodes) ensures exists m :: m in nodes && TrimNode(m) == n && Strip(m.id) != "" {
      var k :| 0 <= k < |nodes| && Map(TrimNode, nodes)[k] == n;
      assert nodes[k] in nodes;
    }
  }

  /**
   A saved graph compiles without a missing agent if every node that runs as an agent is named one, and
   compiles at all only if so; naming the type and the agent id on each of them is enough.
   */
  lemma SavedGraphFindsItsAgents(stored: seq<AgentLink>, graph: Graph, atSave: set<int>, existing: set<int>,
                                 byName: map<string, int>)
    requires AreSavedLinks(stored, graph.nodes, atSave) && atSave <= existing
    ensures var agents := WithNodes(LinkedAgents(stored, existing), graph.nodes, existing, byName);
      var compiled := Compiled(NormalizedNodes(graph.nodes), NormalizedEdges(graph.edges), agents);
      && (EveryAgentIsNamed(graph.nodes, existing, byName) ==> forall id :: compiled != Err(MissingAgent(id)))
      && (compiled.Ok? ==> EveryAgentIsNamed(graph.nodes, existing, byName))
    ensures (forall n :: n in graph.nodes && RunsAsAgent(n) && Strip(n.id) != "" ==> Linkable(n)) ==>
      EveryAgentIsNamed(graph.nodes, existing, byName)
  {
    var agents := WithNodes(LinkedAgents(stored, existing), graph.nodes, existing, byName);
    AddingNeedsAgents(NormalizedNodes(graph.nodes), NormalizedEdges(graph.edges), agents);
    forall id ensures id in agents <==> IsNamed(graph.nodes, existing, byName, id) {
      RunMapExactly(stored, graph.nodes, atSave, existing, byName, id);
    }
    NormalizedAgents(graph.nodes, existing, byName, agents);
    forall n | n in graph.nodes && Linkable(n) ensures NamesAgent(n, existing, byName) {
      SavedLink(stored, graph.nodes, atSave, n);
    }
  }

  /** A node of a saved graph that names its agent by id runs that agent, if the graph compiles at all. */
  lemma NodesRunTheirAgents(stored: seq<AgentLink>, graph: Graph, atSave: set<int>, existing: set<int>,
                            byName: map<string, int>, n: Node)
    requires AreSavedLinks(stored, graph.nodes, atSave) && atSave <= existing && n in graph.nodes && Linkable(n)
    ensures var agents := WithNodes(LinkedAgents(stored, existing), graph.nodes, existing, byName);
      match Compiled(NormalizedNodes(graph.nodes), NormalizedEdges(graph.edges), agents)
      case Ok(built) => Strip(n.id) in built.nodes && built.nodes[Strip(n.id)] == AgentFn(n.agentId.value)
      case Err(_) => true
  {
    var agents := WithNodes(LinkedAgents(stored, existing), graph.nodes, existing, byName);
    RunMapExactly(stored, graph.nodes, atSave, existing, byName, Strip(n.id));
    NormalizedExactly(graph, TrimNode(n), Edge("", "", None, None));
    if Compiled(NormalizedNodes(graph.nodes), NormalizedEdges(graph.edges), agents).Ok? {
      NodesRunAsDeclared(NormalizedNodes(graph.nodes), NormalizedEdges(graph.edges), agents, TrimNode(n));
    }
  }
}
