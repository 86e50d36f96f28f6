/** The breadth-first order of agents that decides who hands over to whom (graph_builder.py, `_linear_agent_chain`). */
module AgentChain {
  import opened Prelude
  import opened WorkflowGraph

  /** One step along an edge that has no label. */
  ghost predicate Follows(outgoing: map<string, seq<Edge>>, a: string, b: string) {
    exists e :: e in Branches(outgoing, a) && !Labelled(e) && e.dst == b
  }

  /** `id` can be reached from `entry` in at most `n` such steps. */
  ghost predicate Within(outgoing: map<string, seq<Edge>>, entry: string, id: string, n: nat)
    decreases n
  {
    if n == 0 then id == entry
    else Within(outgoing, entry, id, n - 1)
         || exists p :: Within(outgoing, entry, p, n - 1) && Follows(outgoing, p, id)
  }

  ghost predicate Reachable(outgoing: map<string, seq<Edge>>, entry: string, id: string) {
    exists n :: Within(outgoing, entry, id, n)
  }

  /** `a` is no farther from the entry than `b`. */
  ghost predicate NoFarther(outgoing: map<string, seq<Edge>>, entry: string, a: string, b: string) {
    forall n :: Within(outgoing, entry, b, n) ==> Within(outgoing, entry, a, n)
  }

  ghost predicate IsAgent(nodeById: map<string, Node>, id: string) {
    id in nodeById && nodeById[id].kind == Some("agent")
  }

  lemma {:induction false} WithinMonotone(outgoing: map<string, seq<Edge>>, entry: string, id: string, m: nat, n: nat)
    requires m <= n && Within(outgoing, entry, id, m)
    ensures Within(outgoing, entry, id, n)
    decreases n
  {
    if m < n {
      WithinMonotone(outgoing, entry, id, m, n - 1);
    }
  }

  lemma WithinStep(outgoing: map<string, seq<Edge>>, entry: string, a: string, b: string, n: nat)
    requires Within(outgoing, entry, a, n) && Follows(outgoing, a, b)
    ensures Within(outgoing, entry, b, n + 1)
  {
  }

  /** What the search knows: `depth` for visited nodes, `queued` (in step with the queue) for the rest. */
  ghost predicate Frontier(outgoing: map<string, seq<Edge>>, entry: string,
                           depth: map<string, nat>, queue: seq<string>, queued: seq<nat>) {
    && |queued| == |queue|
    && Levels(depth, queued)
    && Sound(outgoing, entry, depth, queue, queued)
    && Closed(outgoing, entry, depth, queue, queued)
  }

  /** The queue spans at most two levels, in order, and nothing visited is deeper than its front. */
  ghost predicate Levels(depth: map<string, nat>, queued: seq<nat>) {
    && (forall i, j :: 0 <= i < j < |queued| ==> queued[i] <= queued[j] <= queued[i] + 1)
    && (forall v :: v in depth && queued != [] ==> depth[v] <= queued[0])
  }

  ghost predicate Sound(outgoing: map<string, seq<Edge>>, entry: string,
                        depth: map<string, nat>, queue: seq<string>, queued: seq<nat>)
    requires |queued| == |queue|
  {
    && (forall i :: 0 <= i < |queue| ==> Within(outgoing, entry, queue[i], queued[i]))
    && (forall v :: v in depth ==> Within(outgoing, entry, v, depth[v]))
  }

  ghost predicate Closed(outgoing: map<string, seq<Edge>>, entry: string,
                         depth: map<string, nat>, queue: seq<string>, queued: seq<nat>) {
    && Known(depth, queue, queued, entry, 0)
    && (forall v, b :: v in depth && Follows(outgoing, v, b) ==> Known(depth, queue, queued, b, depth[v] + 1))
  }

  /** Visited or queued at a depth of at most `d`. */
  ghost predicate Known(depth: map<string, nat>, queue: seq<string>, queued: seq<nat>, id: string, d: nat) {
    || (id in depth && depth[id] <= d)
    || (exists i :: 0 <= i < |queue| && i < |queued| && queue[i] == id && queued[i] <= d)
  }

  /** Everything nearer than the front of the queue has been visited. */
  lemma {:induction false} NearerIsVisited(outgoing: map<string, seq<Edge>>, entry: string,
                                           depth: map<string, nat>, queue: seq<string>, queued: seq<nat>,
                                           id: string, n: nat)
    requires Frontier(outgoing, entry, depth, queue, queued)
    requires queued == [] || n < queued[0]
    requires Within(outgoing, entry, id, n)
    ensures id in depth && depth[id] <= n
    decreases n
  {
    if n > 0 {
      if Within(outgoing, entry, id, n - 1) {
        NearerIsVisited(outgoing, entry, depth, queue, queued, id, n - 1);
      } else {
        var p :| Within(outgoing, entry, p, n - 1) && Follows(outgoing, p, id);
        NearerIsVisited(outgoing, entry, depth, queue, queued, p, n - 1);
        assert Known(depth, queue, queued, id, depth[p] + 1);
      }
    }
  }

  /** Every node the search can ever put in its queue. */
  ghost function Universe(outgoing: map<string, seq<Edge>>, entry: string): set<string> {
    {entry} + set id, e | id in outgoing && e in outgoing[id] :: e.dst
  }

  /** The targets of the unlabelled branches, in order. */
  function Unlabelled(branches: seq<Edge>): seq<string> {
    if branches == [] then []
    else Unlabelled(branches[..|branches| - 1])
         + if Labelled(branches[|branches| - 1]) then [] else [branches[|branches| - 1].dst]
  }

  lemma {:induction false} UnlabelledTargets(branches: seq<Edge>)
    ensures forall b :: b in Unlabelled(branches) <==> exists e :: e in branches && !Labelled(e) && e.dst == b
  {
    if branches != [] {
      UnlabelledTargets(branches[..|branches| - 1]);
      assert branches == branches[..|branches| - 1] + [branches[|branches| - 1]];
    }
  }

  /** Taking an already visited node off the queue loses nothing. */
  lemma SkipVisited(outgoing: map<string, seq<Edge>>, entry: string,
                    depth: map<string, nat>, queue: seq<string>, queued: seq<nat>)
    requires queue != [] && Frontier(outgoing, entry, depth, queue, queued) && queue[0] in depth
    ensures Frontier(outgoing, entry, depth, queue[1..], queued[1..])
  {
    forall id, d | Known(depth, queue, queued, id, d) ensures Known(depth, queue[1..], queued[1..], id, d) {
      StillKnown(depth, queue, queued, id, d);
    }
  }

  lemma StillKnown(depth: map<string, nat>, queue: seq<string>, queued: seq<nat>, id: string, d: nat)
    requires Known(depth, queue, queued, id, d) && queue != [] && |queue| == |queued|
    requires queue[0] in depth && depth[queue[0]] <= queued[0]
    ensures Known(depth, queue[1..], queued[1..], id, d)
  {
    if !(id in depth && depth[id] <= d) {
      var i :| 0 <= i < |queue| && queue[i] == id && queued[i] <= d;
      assert i > 0;
      assert queue[1..][i - 1] == id && queued[1..][i - 1] <= d;
    }
  }

  /** The levels of the queue once its front has been replaced by `n` successors. */
  ghost function Deeper(queued: seq<nat>, n: nat): (deeper: seq<nat>)
    requires queued != []
    ensures |deeper| == |queued| - 1 + n
    ensures forall i :: 0 <= i < |deeper| ==> deeper[i] == if i < |queued| - 1 then queued[i + 1] else queued[0] + 1
  {
    queued[1..] + seq(n, _ => queued[0] + 1)
  }

  /** Visiting the front node and queueing its successors one level deeper keeps the frontier. */
  lemma Visit(outgoing: map<string, seq<Edge>>, entry: string,
              depth: map<string, nat>, queue: seq<string>, queued: seq<nat>, next: seq<string>)
    requires queue != [] && Frontier(outgoing, entry, depth, queue, queued) && queue[0] !in depth
    requires next == Unlabelled(Branches(outgoing, queue[0]))
    ensures Frontier(outgoing, entry, depth[queue[0] := queued[0]], queue[1..] + next, Deeper(queued, |next|))
  {
    VisitKeepsLevels(depth, queue[0], queued, |next|);
    VisitKeepsSound(outgoing, entry, depth, queue, queued, next);
    VisitKeepsClosed(outgoing, entry, depth, queue, queued, next);
  }

  lemma VisitKeepsLevels(depth: map<string, nat>, id: string, queued: seq<nat>, n: nat)
    requires Levels(depth, queued) && queued != []
    ensures Levels(depth[id := queued[0]], Deeper(queued, n))
  {
  }

  lemma VisitKeepsSound(outgoing: map<string, seq<Edge>>, entry: string,
                        depth: map<string, nat>, queue: seq<string>, queued: seq<nat>, next: seq<string>)
    requires queue != [] && |queue| == |queued| && Sound(outgoing, entry, depth, queue, queued)
    requires next == Unlabelled(Branches(outgoing, queue[0]))
    ensures Sound(outgoing, entry, depth[queue[0] := queued[0]], queue[1..] + next, Deeper(queued, |next|))
  {
    UnlabelledTargets(Branches(outgoing, queue[0]));
    forall i | |queue| - 1 <= i < |queue| - 1 + |next|
      ensures Within(outgoing, entry, (queue[1..] + next)[i], queued[0] + 1)
    {
      var b := next[i - (|queue| - 1)];
      assert b in next;
      WithinStep(outgoing, entry, queue[0], b, queued[0]);
    }
  }

  lemma VisitKeepsClosed(outgoing: map<string, seq<Edge>>, entry: string,
                         depth: map<string, nat>, queue: seq<string>, queued: seq<nat>, next: seq<string>)
    requires queue != [] && |queue| == |queued| && Closed(outgoing, entry, depth, queue, queued)
    requires queue[0] !in depth && next == Unlabelled(Branches(outgoing, queue[0]))
    ensures Closed(outgoing, entry, depth[queue[0] := queued[0]], queue[1..] + next, Deeper(queued, |next|))
  {
    var depth', queue', queued' := depth[queue[0] := queued[0]], queue[1..] + next, Deeper(queued, |next|);
    KnownAfterVisit(depth, queue, queued, next, entry, 0);
    forall v, b | v in depth' && Follows(outgoing, v, b) ensures Known(depth', queue', queued', b, depth'[v] + 1) {
      if v == queue[0] {
        UnlabelledTargets(Branches(outgoing, v));
        assert b in next;
        var k :| 0 <= k < |next| && next[k] == b;
        assert queue'[|queue| - 1 + k] == b;
      } else {
        KnownAfterVisit(depth, queue, queued, next, b, depth[v] + 1);
      }
    }
  }

  lemma KnownAfterVisit(depth: map<string, nat>, queue: seq<string>, queued: seq<nat>, next: seq<string>,
                        id: string, d: nat)
    requires Known(depth, queue, queued, id, d) && queue != [] && |queue| == |queued| && queue[0] !in depth
    ensures Known(depth[queue[0] := queued[0]], queue[1..] + next, Deeper(queued, |next|), id, d)
  {
    if !(id in depth && depth[id] <= d) {
      var i :| 0 <= i < |queue| && queue[i] == id && queued[i] <= d;
      if i > 0 {
        assert (queue[1..] + next)[i - 1] == id;
      }
    }
  }

  /** `depth` never exceeds the true distance. */
  ghost predicate Exact(outgoing: map<string, seq<Edge>>, entry: string, depth: map<string, nat>) {
    forall v, n :: v in depth && Within(outgoing, entry, v, n) ==> depth[v] <= n
  }

  lemma VisitKeepsExact(outgoing: map<string, seq<Edge>>, entry: string,
                        depth: map<string, nat>, queue: seq<string>, queued: seq<nat>)
    requires queue != [] && Frontier(outgoing, entry, depth, queue, queued) && queue[0] !in depth
    requires Exact(outgoing, entry, depth)
    ensures Exact(outgoing, entry, depth[queue[0] := queued[0]])
  {
    forall n: nat | Within(outgoing, entry, queue[0], n) ensures queued[0] <= n {
      if n < queued[0] {
        NearerIsVisited(outgoing, entry, depth, queue, queued, queue[0], n);
      }
    }
  }

  lemma SuccessorsInUniverse(outgoing: map<string, seq<Edge>>, entry: string, id: string)
    ensures forall b :: b in Unlabelled(Branches(outgoing, id)) ==> b in Universe(outgoing, entry)
  {
    UnlabelledTargets(Branches(outgoing, id));
  }

  /** The visited agents, in an order of non-decreasing depth. */
  ghost predicate Listed(nodeById: map<string, Node>, depth: map<string, nat>, order: seq<string>) {
    && (forall id :: id in order <==> IsAgent(nodeById, id) && id in depth)
    && NoDuplicates(order)
    && (forall i, j :: 0 <= i < j < |order| ==> depth[order[i]] <= depth[order[j]])
  }

  lemma ListNext(nodeById: map<string, Node>, depth: map<string, nat>, order: seq<string>, id: string, d: nat)
    requires Listed(nodeById, depth, order) && id !in depth
    requires forall v :: v in depth ==> depth[v] <= d
    ensures Listed(nodeById, depth[id := d], if IsAgent(nodeById, id) then order + [id] else order)
  {
    assert forall i :: 0 <= i < |order| ==> order[i] in order;
  }

  /** What a visit of the front node makes of all that the search keeps. */
  lemma VisitKeepsAll(outgoing: map<string, seq<Edge>>, entry: string, nodeById: map<string, Node>,
                      depth: map<string, nat>, queue: seq<string>, queued: seq<nat>, order: seq<string>)
    requires queue != [] && Frontier(outgoing, entry, depth, queue, queued) && queue[0] !in depth
    requires Exact(outgoing, entry, depth) && Listed(nodeById, depth, order)
    ensures var id, next := queue[0], Unlabelled(Branches(outgoing, queue[0]));
      && Frontier(outgoing, entry, depth[id := queued[0]], queue[1..] + next, Deeper(queued, |next|))
      && Exact(outgoing, entry, depth[id := queued[0]])
      && Listed(nodeById, depth[id := queued[0]], if IsAgent(nodeById, id) then order + [id] else order)
  {
    VisitKeepsExact(outgoing, entry, depth, queue, queued);
    ListNext(nodeById, depth, order, queue[0], queued[0]);
    Visit(outgoing, entry, depth, queue, queued, Unlabelled(Branches(outgoing, queue[0])));
  }

  /** Once the queue is empty the list is complete and sorted by distance. */
  lemma SearchComplete(outgoing: map<string, seq<Edge>>, entry: string, nodeById: map<string, Node>,
                       depth: map<string, nat>, order: seq<string>)
    requires Frontier(outgoing, entry, depth, [], []) && Exact(outgoing, entry, depth)
    requires Listed(nodeById, depth, order)
    ensures forall id :: id in order <==> IsAgent(nodeById, id) && Reachable(outgoing, entry, id)
    ensures forall i, j :: 0 <= i < j < |order| ==> NoFarther(outgoing, entry, order[i], order[j])
  {
    forall id | Reachable(outgoing, entry, id) ensures id in depth {
      var n :| Within(outgoing, entry, id, n);
      NearerIsVisited(outgoing, entry, depth, [], [], id, n);
    }
    forall i, j, n: nat | 0 <= i < j < |order| && Within(outgoing, entry, order[j], n)
      ensures Within(outgoing, entry, order[i], n)
    {
      assert order[i] in order && order[j] in order;
      WithinMonotone(outgoing, entry, order[i], depth[order[i]], n);
    }
  }

  lemma FewerLeft(universe: set<string>, visited: set<string>, id: string)
    requires id in universe && id !in visited
    ensures |universe - (visited + {id})| < |universe - visited|
  {
    assert universe - (visited + {id}) == (universe - visited) - {id};
  }

  /**
   Stops on every graph, cycles included, and lists exactly the agent nodes reachable from the entry
   over unlabelled edges, each once, none before one that is nearer to the entry.
   */
  method LinearAgentChain(entry: string, nodeById: map<string, Node>, outgoing: map<string, seq<Edge>>)
    returns (order: seq<string>)
    ensures forall id :: id in order <==> IsAgent(nodeById, id) && Reachable(outgoing, entry, id)
    ensures NoDuplicates(order)
    ensures forall i, j :: 0 <= i < j < |order| ==> NoFarther(outgoing, entry, order[i], order[j])
  {
    order := [];
    var visited: set<string> := {};
    var queue := [entry];
    ghost var depth: map<string, nat> := map[];
    ghost var queued: seq<nat> := [0];
    assert Known(depth, queue, queued, entry, 0) by { assert queue[0] == entry; }
    while queue != []
      invariant (forall v :: v in visited <==> v in depth) && visited <= Universe(outgoing, entry)
      invariant forall id :: id in queue ==> id in Universe(outgoing, entry)
      invariant Frontier(outgoing, entry, depth, queue, queued)
      invariant Exact(outgoing, entry, depth)
      invariant Listed(nodeById, depth, order)
      decreases |Universe(outgoing, entry) - visited|, |queue|
    {
      var nodeId := queue[0];
      if nodeId in visited {
        SkipVisited(outgoing, entry, depth, queue, queued);
        queue, queued := queue[1..], queued[1..];
        continue;
      }
      VisitKeepsAll(outgoing, entry, nodeById, depth, queue, queued, order);
      SuccessorsInUniverse(outgoing, entry, nodeId);
      FewerLeft(Universe(outgoing, entry), visited, nodeId);
      visited := visited + {nodeId};
      if nodeId in nodeById && nodeById[nodeId].kind == Some("agent") {
        order := order + [nodeId];
      }
      var next := AppendUnlabelled(Branches(outgoing, nodeId));
      depth := depth[nodeId := queued[0]];
      queue, queued := queue[1..] + next, Deeper(queued, |next|);
    }
    assert queued == [];
    SearchComplete(outgoing, entry, nodeById, depth, order);
  }

  /** The inner loop over the edges of the node being visited. */
  method AppendUnlabelled(branches: seq<Edge>) returns (next: seq<string>)
    ensures next == Unlabelled(branches)
  {
    next := [];
    for i := 0 to |branches|
      invariant next == Unlabelled(branches[..i])
    {
      assert branches[..i + 1][..i] == branches[..i];
      if Labelled(branches[i]) {
        continue;
      }
      next := next + [branches[i].dst];
    }
    assert branches[..|branches|] == branches;
  }
}
