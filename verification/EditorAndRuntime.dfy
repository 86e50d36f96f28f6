/** What the runtime makes of a workflow after the editor has saved it. */
module EditorAndRuntime {
  import opened Prelude
  import opened WorkflowGraph
  import opened BranchResolution
  import opened Editor
  import opened EditorRoundTrip

  // ---------------------------------------------------------------- resolving a regrouped branch list

  /** The same targets and labels, one by one. */
  ghost predicate SameBranches(a: seq<Edge>, b: seq<Edge>) {
    |a| == |b| && forall k :: 0 <= k < |a| ==> a[k].dst == b[k].dst && IsLow(a[k]) == IsLow(b[k])
  }

  lemma {:induction false} SameLastTarget(a: seq<Edge>, b: seq<Edge>, low: bool)
    requires SameBranches(a, b)
    ensures LastTarget(a, low) == LastTarget(b, low)
  {
    if a != [] {
      SameLastTarget(a[..|a| - 1], b[..|b| - 1], low);
    }
  }

  lemma {:induction false} LastTargetOfFilter(branches: seq<Edge>, low: bool)
    ensures LastTarget(Filter((e: Edge) => IsLow(e) == low, branches), low) == LastTarget(branches, low)
  {
    if branches != [] {
      var init, last := branches[..|branches| - 1], branches[|branches| - 1];
      LastTargetOfFilter(init, low);
      if IsLow(last) == low {
        var kept := Filter((e: Edge) => IsLow(e) == low, branches);
        assert kept == Filter((e: Edge) => IsLow(e) == low, init) + [last];
      }
    }
  }

  /** Branches with the other label at the end do not matter. */
  lemma {:induction false} LastTargetSkips(a: seq<Edge>, b: seq<Edge>, low: bool)
    requires forall e :: e in b ==> IsLow(e) != low
    ensures LastTarget(a + b, low) == LastTarget(a, low)
  {
    if b == [] {
      assert a + b == a;
    } else {
      assert (a + b)[..|a + b| - 1] == a + b[..|b| - 1];
      LastTargetSkips(a, b[..|b| - 1], low);
    }
  }

  lemma {:induction false} LastTargetOfTail(a: seq<Edge>, b: seq<Edge>, low: bool)
    requires b != [] && forall e :: e in b ==> IsLow(e) == low
    ensures LastTarget(a + b, low) == LastTarget(b, low) == Some(b[|b| - 1].dst)
  {
    assert (a + b)[|a + b| - 1] == b[|b| - 1];
  }

  ghost function Lows(branches: seq<Edge>, low: bool): seq<Edge> {
    Filter((e: Edge) => IsLow(e) == low, branches)
  }

  /** Moving the low branches behind the others changes neither resolution, fallbacks included. */
  lemma RegroupingKeepsTargets(branches: seq<Edge>)
    ensures OkBranch(Lows(branches, false) + Lows(branches, true)) == OkBranch(branches)
    ensures LowBranch(Lows(branches, false) + Lows(branches, true)) == LowBranch(branches)
  {
    var others, lows := Lows(branches, false), Lows(branches, true);
    LastTargetOfFilter(branches, false);
    LastTargetOfFilter(branches, true);
    LastTargetSkips(others, lows, false);
    LastTargetMeaning(branches, false);
    LastTargetMeaning(branches, true);
    if lows == [] {
      NoneLow(branches, true);
      assert others + lows == branches;
    } else {
      LastTargetOfTail(others, lows, true);
      if others == [] {
        NoneLow(branches, false);
        assert others + lows == branches;
      } else {
        LastTargetMeaning(others, false);
        assert others[0] in others;
      }
    }
  }

  lemma NoneLow(branches: seq<Edge>, low: bool)
    requires Lows(branches, low) == []
    ensures Lows(branches, !low) == branches
  {
    forall e | e in branches ensures IsLow(e) != low {
      assert e !in Lows(branches, low);
    }
    FilterAll((e: Edge) => IsLow(e) == !low, branches);
  }

  lemma {:induction false} NoBudgetsMeansDefault(branches: seq<Edge>)
    requires forall e :: e in branches ==> e.maxLoops == None
    ensures LoopBudget(branches) == DEFAULT_MAX_LOOPS
  {
    if branches != [] {
      NoBudgetsMeansDefault(branches[..|branches| - 1]);
    }
  }

  // ---------------------------------------------------------------- the branches of one saved condition

  lemma OutgoingOfGroup(g: Graph, i: nat, j: nat, port: Port)
    requires UniqueSimpleIds(g.nodes) && i < |g.nodes| && j < |g.nodes|
    ensures Outgoing(NormalisedFrom(g, j, port), SimpleId(g.nodes[i], i))
         == if i == j then NormalisedFrom(g, j, port) else []
  {
    NormalisedGroup(g, j, port);
    if i == j {
      FilterAll((e: Edge) => e.src == SimpleId(g.nodes[i], i), NormalisedFrom(g, j, port));
    } else {
      FilterNone((e: Edge) => e.src == SimpleId(g.nodes[i], i), NormalisedFrom(g, j, port));
    }
  }

  lemma OutgoingOfNode(g: Graph, i: nat, j: nat)
    requires UniqueSimpleIds(g.nodes) && i < |g.nodes| && j < |g.nodes|
    ensures Outgoing(NodeEdges(g, j), SimpleId(g.nodes[i], i)) == if i == j then NodeEdges(g, j) else []
  {
    OutgoingAppend(NormalisedFrom(g, j, Output1), NormalisedFrom(g, j, Output2), SimpleId(g.nodes[i], i));
    OutgoingOfGroup(g, i, j, Output1);
    OutgoingOfGroup(g, i, j, Output2);
  }

  lemma OutgoingOfRegrouped(g: Graph, i: nat)
    requires UniqueSimpleIds(g.nodes) && i < |g.nodes|
    ensures Outgoing(Regrouped(g, |g.nodes|), SimpleId(g.nodes[i], i)) == NodeEdges(g, i)
  {
    var id := SimpleId(g.nodes[i], i);
    var keep := (e: Edge) => e.src == id;
    forall k | 0 <= k < |g.nodes| ensures Filter(keep, NodeEdges(g, k)) == if i == k then NodeEdges(g, k) else [] {
      OutgoingOfNode(g, i, k);
    }
    FilterOneNode(g, keep, i);
  }

  /** All targets of `id` are nodes of the workflow. */
  ghost predicate TargetsKnown(g: Graph, id: string) {
    forall e :: e in g.edges && e.src == id ==> e.dst in IdMap(g.nodes)
  }

  /** Every edge of a condition is drawn, the low ones from the second port, all others from the first. */
  lemma ConditionGroup(g: Graph, i: nat, port: Port)
    requires UniqueSimpleIds(g.nodes) && i < |g.nodes| && EditorKind(g.nodes[i]) == "condition"
    requires TargetsKnown(g, SimpleId(g.nodes[i], i))
    ensures DrawnFrom(g.nodes, g.edges, i, port) == Lows(Outgoing(g.edges, SimpleId(g.nodes[i], i)), port == Output2)
  {
    var nodes, id, low := g.nodes, SimpleId(g.nodes[i], i), port == Output2;
    var drawn := (e: Edge) => LeavesBy(nodes, e, i, port);
    forall e | e in g.edges ensures drawn(e) == (e.src == id && IsLow(e) == low) {
      EdgeOfCondition(g, i, port, e);
    }
    FilterFilter((e: Edge) => IsLow(e) == low, (e: Edge) => e.src == id, drawn, g.edges);
  }

  lemma EdgeOfCondition(g: Graph, i: nat, port: Port, e: Edge)
    requires UniqueSimpleIds(g.nodes) && i < |g.nodes| && EditorKind(g.nodes[i]) == "condition"
    requires e in g.edges && TargetsKnown(g, SimpleId(g.nodes[i], i))
    ensures LeavesBy(g.nodes, e, i, port) == (e.src == SimpleId(g.nodes[i], i) && IsLow(e) == (port == Output2))
  {
    IdMapFinds(g.nodes, |g.nodes|, i);
    if e.src in IdMap(g.nodes) {
      IdMapOrigin(g.nodes, |g.nodes|, e.src);
    }
  }

  lemma SavedBranchesResolve(g: Graph, i: nat)
    requires UniqueSimpleIds(g.nodes) && i < |g.nodes| && EditorKind(g.nodes[i]) == "condition"
    requires TargetsKnown(g, SimpleId(g.nodes[i], i))
    ensures OkBranch(NodeEdges(g, i)) == OkBranch(Outgoing(g.edges, SimpleId(g.nodes[i], i)))
    ensures LowBranch(NodeEdges(g, i)) == LowBranch(Outgoing(g.edges, SimpleId(g.nodes[i], i)))
    ensures LoopBudget(NodeEdges(g, i)) == DEFAULT_MAX_LOOPS
  {
    var branches := Outgoing(g.edges, SimpleId(g.nodes[i], i));
    ConditionGroup(g, i, Output1);
    ConditionGroup(g, i, Output2);
    SavedLabels(g, i, Output1);
    SavedLabels(g, i, Output2);
    SameBranchesAppend(NormalisedFrom(g, i, Output1), Lows(branches, false), NormalisedFrom(g, i, Output2),
      Lows(branches, true));
    RegroupedResolve(NodeEdges(g, i), branches);
    SavedHaveNoBudget(g, i);
  }

  lemma SameBranchesAppend(a: seq<Edge>, b: seq<Edge>, c: seq<Edge>, d: seq<Edge>)
    requires SameBranches(a, b) && SameBranches(c, d)
    ensures SameBranches(a + c, b + d)
  {
  }

  lemma SavedHaveNoBudget(g: Graph, i: nat)
    ensures LoopBudget(NodeEdges(g, i)) == DEFAULT_MAX_LOOPS
  {
    NoBudgetsMeansDefault(NodeEdges(g, i));
  }

  lemma RegroupedResolve(saved: seq<Edge>, branches: seq<Edge>)
    requires SameBranches(saved, Lows(branches, false) + Lows(branches, true))
    ensures OkBranch(saved) == OkBranch(branches) && LowBranch(saved) == LowBranch(branches)
  {
    RegroupingKeepsTargets(branches);
    SameLastTarget(saved, Lows(branches, false) + Lows(branches, true), false);
    SameLastTarget(saved, Lows(branches, false) + Lows(branches, true), true);
  }

  lemma SavedLabels(g: Graph, i: nat, port: Port)
    requires i < |g.nodes| && EditorKind(g.nodes[i]) == "condition"
    ensures SameBranches(NormalisedFrom(g, i, port), DrawnFrom(g.nodes, g.edges, i, port))
  {
    var drawn := DrawnFrom(g.nodes, g.edges, i, port);
    forall k | 0 <= k < |drawn| ensures IsLow(Normalised(g.nodes, drawn[k])) == IsLow(drawn[k]) {
      assert drawn[k] in drawn;
    }
  }

  /**
   Every condition whose targets are nodes of the workflow resolves to the same ok and low targets
   after the editor has saved it, fallbacks included; its loop budget is the default of three.
   */
  lemma BranchesSurviveSaving(g: Graph, agents: map<string, int>, i: nat)
    requires UniqueSimpleIds(g.nodes) && i < |g.nodes| && EditorKind(g.nodes[i]) == "condition"
    requires TargetsKnown(g, SimpleId(g.nodes[i], i))
    ensures var id := SimpleId(g.nodes[i], i);
            var before, after := Outgoing(g.edges, id), Outgoing(RoundTrip(g, agents).edges, id);
            && OkBranch(after) == OkBranch(before)
            && LowBranch(after) == LowBranch(before)
            && LoopBudget(after) == DEFAULT_MAX_LOOPS
  {
    EdgesAreRegrouped(g, agents);
    OutgoingOfRegrouped(g, i);
    SavedBranchesResolve(g, i);
  }
}
