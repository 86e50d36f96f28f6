/**
 Which edge of a condition node is its ok branch and which its low branch (graph_builder.py).
 The source resolves branches twice: once for the node that stores `pending_route`, once for the
 mapping that has to contain it.
 */
module BranchResolution {
  import opened Prelude
  import opened WorkflowGraph

  const DEFAULT_MAX_LOOPS := 3

  /** The target of the last branch whose label is low (or, with `low` false, is not low). */
  function LastTarget(branches: seq<Edge>, low: bool): Option<string> {
    if branches == [] then None
    else if IsLow(branches[|branches| - 1]) == low then Some(branches[|branches| - 1].dst)
    else LastTarget(branches[..|branches| - 1], low)
  }

  /** Falls back to the first branch when every branch is low. */
  function OkBranch(branches: seq<Edge>): Option<string> {
    match LastTarget(branches, false)
    case Some(target) => Some(target)
    case None => if branches != [] then Some(branches[0].dst) else None
  }

  /** Falls back to the second branch when no branch is low. */
  function LowBranch(branches: seq<Edge>): Option<string> {
    match LastTarget(branches, true)
    case Some(target) => Some(target)
    case None => if |branches| > 1 then Some(branches[1].dst) else None
  }

  /** The budget on the last low branch that carries one; branches without one leave it alone. */
  function LoopBudget(branches: seq<Edge>): int {
    if branches == [] then DEFAULT_MAX_LOOPS
    else if IsLow(branches[|branches| - 1]) && branches[|branches| - 1].maxLoops.Some?
    then branches[|branches| - 1].maxLoops.value
    else LoopBudget(branches[..|branches| - 1])
  }

  ghost function Targets(branches: seq<Edge>): set<string> {
    set b | b in branches :: b.dst
  }

  /** The resolution inside `_compile_graph`, which also reads the loop budget. */
  method ResolveForNode(branches: seq<Edge>) returns (ok: Option<string>, low: Option<string>, maxLoops: int)
    ensures ok == OkBranch(branches) && low == LowBranch(branches) && maxLoops == LoopBudget(branches)
  {
    ok, low, maxLoops := None, None, DEFAULT_MAX_LOOPS;
    for i := 0 to |branches|
      invariant ok == LastTarget(branches[..i], false)
      invariant low == LastTarget(branches[..i], true)
      invariant maxLoops == LoopBudget(branches[..i])
    {
      assert branches[..i + 1][..i] == branches[..i];
      var branch := branches[i];
      if branch.when == Some("low") {
        low := Some(branch.dst);
        maxLoops := branch.maxLoops.GetOr(maxLoops);
      } else {
        ok := Some(branch.dst);
      }
    }
    assert branches[..|branches|] == branches;
    if ok.None? && branches != [] {
      ok := Some(branches[0].dst);
    }
    if low.None? && |branches| > 1 {
      low := Some(branches[1].dst);
    }
  }

  /** The resolution inside `_wire_edges`, which also collects the mapping of permitted targets. */
  method ResolveForWiring(branches: seq<Edge>)
    returns (ok: Option<string>, low: Option<string>, mapping: set<string>)
    ensures ok == OkBranch(branches) && low == LowBranch(branches) && mapping == Targets(branches)
  {
    ok, low, mapping := None, None, {};
    for i := 0 to |branches|
      invariant ok == LastTarget(branches[..i], false)
      invariant low == LastTarget(branches[..i], true)
      invariant mapping == Targets(branches[..i])
    {
      assert branches[..i + 1][..i] == branches[..i];
      var target := branches[i].dst;
      mapping := mapping + {target};
      if branches[i].when == Some("low") {
        low := Some(target);
      } else {
        ok := Some(target);
      }
    }
    assert branches[..|branches|] == branches;
    if ok.None? && branches != [] {
      ok := Some(branches[0].dst);
    }
    if low.None? && |branches| > 1 {
      low := Some(branches[1].dst);
    }
  }

  /** `LastTarget` is the target of a branch with that label after which the label does not return. */
  lemma {:induction false} LastTargetMeaning(branches: seq<Edge>, low: bool)
    ensures match LastTarget(branches, low)
            case Some(target) =>
              exists i :: 0 <= i < |branches| && branches[i].dst == target && IsLow(branches[i]) == low
                       && forall j :: i < j < |branches| ==> IsLow(branches[j]) != low
            case None => forall b :: b in branches ==> IsLow(b) != low
  {
    if branches != [] && IsLow(branches[|branches| - 1]) != low {
      var init := branches[..|branches| - 1];
      LastTargetMeaning(init, low);
      assert branches == init + [branches[|branches| - 1]];
      if LastTarget(init, low).Some? {
        var i :| 0 <= i < |init| && init[i].dst == LastTarget(init, low).value && IsLow(init[i]) == low
              && forall j :: i < j < |init| ==> IsLow(init[j]) != low;
        assert branches[i] == init[i];
        assert forall j :: i < j < |init| ==> branches[j] == init[j];
      }
    }
  }

  /** The budget is that of a low branch that carries one and after which no low branch does, or else three. */
  lemma {:induction false} LoopBudgetMeaning(branches: seq<Edge>)
    ensures || (LoopBudget(branches) == 3 && forall b :: b in branches && b.when == Some("low") ==> b.maxLoops == None)
            || exists i :: 0 <= i < |branches| && branches[i].when == Some("low")
                        && branches[i].maxLoops == Some(LoopBudget(branches))
                        && forall j :: i < j < |branches| && branches[j].when == Some("low") ==>
                          branches[j].maxLoops == None
  {
    if branches != [] {
      var init, last := branches[..|branches| - 1], branches[|branches| - 1];
      LoopBudgetMeaning(init);
      assert branches == init + [last];
      if last.when == Some("low") && last.maxLoops.Some? {
        assert branches[|branches| - 1].maxLoops == Some(LoopBudget(branches));
      } else if exists b :: b in init && b.when == Some("low") && b.maxLoops.Some? {
        var i :| 0 <= i < |init| && init[i].when == Some("low") && init[i].maxLoops == Some(LoopBudget(init))
              && forall j :: i < j < |init| && init[j].when == Some("low") ==> init[j].maxLoops == None;
        assert branches[i] == init[i];
        assert forall j :: i < j < |init| ==> branches[j] == init[j];
      }
    }
  }

  /** Both resolved branches are targets of the condition, so the wired mapping contains them. */
  lemma ResolvedBranchesAreTargets(branches: seq<Edge>)
    ensures OkBranch(branches).Some? ==> OkBranch(branches).value in Targets(branches)
    ensures LowBranch(branches).Some? ==> LowBranch(branches).value in Targets(branches)
  {
    LastTargetMeaning(branches, false);
    LastTargetMeaning(branches, true);
  }

  /** A condition resolves both ways exactly when it has two branches, or a single one labelled low. */
  lemma ResolvesExactly(branches: seq<Edge>)
    ensures OkBranch(branches).Some? && LowBranch(branches).Some?
       <==> |branches| >= 2 || (|branches| == 1 && IsLow(branches[0]))
  {
    LastTargetMeaning(branches, false);
    LastTargetMeaning(branches, true);
  }

  /**
   Two branches that both carry no low label collapse: the fallback takes the second branch for low
   after the loop has taken it for ok, so the first branch can never be followed.
   */
  lemma UnlabelledPairCollapses(first: Edge, second: Edge)
    requires !IsLow(first) && !IsLow(second)
    ensures OkBranch([first, second]) == LowBranch([first, second]) == Some(second.dst)
  {
    LastTargetMeaning([first, second], true);
  }

  /** The branch at this position is the last one with the label. */
  predicate IsLast(branches: seq<Edge>, i: nat, low: bool) {
    i < |branches| && IsLow(branches[i]) == low && forall j :: i < j < |branches| ==> IsLow(branches[j]) != low
  }

  /** The branch that ok resolves to: the last one not labelled low, or else the first. */
  predicate IsOkAt(branches: seq<Edge>, i: nat) {
    IsLast(branches, i, false) || (i == 0 < |branches| && forall b :: b in branches ==> IsLow(b))
  }

  /** The branch that low resolves to: the last one labelled low, or else the second. */
  predicate IsLowAt(branches: seq<Edge>, i: nat) {
    IsLast(branches, i, true) || (i == 1 < |branches| && forall b :: b in branches ==> !IsLow(b))
  }

  lemma OkPosition(branches: seq<Edge>) returns (i: nat)
    requires OkBranch(branches).Some?
    ensures IsOkAt(branches, i) && OkBranch(branches) == Some(branches[i].dst)
  {
    LastTargetMeaning(branches, false);
    i := 0;
    if LastTarget(branches, false).Some? {
      i :| IsLast(branches, i, false) && branches[i].dst == LastTarget(branches, false).value;
    }
  }

  lemma LowPosition(branches: seq<Edge>) returns (i: nat)
    requires LowBranch(branches).Some?
    ensures IsLowAt(branches, i) && LowBranch(branches) == Some(branches[i].dst)
  {
    LastTargetMeaning(branches, true);
    i := 1;
    if LastTarget(branches, true).Some? {
      i :| IsLast(branches, i, true) && branches[i].dst == LastTarget(branches, true).value;
    }
  }

  /** A condition resolves both ways to one and the same branch. */
  predicate Collapses(branches: seq<Edge>) {
    || (|branches| == 1 && IsLow(branches[0]))
    || (|branches| == 2 && !IsLow(branches[0]) && !IsLow(branches[1]))
  }

  /**
   A condition that resolves both ways really has two branches to choose from, except in exactly two cases:
   a single branch labelled low, and two branches without a low label. With distinct targets, these are
   the cases in which the verdict makes no difference.
   */
  lemma CollapsesExactly(branches: seq<Edge>) returns (ok: nat, low: nat)
    requires OkBranch(branches).Some? && LowBranch(branches).Some?
    ensures IsOkAt(branches, ok) && OkBranch(branches) == Some(branches[ok].dst)
    ensures IsLowAt(branches, low) && LowBranch(branches) == Some(branches[low].dst)
    ensures ok == low <==> Collapses(branches)
    ensures (forall i, j :: 0 <= i < j < |branches| ==> branches[i].dst != branches[j].dst) ==>
      (OkBranch(branches) == LowBranch(branches) <==> Collapses(branches))
  {
    ok := OkPosition(branches);
    low := LowPosition(branches);
    ResolvesExactly(branches);
    assert branches[0] in branches && branches[|branches| - 1] in branches;
  }
}
