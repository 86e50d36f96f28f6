/** How a condition node picks its branch and keeps its loop count (edges.py). */
module Conditions {
  import opened Prelude

  /** What the extractors find in one text: its two flags, its confidence, and the words "high confidence". */
  datatype Reading = Reading(
    approved: Option<bool>, testsPassed: Option<bool>, confidence: Option<real>, claimsHighConfidence: bool)

  predicate IsFlag(field: string) {
    field == "approved" || field == "tests_passed"
  }

  function Flag(reading: Reading, field: string): Option<bool> {
    if field == "approved" then reading.approved else reading.testsPassed
  }

  /** Some reading passes and some reading fails. */
  predicate IsOpen(field: string, threshold: real) {
    IsFlag(field) || field == "confidence" || 0.5 < threshold <= 0.85
  }

  function LoopKey(nodeId: string): string {
    nodeId + ":low"
  }

  function LoopCount(loopCounts: map<string, int>, nodeId: string): int {
    if LoopKey(nodeId) in loopCounts then loopCounts[LoopKey(nodeId)] else 0
  }

  /** `evaluate_condition_branch`: the branch to take and the updated copy of the loop counts. */
  function EvaluateConditionBranch(
    loopCounts: map<string, int>, reading: Reading, nodeId: string,
    field: string, threshold: real, lowBranch: string, okBranch: string, maxLoops: int)
    : (string, map<string, int>)
  {
    var currentLoops := LoopCount(loopCounts, nodeId);
    if IsFlag(field) then
      if Flag(reading, field).GetOr(true) || currentLoops >= maxLoops
      then (okBranch, loopCounts)
      else (lowBranch, loopCounts[LoopKey(nodeId) := currentLoops + 1])
    else
      var read := if field == "confidence" then reading.confidence else None;
      var confidence := read.GetOr(if reading.claimsHighConfidence then 0.85 else 0.5);
      if confidence >= threshold then (okBranch, loopCounts)
      else if currentLoops >= maxLoops then (okBranch, loopCounts)
      else (lowBranch, loopCounts[LoopKey(nodeId) := currentLoops + 1])
  }

  /** The verdict on the output alone, before any budget is looked at. */
  predicate Passes(reading: Reading, field: string, threshold: real) {
    if IsFlag(field) then Flag(reading, field) != Some(false)
    else if field == "confidence" && reading.confidence.Some? then reading.confidence.value >= threshold
    else threshold <= (if reading.claimsHighConfidence then 0.85 else 0.5)
  }

  lemma LoopKeyInjective(a: string, b: string)
    requires LoopKey(a) == LoopKey(b)
    ensures a == b
  {
    assert LoopKey(a)[..|a|] == a && LoopKey(b)[..|b|] == b;
  }

  /**
   The low branch is taken exactly when the output fails and budget is left; then the node's own
   counter goes up by one. In every other case no counter changes, and no other counter ever does.
   */
  lemma BranchMeaning(loopCounts: map<string, int>, reading: Reading, nodeId: string,
                      field: string, threshold: real, lowBranch: string, okBranch: string, maxLoops: int)
    ensures var (branch, counts) :=
              EvaluateConditionBranch(loopCounts, reading, nodeId, field, threshold, lowBranch, okBranch, maxLoops);
            var goesLow := !Passes(reading, field, threshold) && LoopCount(loopCounts, nodeId) < maxLoops;
            && branch == (if goesLow then lowBranch else okBranch)
            && LoopCount(counts, nodeId) == LoopCount(loopCounts, nodeId) + (if goesLow then 1 else 0)
            && (forall other :: other != nodeId ==> LoopCount(counts, other) == LoopCount(loopCounts, other))
            && (!goesLow ==> counts == loopCounts)
  {
    forall other | LoopKey(other) == LoopKey(nodeId) ensures other == nodeId {
      LoopKeyInjective(other, nodeId);
    }
  }

  /** Low exactly if the text fails and there is budget left, the counter going up by one; else ok, nothing changed. */
  predicate BranchesOn(
    fails: bool, loopCounts: map<string, int>, nodeId: string, lowBranch: string, okBranch: string, maxLoops: int,
    outcome: (string, map<string, int>))
  {
    var count := if nodeId + ":low" in loopCounts then loopCounts[nodeId + ":low"] else 0;
    if fails && count < maxLoops then outcome == (lowBranch, loopCounts[nodeId + ":low" := count + 1])
    else outcome == (okBranch, loopCounts)
  }

  /**
   What each field is judged by: "approved" and "tests_passed" by their own flag, which fails only if it is
   there and false; "confidence" by the number, if there is one; anything else by the words "high confidence".
   */
  lemma VerdictByField(loopCounts: map<string, int>, reading: Reading, nodeId: string,
                       field: string, threshold: real, lowBranch: string, okBranch: string, maxLoops: int)
    ensures var outcome :=
              EvaluateConditionBranch(loopCounts, reading, nodeId, field, threshold, lowBranch, okBranch, maxLoops);
            var goes := (fails: bool) =>
              BranchesOn(fails, loopCounts, nodeId, lowBranch, okBranch, maxLoops, outcome);
            && (field == "approved" ==> goes(reading.approved == Some(false)))
            && (field == "tests_passed" ==> goes(reading.testsPassed == Some(false)))
            && (field == "confidence" && reading.confidence.Some? ==> goes(reading.confidence.value < threshold))
            && (field !in {"approved", "tests_passed"} && (field == "confidence" ==> reading.confidence.None?) ==>
                  goes((if reading.claimsHighConfidence then 0.85 else 0.5) < threshold))
  {
  }

  /** A reading that speaks for passing wherever one can, up to this threshold; and one that speaks against. */
  predicate Favours(reading: Reading, threshold: real) {
    && reading.approved == Some(true) && reading.testsPassed == Some(true)
    && reading.confidence.Some? && reading.confidence.value >= threshold
    && reading.claimsHighConfidence
  }

  predicate Opposes(reading: Reading, threshold: real) {
    && reading.approved == Some(false) && reading.testsPassed == Some(false)
    && reading.confidence.Some? && reading.confidence.value < threshold
    && !reading.claimsHighConfidence
  }

  /** A condition that any reading passes is passed by a favouring one, and no other condition is ever passed. */
  lemma FavouredExactly(field: string, threshold: real, best: Reading, bound: real)
    requires Favours(best, bound) && threshold <= bound
    ensures Passes(best, field, threshold) <==> exists reading :: Passes(reading, field, threshold)
  {
  }

  /** Exactly for open conditions do both verdicts occur, and then the two kinds of reading bring them about. */
  lemma BothVerdictsOccur(field: string, threshold: real, best: Reading, worst: Reading)
    requires Favours(best, threshold) && Opposes(worst, threshold)
    ensures IsOpen(field, threshold) <==>
      (exists reading :: Passes(reading, field, threshold)) && (exists reading :: !Passes(reading, field, threshold))
    ensures IsOpen(field, threshold) ==> Passes(best, field, threshold) && !Passes(worst, field, threshold)
  {
    if IsOpen(field, threshold) {
      assert Passes(best, field, threshold) && !Passes(worst, field, threshold);
    }
  }
}
