/**
 When a run can go on for ever. What a condition decides is fixed by the latest text, so a cycle of plain
 edges and ok branches is not enough: the texts along one run have to lead onto it and around it.
 */
module EndlessRuns {
  import opened Prelude
  import opened GraphBuilder
  import opened Conditions
  import opened Execution
  import opened Termination

  // ---------------------------------------------------------------- texts that pass, texts that fail

  /** For every threshold some text speaks for passing in every respect, and some against. */
  ghost predicate Expressive(read: string -> Reading) {
    forall threshold :: CanFavour(read, threshold) && CanOppose(read, threshold)
  }

  ghost predicate CanFavour(read: string -> Reading, threshold: real) {
    exists text :: Favours(read(text), threshold)
  }

  ghost predicate CanOppose(read: string -> Reading, threshold: real) {
    exists text :: Opposes(read(text), threshold)
  }

  /** Reads a text of length n that starts with '+' as n units of praise, any other as n units of blame. */
  function PlusOrMinus(text: string): Reading {
    var good := text != "" && text[0] == '+';
    Reading(Some(good), Some(good), Some(if good then |text| as real else -(|text| as real)), good)
  }

  lemma {:induction false} TextOfSize(sign: char, size: nat) returns (text: string)
    requires size > 0
    ensures |text| == size && text[0] == sign
  {
    text := seq(size, i => sign);
  }

  /** Some extractor is expressive, so that the theorems that suppose one speak of something. */
  lemma SomeReadIsExpressive()
    ensures Expressive(PlusOrMinus)
  {
    forall threshold: real ensures CanFavour(PlusOrMinus, threshold) && CanOppose(PlusOrMinus, threshold) {
      var size: nat := if threshold >= 0.0 then threshold.Floor + 1 else (-threshold).Floor + 1;
      var praise := TextOfSize('+', size);
      var blame := TextOfSize('-', size);
      assert Favours(PlusOrMinus(praise), threshold) && Opposes(PlusOrMinus(blame), threshold);
    }
  }

  lemma {:induction false} ThresholdsAreBounded(graph: Blueprint, ids: set<string>)
    returns (lowest: real, highest: real)
    requires ids <= graph.nodes.Keys
    ensures forall id :: id in ids && graph.nodes[id].ConditionFn? ==> lowest <= graph.nodes[id].threshold <= highest
    decreases ids
  {
    lowest, highest := 0.0, 0.0;
    if ids != {} {
      var id :| id in ids;
      lowest, highest := ThresholdsAreBounded(graph, ids - {id});
      if graph.nodes[id].ConditionFn? {
        var threshold := graph.nodes[id].threshold;
        lowest := if threshold < lowest then threshold else lowest;
        highest := if threshold > highest then threshold else highest;
      }
    }
  }

  /** `good` passes wherever a text can, `bad` fails wherever a text can, at every condition of the graph. */
  ghost predicate AreGoodAndBad(graph: Blueprint, read: string -> Reading, good: string, bad: string) {
    forall id :: id in graph.nodes && graph.nodes[id].ConditionFn? ==>
      && Favours(read(good), graph.nodes[id].threshold)
      && Opposes(read(bad), graph.nodes[id].threshold)
  }

  lemma GoodAndBad(graph: Blueprint, read: string -> Reading) returns (good: string, bad: string)
    requires Expressive(read)
    ensures AreGoodAndBad(graph, read, good, bad)
  {
    var lowest, highest := ThresholdsAreBounded(graph, graph.nodes.Keys);
    assert CanFavour(read, highest) && CanOppose(read, lowest);
    good :| Favours(read(good), highest);
    bad :| Opposes(read(bad), lowest);
  }

  // ---------------------------------------------------------------- around a loop

  /** Forward steps stay in `loop`, and no channel in it leads to a condition. */
  ghost predicate IsLoop(graph: Blueprint, loop: set<string>) {
    forall q :: q in loop ==>
      && q in graph.nodes
      && Forward(graph, q).Some? && Forward(graph, q).value in loop
      && (graph.nodes[q].ChannelFn? && Forward(graph, q).value in graph.nodes ==>
            !graph.nodes[Forward(graph, q).value].ConditionFn?)
  }

  /** Judging `text`, every condition of the loop goes on to its ok branch. */
  ghost predicate Carries(graph: Blueprint, read: string -> Reading, loop: set<string>, text: string,
                          counts: map<string, int>) {
    forall q :: q in loop && q in graph.nodes && graph.nodes[q].ConditionFn? ==>
      || Passes(read(text), graph.nodes[q].field, graph.nodes[q].threshold)
      || LoopCount(counts, q) >= graph.nodes[q].maxLoops
  }

  predicate SameCounts(a: map<string, int>, b: map<string, int>, ids: set<string>) {
    forall id :: id in ids ==> LoopCount(a, id) == LoopCount(b, id)
  }

  /** The token is on the loop, no count has changed, and what the next condition judges is `text`. */
  ghost predicate Circles(graph: Blueprint, loop: set<string>, text: string, counts: map<string, int>, c: Config) {
    && c.pos.At? && c.pos.node in loop && c.pos.node in graph.nodes
    && SameCounts(c.loopCounts, counts, graph.nodes.Keys)
    && (Recorder(graph, c).Some? || Judged(c) == text)
  }

  /** An agent's text is what is judged next; conditions and ends leave it as it is. */
  lemma StepFeeds(graph: Blueprint, world: World, c: Config, choice: Choice)
    requires c.pos.At? && c.pos.node in graph.nodes
    ensures var next := Step(graph, world, c, choice);
            match graph.nodes[c.pos.node]
            case AgentFn(_) => Judged(next) == choice.output
            case ChannelFn(_) => true
            case _ => Judged(next) == Judged(c)
  {
  }

  lemma LoopNeverGoesLow(graph: Blueprint, world: World, loop: set<string>, text: string, counts: map<string, int>,
                         c: Config)
    requires Carries(graph, world.read, loop, text, counts) && Circles(graph, loop, text, counts, c)
    ensures !GoesLow(graph, world, c)
  {
    var q := c.pos.node;
    assert LoopCount(c.loopCounts, q) == LoopCount(counts, q);
  }

  lemma LoopStepForward(graph: Blueprint, world: World, loop: set<string>, text: string, counts: map<string, int>,
                        c: Config, choice: Choice)
    requires Runnable(graph) && IsLoop(graph, loop) && Carries(graph, world.read, loop, text, counts)
    requires Circles(graph, loop, text, counts, c)
    ensures Step(graph, world, c, choice).pos == At(Forward(graph, c.pos.node).value)
    ensures SameCounts(Step(graph, world, c, choice).loopCounts, counts, graph.nodes.Keys)
  {
    LoopNeverGoesLow(graph, world, loop, text, counts, c);
    StepMeaning(graph, world, c, choice);
  }

  /** Nothing on a loop is an end, so what is no condition records an output. */
  lemma LoopNodeKind(graph: Blueprint, loop: set<string>, q: string)
    requires EndsAreFinal(graph) && IsLoop(graph, loop) && q in loop
    ensures !graph.nodes[q].EndFn?
  {
    assert Forward(graph, q).Some?;
  }

  lemma CirclesOn(graph: Blueprint, world: World, loop: set<string>, text: string, counts: map<string, int>, c: Config,
                  choice: Choice)
    requires Runnable(graph) && IsLoop(graph, loop) && Carries(graph, world.read, loop, text, counts)
    requires Circles(graph, loop, text, counts, c) && choice.output == text
    ensures Circles(graph, loop, text, counts, Step(graph, world, c, choice))
  {
    LoopStepForward(graph, world, loop, text, counts, c, choice);
    StepFeeds(graph, world, c, choice);
    LoopNodeKind(graph, loop, c.pos.node);
    LoopNodeKind(graph, loop, Forward(graph, c.pos.node).value);
  }

  ghost predicate CirclesAt(graph: Blueprint, world: World, loop: set<string>, text: string, counts: map<string, int>,
                            n: nat) {
    Circles(graph, loop, text, counts, After(graph, world, n))
  }

  /** The loop, what is judged on it, and a world whose agents keep saying `text` from step `k` on. */
  ghost predicate KeepsSaying(graph: Blueprint, world: World, loop: set<string>, text: string, counts: map<string, int>,
                              k: nat) {
    && Runnable(graph) && IsLoop(graph, loop) && Carries(graph, world.read, loop, text, counts)
    && forall m :: m >= k ==> world.choices(m).output == text
  }

  lemma CirclesNext(graph: Blueprint, world: World, loop: set<string>, text: string, counts: map<string, int>, k: nat,
                    n: nat)
    ensures KeepsSaying(graph, world, loop, text, counts, k) && k <= n && CirclesAt(graph, world, loop, text, counts, n)
      ==> CirclesAt(graph, world, loop, text, counts, n + 1)
  {
    if KeepsSaying(graph, world, loop, text, counts, k) && k <= n && CirclesAt(graph, world, loop, text, counts, n) {
      CirclesOn(graph, world, loop, text, counts, After(graph, world, n), world.choices(n));
      assert After(graph, world, n + 1) == Step(graph, world, After(graph, world, n), world.choices(n));
    }
  }

  lemma CirclesForever(graph: Blueprint, world: World, loop: set<string>, text: string, counts: map<string, int>,
                       k: nat, n: nat)
    requires KeepsSaying(graph, world, loop, text, counts, k)
    requires CirclesAt(graph, world, loop, text, counts, k) && k <= n
    ensures CirclesAt(graph, world, loop, text, counts, n)
  {
    var circles := (m: nat) => CirclesAt(graph, world, loop, text, counts, m);
    forall m: nat | k <= m ensures KeptBy(circles, m) {
      CirclesNext(graph, world, loop, text, counts, k, m);
    }
    Onward(circles, k, n);
  }

  lemma StillGoing(graph: Blueprint, world: World, n: nat, last: nat)
    requires n <= last && After(graph, world, last).pos.At?
    ensures After(graph, world, n).pos.At?
  {
    if !After(graph, world, n).pos.At? {
      HaltedStaysHalted(graph, world, n, last);
    }
  }

  lemma NeverEnds(graph: Blueprint, world: World, loop: set<string>, text: string, counts: map<string, int>, k: nat)
    requires KeepsSaying(graph, world, loop, text, counts, k) && CirclesAt(graph, world, loop, text, counts, k)
    ensures forall n :: After(graph, world, n).pos.At?
  {
    forall n: nat ensures After(graph, world, n).pos.At? {
      if n < k {
        StillGoing(graph, world, n, k);
      } else {
        CirclesForever(graph, world, loop, text, counts, k, n);
      }
    }
  }

  // ---------------------------------------------------------------- a long run comes back

  /** A journey: where it is after each step, which steps spend budget, and how much budget is left. */
  datatype Journey = Journey(place: nat -> string, spends: nat -> bool, left: nat -> int)

  ghost predicate SpendsAt(t: Journey, n: nat) {
    t.left(n + 1) == t.left(n) - if t.spends(n) then 1 else 0
  }

  /** Up to step `last` the journey stays among `places`, and its budget is never overdrawn. */
  ghost predicate IsJourney(t: Journey, places: set<string>, last: nat) {
    && (forall n :: 0 <= n <= last ==> t.place(n) in places && t.left(n) >= 0)
    && (forall n :: 0 <= n < last ==> SpendsAt(t, n))
  }

  /** The journey is back where it was, and has spent nothing on the way. */
  ghost predicate ComesBack(t: Journey, i: nat, j: nat) {
    i < j && t.place(i) == t.place(j) && forall k :: i <= k < j ==> !t.spends(k)
  }

  /** The places visited since budget was last spent. */
  ghost function SinceSpent(t: Journey, n: nat): set<string> {
    if n == 0 || t.spends(n - 1) then {t.place(n)} else SinceSpent(t, n - 1) + {t.place(n)}
  }

  lemma {:induction false} SinceSpentVisit(t: Journey, n: nat, q: string) returns (i: nat)
    requires q in SinceSpent(t, n)
    ensures i <= n && t.place(i) == q && forall k :: i <= k < n ==> !t.spends(k)
  {
    if t.place(n) == q {
      i := n;
    } else {
      i := SinceSpentVisit(t, n - 1, q);
    }
  }

  lemma {:induction false} SinceSpentInside(t: Journey, places: set<string>, last: nat, n: nat)
    requires IsJourney(t, places, last) && n <= last
    ensures SinceSpent(t, n) <= places && |SinceSpent(t, n)| <= |places|
  {
    if n > 0 {
      SinceSpentInside(t, places, last, n - 1);
    }
    SubsetSize(SinceSpent(t, n), places);
  }

  /** The room left for going on: units of budget, and places not yet visited since the last one was spent. */
  ghost function Room(t: Journey, places: set<string>, n: nat): int {
    t.left(n) * |places| + |places| - |SinceSpent(t, n)|
  }

  lemma RoomShrinks(t: Journey, places: set<string>, last: nat, n: nat)
    requires IsJourney(t, places, last) && n < last && (t.spends(n) || t.place(n + 1) !in SinceSpent(t, n))
    ensures Room(t, places, n + 1) < Room(t, places, n)
  {
    assert SpendsAt(t, n);
    SinceSpentInside(t, places, last, n);
    if t.spends(n) {
      assert SinceSpent(t, n + 1) == {t.place(n + 1)};
      assert (t.left(n) - 1) * |places| == t.left(n) * |places| - |places|;
    }
  }

  /** A journey either comes back, or every step so far has used up room. */
  lemma {:induction false} ComesBackOrMovesOn(t: Journey, places: set<string>, last: nat, n: nat)
    returns (i: nat, j: nat)
    requires IsJourney(t, places, last) && n <= last
    ensures (j <= n && ComesBack(t, i, j)) || Room(t, places, n) + n <= Room(t, places, 0)
  {
    i, j := 0, 0;
    if n > 0 {
      i, j := ComesBackOrMovesOn(t, places, last, n - 1);
      if !(j <= n - 1 && ComesBack(t, i, j)) {
        if !t.spends(n - 1) && t.place(n) in SinceSpent(t, n - 1) {
          j := n;
          i := SinceSpentVisit(t, n - 1, t.place(n));
        } else {
          RoomShrinks(t, places, last, n - 1);
        }
      }
    }
  }

  /** Pigeonhole: with N places and budget B, a journey of N * (1 + B) steps comes back. */
  lemma LongJourneyComesBack(t: Journey, places: set<string>) returns (i: nat, j: nat)
    requires t.left(0) >= 0 && IsJourney(t, places, Bound(|places|, t.left(0)))
    ensures j <= Bound(|places|, t.left(0)) && ComesBack(t, i, j)
  {
    var last := Bound(|places|, t.left(0));
    i, j := ComesBackOrMovesOn(t, places, last, last);
    SinceSpentInside(t, places, last, last);
    assert t.left(last) * |places| >= 0;
    assert |places| * (1 + t.left(0)) == t.left(0) * |places| + |places|;
  }

  /** How many steps ago budget was last spent. */
  function RestSince(t: Journey, n: nat): (rest: nat)
    ensures rest <= n && forall k :: n - rest <= k < n ==> !t.spends(k)
  {
    if n == 0 || t.spends(n - 1) then 0 else RestSince(t, n - 1) + 1
  }

  lemma {:induction false} RestsOrSpends(t: Journey, places: set<string>, last: nat, size: nat, n: nat)
    returns (end: nat)
    requires IsJourney(t, places, last) && n <= last && size > 0
    ensures (end <= n && RestSince(t, end) == size)
         || (RestSince(t, n) < size && t.left(n) * size + size - RestSince(t, n) + n <= t.left(0) * size + size)
  {
    end := 0;
    if n > 0 {
      end := RestsOrSpends(t, places, last, size, n - 1);
      if !(end <= n - 1 && RestSince(t, end) == size) {
        assert SpendsAt(t, n - 1);
        end := n;
        if t.spends(n - 1) {
          assert (t.left(n - 1) - 1) * size == t.left(n - 1) * size - size;
        }
      }
    }
  }

  /** With budget B, a journey of (1 + B) * size steps goes on for `size` steps, somewhere, without spending. */
  lemma LongJourneyRests(t: Journey, places: set<string>, last: nat, size: nat) returns (end: nat)
    requires IsJourney(t, places, last) && size > 0 && last == t.left(0) * size + size
    ensures size <= end <= last && forall k :: end - size <= k < end ==> !t.spends(k)
  {
    end := RestsOrSpends(t, places, last, size, last);
    assert t.left(last) * size >= 0;
  }

  function NodeOf(c: Config): string {
    if c.pos.At? then c.pos.node else ""
  }

  /** The token is somewhere and goes on without spending loop budget. */
  ghost predicate GoesHigh(graph: Blueprint, world: World, n: nat) {
    After(graph, world, n).pos.At? && !GoesLow(graph, world, After(graph, world, n))
  }

  /** The token comes back to a node and has spent no loop budget on the way. */
  ghost predicate Revisits(graph: Blueprint, world: World, i: nat, j: nat) {
    && i < j && After(graph, world, j).pos.At?
    && NodeOf(After(graph, world, i)) == NodeOf(After(graph, world, j))
    && forall k :: i <= k < j ==> GoesHigh(graph, world, k)
  }

  ghost function AsJourney(graph: Blueprint, world: World): Journey {
    Journey(
      (n: nat) => NodeOf(After(graph, world, n)),
      (n: nat) => GoesLow(graph, world, After(graph, world, n)),
      (n: nat) => BudgetLeft(graph, After(graph, world, n)))
  }

  lemma RunIsJourney(graph: Blueprint, world: World, last: nat, n: nat)
    requires Runnable(graph) && After(graph, world, last).pos.At? && n <= last
    ensures var t := AsJourney(graph, world);
      t.place(n) in graph.nodes && t.left(n) >= 0 && SpendsAt(t, n)
  {
    StillGoing(graph, world, n, last);
    NeverStuck(graph, world, n);
    BudgetLeftAfterStep(graph, world, After(graph, world, n), world.choices(n));
  }

  /** A run that outlasts the step bound comes back to a node without having spent any budget on the way. */
  lemma LongRunComesBack(graph: Blueprint, world: World) returns (i: nat, j: nat)
    requires Runnable(graph) && After(graph, world, StepBound(graph)).pos.At?
    ensures Revisits(graph, world, i, j)
  {
    var t, last := AsJourney(graph, world), StepBound(graph);
    forall n | 0 <= n <= last ensures t.place(n) in graph.nodes.Keys && t.left(n) >= 0 && SpendsAt(t, n) {
      RunIsJourney(graph, world, last, n);
    }
    BudgetAtStart(graph);
    assert |graph.nodes.Keys| == |graph.nodes|;
    i, j := LongJourneyComesBack(t, graph.nodes.Keys);
    forall k | i <= k <= j ensures After(graph, world, k).pos.At? && (k < j ==> GoesHigh(graph, world, k)) {
      StillGoing(graph, world, k, last);
      assert k < j ==> !t.spends(k);
    }
  }

  // ---------------------------------------------------------------- and can then come back for ever

  /** No run comes from a channel straight to a condition. */
  ghost predicate ChannelsFeedNoCondition(graph: Blueprint) {
    forall a, b ::
      Live(graph, a) && a in graph.nodes && graph.nodes[a].ChannelFn? && LiveStep(graph, a, b) && b in graph.nodes ==>
        !graph.nodes[b].ConditionFn?
  }

  ghost function Visited(graph: Blueprint, world: World, i: nat, j: nat): set<string> {
    set k | i <= k < j :: NodeOf(After(graph, world, k))
  }

  lemma HighStep(graph: Blueprint, world: World, k: nat)
    requires Runnable(graph) && GoesHigh(graph, world, k) && After(graph, world, k + 1).pos.At?
    ensures var q := NodeOf(After(graph, world, k));
      && q in graph.nodes && Live(graph, q)
      && Forward(graph, q) == Some(NodeOf(After(graph, world, k + 1)))
    ensures SameCounts(After(graph, world, k + 1).loopCounts, After(graph, world, k).loopCounts, graph.nodes.Keys)
  {
    NeverStuck(graph, world, k);
    StepMeaning(graph, world, After(graph, world, k), world.choices(k));
    assert After(graph, world, k + 1) == Step(graph, world, After(graph, world, k), world.choices(k));
  }

  ghost function CountsAt(graph: Blueprint, world: World, k: nat): map<string, int> {
    After(graph, world, k).loopCounts
  }

  ghost function NodeAt(graph: Blueprint, world: World, k: nat): string {
    NodeOf(After(graph, world, k))
  }

  lemma RevisitStep(graph: Blueprint, world: World, i: nat, j: nat, k: nat)
    requires Runnable(graph) && Revisits(graph, world, i, j) && i <= k < j
    ensures var q := NodeAt(graph, world, k);
      && q in graph.nodes && Live(graph, q)
      && Forward(graph, q) == Some(NodeAt(graph, world, k + 1))
      && NodeAt(graph, world, k + 1) in Visited(graph, world, i, j)
    ensures SameCounts(CountsAt(graph, world, k + 1), CountsAt(graph, world, k), graph.nodes.Keys)
  {
    assert GoesHigh(graph, world, k);
    if k + 1 < j {
      assert GoesHigh(graph, world, k + 1);
      assert NodeOf(After(graph, world, k + 1)) in Visited(graph, world, i, j);
    } else {
      assert NodeOf(After(graph, world, i)) in Visited(graph, world, i, j);
    }
    HighStep(graph, world, k);
  }

  lemma RevisitIsLoop(graph: Blueprint, world: World, i: nat, j: nat)
    requires Runnable(graph) && ChannelsFeedNoCondition(graph) && Revisits(graph, world, i, j)
    ensures IsLoop(graph, Visited(graph, world, i, j))
  {
    var loop := Visited(graph, world, i, j);
    forall q | q in loop
      ensures q in graph.nodes && Live(graph, q) && Forward(graph, q).Some? && Forward(graph, q).value in loop
    {
      var k :| i <= k < j && q == NodeOf(After(graph, world, k));
      RevisitStep(graph, world, i, j, k);
    }
    assert forall q :: q in loop ==> LiveStep(graph, q, Forward(graph, q).value);
  }

  ghost predicate CountsKept(graph: Blueprint, world: World, i: nat, k: nat) {
    SameCounts(CountsAt(graph, world, k), CountsAt(graph, world, i), graph.nodes.Keys)
  }

  lemma CountsKeptOn(graph: Blueprint, world: World, i: nat, j: nat, k: nat)
    requires Runnable(graph) && Revisits(graph, world, i, j) && i <= k < j
    requires CountsKept(graph, world, i, k)
    ensures CountsKept(graph, world, i, k + 1)
  {
    RevisitStep(graph, world, i, j, k);
  }

  lemma CountsOnRevisit(graph: Blueprint, world: World, i: nat, j: nat, k: nat)
    requires Runnable(graph) && Revisits(graph, world, i, j) && i <= k <= j
    ensures CountsKept(graph, world, i, k)
  {
    var kept := (m: nat) => m <= j ==> CountsKept(graph, world, i, m);
    forall m: nat | i <= m ensures KeptBy(kept, m) {
      if m < j && CountsKept(graph, world, i, m) {
        CountsKeptOn(graph, world, i, j, m);
      }
    }
    Onward(kept, i, k);
  }

  /** No text is recorded on the way from step `i` to step `j`. */
  ghost predicate Silent(graph: Blueprint, world: World, i: nat, j: nat) {
    forall k :: i <= k < j ==> !Speaks(graph, world, k)
  }

  ghost predicate Speaks(graph: Blueprint, world: World, k: nat) {
    Recorder(graph, After(graph, world, k)).Some?
  }

  ghost function JudgedAt(graph: Blueprint, world: World, k: nat): string {
    Judged(After(graph, world, k))
  }

  lemma SilentStep(graph: Blueprint, world: World, k: nat)
    requires !Speaks(graph, world, k)
    ensures JudgedAt(graph, world, k + 1) == JudgedAt(graph, world, k)
  {
    RecordsOutput(graph, world, k);
  }

  lemma SilentJudged(graph: Blueprint, world: World, i: nat, j: nat, k: nat)
    requires Silent(graph, world, i, j) && i <= k <= j
    ensures JudgedAt(graph, world, k) == JudgedAt(graph, world, i)
  {
    var same := (m: nat) => m <= j ==> JudgedAt(graph, world, m) == JudgedAt(graph, world, i);
    forall m: nat | i <= m ensures KeptBy(same, m) {
      if m < j {
        SilentStep(graph, world, m);
      }
    }
    Onward(same, i, k);
  }

  /** What let the token pass a condition on the loop once lets it pass again. */
  lemma PassedOnce(graph: Blueprint, world: World, i: nat, j: nat, k: nat)
    requires Runnable(graph) && Revisits(graph, world, i, j) && i <= k < j
    ensures var q := NodeAt(graph, world, k);
      q in graph.nodes && (graph.nodes[q].ConditionFn? ==>
        || Passes(world.read(JudgedAt(graph, world, k)), graph.nodes[q].field, graph.nodes[q].threshold)
        || LoopCount(CountsAt(graph, world, i), q) >= graph.nodes[q].maxLoops)
  {
    RevisitStep(graph, world, i, j, k);
    CountsOnRevisit(graph, world, i, j, k);
    assert GoesHigh(graph, world, k);
  }

  lemma GoodTextCarries(graph: Blueprint, world: World, good: string, bad: string, i: nat, j: nat)
    requires Runnable(graph) && Revisits(graph, world, i, j) && AreGoodAndBad(graph, world.read, good, bad)
    ensures Carries(graph, world.read, Visited(graph, world, i, j), good, CountsAt(graph, world, i))
  {
    forall q | q in Visited(graph, world, i, j) && q in graph.nodes && graph.nodes[q].ConditionFn?
      ensures Passes(world.read(good), graph.nodes[q].field, graph.nodes[q].threshold)
           || LoopCount(CountsAt(graph, world, i), q) >= graph.nodes[q].maxLoops
    {
      var k :| i <= k < j && q == NodeOf(After(graph, world, k));
      PassedOnce(graph, world, i, j, k);
      FavouredExactly(graph.nodes[q].field, graph.nodes[q].threshold, world.read(good), graph.nodes[q].threshold);
    }
  }

  lemma SameTextCarries(graph: Blueprint, world: World, i: nat, j: nat)
    requires Runnable(graph) && Revisits(graph, world, i, j) && Silent(graph, world, i, j)
    ensures var loop, text := Visited(graph, world, i, j), JudgedAt(graph, world, i);
      Carries(graph, world.read, loop, text, CountsAt(graph, world, i))
  {
    forall q | q in Visited(graph, world, i, j) && q in graph.nodes && graph.nodes[q].ConditionFn?
      ensures Passes(world.read(JudgedAt(graph, world, i)), graph.nodes[q].field, graph.nodes[q].threshold)
           || LoopCount(CountsAt(graph, world, i), q) >= graph.nodes[q].maxLoops
    {
      var k :| i <= k < j && q == NodeOf(After(graph, world, k));
      PassedOnce(graph, world, i, j, k);
      SilentJudged(graph, world, i, j, k);
    }
  }

  /** The same world, except that from step `k` on every agent says `text`. */
  ghost function Saying(world: World, k: nat, text: string): World {
    world.(choices := (n: nat) => if n < k then world.choices(n) else Choice(text, true))
  }

  lemma {:induction false} SameUntil(graph: Blueprint, world: World, k: nat, text: string, n: nat)
    requires n <= k
    ensures After(graph, Saying(world, k, text), n) == After(graph, world, n)
  {
    if n > 0 {
      SameUntil(graph, world, k, text, n - 1);
      SameStep(graph, world, Saying(world, k, text), After(graph, world, n - 1), world.choices(n - 1));
    }
  }

  /** A step looks at the extractors, the task and the choice only. */
  lemma SameStep(graph: Blueprint, a: World, b: World, c: Config, choice: Choice)
    requires a.read == b.read && a.taskInput == b.taskInput
    ensures Step(graph, a, c, choice) == Step(graph, b, c, choice)
  {
  }

  /** A run that comes back without spending budget can be bent into one that never ends. */
  lemma ComesBackForever(graph: Blueprint, world: World, good: string, bad: string, i: nat, j: nat)
    returns (endless: World)
    requires Runnable(graph) && ChannelsFeedNoCondition(graph) && Revisits(graph, world, i, j)
    requires AreGoodAndBad(graph, world.read, good, bad)
    ensures endless.read == world.read && forall n :: After(graph, endless, n).pos.At?
  {
    var loop, counts := Visited(graph, world, i, j), CountsAt(graph, world, i);
    RevisitIsLoop(graph, world, i, j);
    var k, text := i, JudgedAt(graph, world, i);
    if Silent(graph, world, i, j) {
      SameTextCarries(graph, world, i, j);
    } else {
      k :| i <= k < j && Speaks(graph, world, k);
      text := good;
      GoodTextCarries(graph, world, good, bad, i, j);
    }
    endless := Saying(world, k, text);
    SameUntil(graph, world, k, text, k);
    CountsOnRevisit(graph, world, i, j, k);
    RevisitStep(graph, world, i, j, k);
    assert GoesHigh(graph, world, k);
    assert NodeOf(After(graph, world, k)) in loop;
    assert CirclesAt(graph, endless, loop, text, counts, k);
    NeverEnds(graph, endless, loop, text, counts, k);
  }

  /**
   The step bound is exact as a test: if all runs end, they all end within N * (1 + sum of budgets) steps;
   one run that is longer means that some run never ends.
   */
  lemma BoundIsExact(graph: Blueprint, read: string -> Reading)
    requires Runnable(graph) && ChannelsFeedNoCondition(graph) && Expressive(read)
    ensures (forall world: World :: world.read == read ==> Halts(graph, world))
       <==> (forall world: World :: world.read == read ==> After(graph, world, StepBound(graph)).pos == Halted)
  {
    forall world: World | world.read == read && After(graph, world, StepBound(graph)).pos != Halted
      ensures exists endless: World :: endless.read == read && !Halts(graph, endless)
    {
      NeverStuck(graph, world, StepBound(graph));
      var i, j := LongRunComesBack(graph, world);
      var good, bad := GoodAndBad(graph, read);
      var endless := ComesBackForever(graph, world, good, bad, i, j);
      assert !Halts(graph, endless);
    }
    forall world: World | After(graph, world, StepBound(graph)).pos == Halted ensures Halts(graph, world) {}
  }

  /** Under the recursion limit, an error is never a matter of a few more steps: then some run never ends. */
  lemma LimitIsExact(graph: Blueprint, read: string -> Reading)
    requires Runnable(graph) && ChannelsFeedNoCondition(graph) && Expressive(read)
      && StepBound(graph) <= RECURSION_LIMIT
    ensures (forall world: World :: world.read == read ==> Invoke(graph, world).Finished?)
       <==> (forall world: World :: world.read == read ==> Halts(graph, world))
  {
    BoundIsExact(graph, read);
    forall world: World
      ensures After(graph, world, StepBound(graph)).pos == Halted ==> Invoke(graph, world).Finished?
      ensures Invoke(graph, world).Finished? ==> Halts(graph, world)
    {
      NeverStuck(graph, world, RECURSION_LIMIT);
      if After(graph, world, StepBound(graph)).pos == Halted {
        HaltedStaysHalted(graph, world, StepBound(graph), RECURSION_LIMIT);
      }
    }
  }
}
