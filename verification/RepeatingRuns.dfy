/**
 Any graph, any extractors: a run that is long enough can be made to repeat a stretch of itself, by giving one
 answer that closes the stretch and then the same answers over and over. What a step depends on is the place,
 the counts, the text judged, and the first output.
 */
module RepeatingRuns {
  import opened Prelude
  import opened GraphBuilder
  import opened Conditions
  import opened Execution
  import opened Termination
  import opened EndlessRuns
  import opened Repetition

  // ---------------------------------------------------------------- what a step depends on

  /** The text that a channel sends on. */
  function Base(task: string, c: Config): string {
    OutputOf(c, c.firstNode, task)
  }

  /** Alike as far as the future goes. */
  ghost predicate Alike(graph: Blueprint, task: string, c: Config, d: Config) {
    && c.pos == d.pos
    && SameCounts(c.loopCounts, d.loopCounts, graph.nodes.Keys)
    && SameTexts(task, c, d)
  }

  predicate SameTexts(task: string, c: Config, d: Config) {
    Judged(c) == Judged(d) && c.firstNode == d.firstNode && Base(task, c) == Base(task, d)
  }

  lemma RecordsStayAlike(task: string, c: Config, d: Config, id: string, output: string)
    requires SameTexts(task, c, d)
    ensures SameTexts(task, Record(c, id, output), Record(d, id, output))
  {
  }

  lemma TextsStayAlike(graph: Blueprint, world: World, c: Config, d: Config, choice: Choice)
    requires c.pos == d.pos && SameTexts(world.taskInput, c, d) && c.pos.At? && c.pos.node in graph.nodes
    ensures SameTexts(world.taskInput, Step(graph, world, c, choice), Step(graph, world, d, choice))
  {
    var id := c.pos.node;
    match graph.nodes[id]
    case AgentFn(_) => RecordsStayAlike(world.taskInput, c, d, id, choice.output);
    case ChannelFn(channel) =>
      RecordsStayAlike(world.taskInput, c, d, id, Payload(channel, Base(world.taskInput, c), choice.delivered));
    case _ =>
  }

  lemma StepsStayAlike(graph: Blueprint, world: World, c: Config, d: Config, choice: Choice)
    requires Runnable(graph) && Alike(graph, world.taskInput, c, d) && c.pos.At? && c.pos.node in graph.nodes
    ensures Alike(graph, world.taskInput, Step(graph, world, c, choice), Step(graph, world, d, choice))
  {
    TextsStayAlike(graph, world, c, d, choice);
    StepMeaning(graph, world, c, choice);
    StepMeaning(graph, world, d, choice);
    assert LoopCount(c.loopCounts, c.pos.node) == LoopCount(d.loopCounts, c.pos.node);
  }

  // ---------------------------------------------------------------- a run as a process

  ghost predicate IsOn(graph: Blueprint, c: Config) {
    c.pos.At? && c.pos.node in graph.nodes
  }

  ghost function AsProcess(graph: Blueprint, world: World): Process<Config, Choice> {
    Process(
      (c: Config, choice: Choice) => Step(graph, world, c, choice),
      (c: Config, d: Config) => Alike(graph, world.taskInput, c, d),
      (c: Config) => IsOn(graph, c))
  }

  lemma RunsAreAProcess(graph: Blueprint, world: World)
    requires Runnable(graph)
    ensures StepsAlike(AsProcess(graph, world)) && IsEquivalence(AsProcess(graph, world))
  {
    var m := AsProcess(graph, world);
    forall c, d, x ensures StepAlike(m, c, d, x) {
      if Alike(graph, world.taskInput, c, d) && IsOn(graph, d) {
        StepsStayAlike(graph, world, c, d, x);
      }
    }
  }

  lemma {:induction false} RunIsProcess(graph: Blueprint, world: World, other: World, n: nat)
    requires other.read == world.read && other.taskInput == world.taskInput
    ensures After(graph, other, n) == State(AsProcess(graph, world), Start(graph), other.choices, n)
  {
    if n > 0 {
      RunIsProcess(graph, world, other, n - 1);
      SameStep(graph, other, world, After(graph, other, n - 1), other.choices(n - 1));
    }
  }

  /** From step `a` to step `b` the token stays on, and `closing` then leads to where step `a` has led. */
  ghost predicate CanClose(graph: Blueprint, world: World, a: nat, b: nat, closing: Choice) {
    && a < b
    && (forall k :: a <= k <= b ==> StillOn(graph, world, k))
    && Alike(graph, world.taskInput, Step(graph, world, After(graph, world, b), closing), After(graph, world, a + 1))
  }

  ghost predicate StillOn(graph: Blueprint, world: World, k: nat) {
    IsOn(graph, After(graph, world, k))
  }

  lemma ClosesAsProcess(graph: Blueprint, world: World, a: nat, b: nat, p: nat, closing: Choice)
    requires CanClose(graph, world, a, b, closing) && b == a + p
    ensures Closes(AsProcess(graph, world), Start(graph), world.choices, a, p, closing)
  {
    var m := AsProcess(graph, world);
    forall k | a <= k <= b ensures GoesOn(m, Start(graph), world.choices, k) {
      assert StillOn(graph, world, k);
      RunIsProcess(graph, world, world, k);
    }
    RunIsProcess(graph, world, world, b);
    RunIsProcess(graph, world, world, a + 1);
  }

  /** The same task, and the same answers before step `a + p`; from step `a + 1` on they come back every `p` steps. */
  ghost predicate Repeats(endless: World, world: World, a: nat, p: nat) {
    && endless.read == world.read && endless.taskInput == world.taskInput && p > 0
    && (forall n: nat :: n < a + p ==> endless.choices(n) == world.choices(n))
    && (forall n: nat :: n > a ==> Recurs(endless.choices, n, p))
  }

  predicate Recurs(choices: nat -> Choice, n: nat, p: nat) {
    choices(n + p) == choices(n)
  }

  lemma RepetitionRepeats(world: World, a: nat, p: nat, closing: Choice)
    requires p > 0
    ensures Repeats(world.(choices := Repeated(world.choices, a, p, closing)), world, a, p)
    ensures Repeated(world.choices, a, p, closing)(a + p) == closing
  {
    var again := Repeated(world.choices, a, p, closing);
    RepeatedCloses(world.choices, a, p, closing, a + p);
    forall n: nat ensures n < a + p ==> again(n) == world.choices(n) {
      if n < a + p {
        RepeatedBefore(world.choices, a, p, closing, n);
      }
    }
    forall n: nat ensures n > a ==> Recurs(again, n, p) {
      if n > a {
        RepeatedRecurs(world.choices, a, p, closing, n);
      }
    }
  }

  /** A stretch of a run that can be closed makes an endless run. */
  lemma ClosedRunIsEndless(graph: Blueprint, world: World, a: nat, b: nat, p: nat, closing: Choice)
    returns (endless: World)
    requires Runnable(graph) && CanClose(graph, world, a, b, closing) && b == a + p
    ensures Repeats(endless, world, a, p) && endless.choices(b) == closing
    ensures forall n :: After(graph, endless, n).pos.At?
  {
    endless := world.(choices := Repeated(world.choices, a, p, closing));
    RepetitionRepeats(world, a, p, closing);
    forall n: nat ensures After(graph, endless, n).pos.At? {
      RepetitionGoesOn(graph, world, a, b, p, closing, n);
    }
  }

  lemma RepetitionGoesOn(graph: Blueprint, world: World, a: nat, b: nat, p: nat, closing: Choice, n: nat)
    requires Runnable(graph) && CanClose(graph, world, a, b, closing) && b == a + p
    ensures After(graph, world.(choices := Repeated(world.choices, a, p, closing)), n).pos.At?
  {
    var m, last := AsProcess(graph, world), n + a + 1;
    var endless := world.(choices := Repeated(world.choices, a, p, closing));
    RunsAreAProcess(graph, world);
    ClosesAsProcess(graph, world, a, b, p, closing);
    Repetition.RepeatsForever(m, Start(graph), world.choices, a, p, closing, last);
    RunIsProcess(graph, world, endless, last);
    StillGoing(graph, endless, n, last);
  }

  // ---------------------------------------------------------------- the first output

  lemma PayloadFits(channel: string, summary: string, delivered: bool)
    ensures |Payload(channel, summary, delivered)| <= 4000
    ensures |summary| <= 4000 ==> Payload(channel, summary, true) == summary
  {
    assert |TELEGRAM| == 8;
  }

  ghost function FirstAt(graph: Blueprint, world: World, n: nat): Option<string> {
    After(graph, world, n).firstNode
  }

  ghost function BaseAt(graph: Blueprint, world: World, n: nat): string {
    Base(world.taskInput, After(graph, world, n))
  }

  /** Once there is a first output, its node stays the first. */
  lemma {:induction false} FirstStays(graph: Blueprint, world: World, n: nat, m: nat)
    requires n <= m && FirstAt(graph, world, n).Some?
    ensures FirstAt(graph, world, m) == FirstAt(graph, world, n)
    decreases m
  {
    if n < m {
      FirstStays(graph, world, n, m - 1);
      RecordsOutput(graph, world, m - 1);
    }
  }

  ghost predicate IsRecorder(graph: Blueprint, id: string) {
    id in graph.nodes && (graph.nodes[id].AgentFn? || graph.nodes[id].ChannelFn?)
  }

  lemma {:induction false} FirstIsRecorder(graph: Blueprint, world: World, n: nat)
    ensures FirstAt(graph, world, n).Some? ==>
      && IsRecorder(graph, FirstAt(graph, world, n).value)
      && FirstAt(graph, world, n).value in After(graph, world, n).nodeOutputs
  {
    if n > 0 {
      FirstIsRecorder(graph, world, n - 1);
      RecordsOutput(graph, world, n - 1);
    }
  }

  /** The base changes only where the first node speaks again. */
  lemma {:induction false} BaseStays(graph: Blueprint, world: World, n: nat, m: nat)
    requires n <= m && FirstAt(graph, world, n).Some?
    requires forall k :: n <= k < m ==> NodeAt(graph, world, k) != FirstAt(graph, world, n).value
    ensures BaseAt(graph, world, m) == BaseAt(graph, world, n)
    decreases m
  {
    if n < m {
      BaseStays(graph, world, n, m - 1);
      FirstStays(graph, world, n, m - 1);
      assert NodeAt(graph, world, m - 1) != FirstAt(graph, world, n).value;
      BaseStaysOnce(graph, world, m - 1);
    }
  }

  lemma BaseStaysOnce(graph: Blueprint, world: World, n: nat)
    requires FirstAt(graph, world, n).Some? && FirstAt(graph, world, n).value != NodeAt(graph, world, n)
    ensures BaseAt(graph, world, n + 1) == BaseAt(graph, world, n)
  {
    FirstIsRecorder(graph, world, n);
    RecordsOutput(graph, world, n);
  }

  /** The text that a step at an agent or a channel records. */
  function Said(world: World, node: NodeFn, c: Config, choice: Choice): string {
    match node
    case ChannelFn(channel) => Payload(channel, Base(world.taskInput, c), choice.delivered)
    case _ => choice.output
  }

  lemma RecordsTexts(graph: Blueprint, world: World, c: Config, choice: Choice)
    requires c.pos.At? && IsRecorder(graph, c.pos.node)
    ensures var id, next := c.pos.node, Step(graph, world, c, choice);
      && Judged(next) == Said(world, graph.nodes[id], c, choice)
      && next.firstNode == (if c.firstNode.Some? then c.firstNode else Some(id))
      && Base(world.taskInput, next) == if next.firstNode == Some(id) then Judged(next) else Base(world.taskInput, c)
  {
  }

  /**
   Back at a node that records, with the base that it left behind the last time: some choice makes it leave
   the same texts as that time. A channel that sends on its own output need only deliver it.
   */
  lemma RecorderCloses(graph: Blueprint, world: World, c: Config, d: Config, choice: Choice) returns (closing: Choice)
    requires c.pos.At? && c.pos == d.pos && IsRecorder(graph, c.pos.node)
    requires var next := Step(graph, world, c, choice);
      d.firstNode == next.firstNode && d.firstNode.Some? && Base(world.taskInput, d) == Base(world.taskInput, next)
    ensures SameTexts(world.taskInput, Step(graph, world, d, closing), Step(graph, world, c, choice))
  {
    var id, first := c.pos.node, Step(graph, world, c, choice).firstNode;
    closing := if graph.nodes[id].ChannelFn? && first == Some(id) then Choice("", true) else choice;
    RecordsTexts(graph, world, c, choice);
    RecordsTexts(graph, world, d, closing);
    if graph.nodes[id].ChannelFn? {
      PayloadFits(graph.nodes[id].channel, Base(world.taskInput, c), choice.delivered);
      PayloadFits(graph.nodes[id].channel, Base(world.taskInput, d), true);
    }
  }

  // ---------------------------------------------------------------- closing a stretch

  /** From step `a` to step `b` the token goes on without spending budget. */
  ghost predicate Stretch(graph: Blueprint, world: World, a: nat, b: nat) {
    After(graph, world, b).pos.At? && forall k :: a <= k < b ==> GoesHigh(graph, world, k)
  }

  lemma OnStretch(graph: Blueprint, world: World, a: nat, b: nat, k: nat)
    requires Runnable(graph) && Stretch(graph, world, a, b) && a <= k <= b
    ensures StillOn(graph, world, k)
    ensures k < b ==> Forward(graph, NodeAt(graph, world, k)) == Some(NodeAt(graph, world, k + 1))
    ensures k < b ==> SameCounts(CountsAt(graph, world, k + 1), CountsAt(graph, world, k), graph.nodes.Keys)
  {
    StillGoing(graph, world, k, b);
    NeverStuck(graph, world, k);
    if k < b {
      assert GoesHigh(graph, world, k);
      StillGoing(graph, world, k + 1, b);
      HighStep(graph, world, k);
    }
  }

  lemma CountsOnStretch(graph: Blueprint, world: World, a: nat, b: nat, k: nat)
    requires Runnable(graph) && Stretch(graph, world, a, b) && a <= k <= b
    ensures CountsKept(graph, world, a, k)
  {
    var kept := (m: nat) => m <= b ==> CountsKept(graph, world, a, m);
    forall m: nat | a <= m ensures KeptBy(kept, m) {
      if m < b && CountsKept(graph, world, a, m) {
        OnStretch(graph, world, a, b, m);
      }
    }
    Onward(kept, a, k);
  }

  ghost predicate TextsKept(graph: Blueprint, world: World, a: nat, k: nat) {
    var c, d := After(graph, world, a), After(graph, world, k);
    c.nodeOutputs == d.nodeOutputs && c.lastNode == d.lastNode && c.firstNode == d.firstNode
  }

  lemma SilentKeepsTexts(graph: Blueprint, world: World, a: nat, b: nat)
    requires Silent(graph, world, a, b) && a <= b
    ensures TextsKept(graph, world, a, b)
  {
    var kept := (m: nat) => m <= b ==> TextsKept(graph, world, a, m);
    forall m: nat | a <= m ensures KeptBy(kept, m) {
      if m < b {
        assert !Speaks(graph, world, m);
        RecordsOutput(graph, world, m);
      }
    }
    Onward(kept, a, b);
  }

  lemma StretchIsOn(graph: Blueprint, world: World, a: nat, b: nat)
    requires Runnable(graph) && Stretch(graph, world, a, b)
    ensures forall k :: a <= k <= b ==> StillOn(graph, world, k)
  {
    forall k | a <= k <= b ensures StillOn(graph, world, k) {
      OnStretch(graph, world, a, b, k);
    }
  }

  ghost predicate AlikeAt(graph: Blueprint, world: World, n: nat, m: nat) {
    Alike(graph, world.taskInput, After(graph, world, n), After(graph, world, m))
  }

  lemma SilentStretchEndsAlike(graph: Blueprint, world: World, a: nat, b: nat)
    requires Runnable(graph) && a < b && Stretch(graph, world, a, b) && Silent(graph, world, a, b)
    requires NodeAt(graph, world, a) == NodeAt(graph, world, b)
    ensures AlikeAt(graph, world, b, a)
  {
    assert GoesHigh(graph, world, a);
    CountsOnStretch(graph, world, a, b, b);
    SilentKeepsTexts(graph, world, a, b);
  }

  lemma AlikeGoesOn(graph: Blueprint, world: World, n: nat, m: nat)
    requires Runnable(graph) && AlikeAt(graph, world, n, m) && StillOn(graph, world, n)
    ensures var next := Step(graph, world, After(graph, world, n), world.choices(m));
      Alike(graph, world.taskInput, next, After(graph, world, m + 1))
  {
    StepsStayAlike(graph, world, After(graph, world, n), After(graph, world, m), world.choices(m));
    assert After(graph, world, m + 1) == Step(graph, world, After(graph, world, m), world.choices(m));
  }

  /** Back where it was, with no text recorded in between, the token goes on as before. */
  lemma SilentStretchCloses(graph: Blueprint, world: World, a: nat, b: nat)
    requires Runnable(graph) && a < b && Stretch(graph, world, a, b) && Silent(graph, world, a, b)
    requires NodeAt(graph, world, a) == NodeAt(graph, world, b)
    ensures CanClose(graph, world, a, b, world.choices(a))
  {
    StretchIsOn(graph, world, a, b);
    SilentStretchEndsAlike(graph, world, a, b);
    AlikeGoesOn(graph, world, b, a);
  }

  lemma RecorderGoesOn(graph: Blueprint, world: World, c: Config, d: Config, choice: Choice, closing: Choice)
    requires Runnable(graph) && c.pos.At? && c.pos == d.pos && IsRecorder(graph, c.pos.node)
    requires SameCounts(d.loopCounts, c.loopCounts, graph.nodes.Keys)
    ensures Step(graph, world, d, closing).pos == Step(graph, world, c, choice).pos
    ensures var next, other := Step(graph, world, c, choice), Step(graph, world, d, closing);
      SameCounts(other.loopCounts, next.loopCounts, graph.nodes.Keys)
  {
    StepMeaning(graph, world, c, choice);
    StepMeaning(graph, world, d, closing);
  }

  /** Between steps `a` and `b` the token is not at the first node. */
  ghost predicate FirstIsAway(graph: Blueprint, world: World, a: nat, b: nat) {
    forall k :: a < k < b ==> Some(NodeAt(graph, world, k)) != FirstAt(graph, world, a + 1)
  }

  lemma FirstStaysSilent(graph: Blueprint, world: World, a: nat, b: nat)
    requires a < b && Speaks(graph, world, a) && FirstIsAway(graph, world, a, b)
    ensures FirstAt(graph, world, a + 1).Some?
    ensures FirstAt(graph, world, b) == FirstAt(graph, world, a + 1)
      && BaseAt(graph, world, b) == BaseAt(graph, world, a + 1)
  {
    RecordsOutput(graph, world, a);
    FirstStays(graph, world, a + 1, b);
    BaseStays(graph, world, a + 1, b);
  }

  /** The end of the stretch is where its beginning was, with the same counts. */
  ghost predicate SamePlace(graph: Blueprint, world: World, a: nat, b: nat) {
    && StillOn(graph, world, a) && StillOn(graph, world, b)
    && After(graph, world, a).pos == After(graph, world, b).pos
    && CountsKept(graph, world, a, b)
  }

  lemma StretchReturns(graph: Blueprint, world: World, a: nat, b: nat)
    requires Runnable(graph) && a < b && Stretch(graph, world, a, b)
      && NodeAt(graph, world, a) == NodeAt(graph, world, b)
    ensures SamePlace(graph, world, a, b)
  {
    OnStretch(graph, world, a, b, a);
    OnStretch(graph, world, a, b, b);
    CountsOnStretch(graph, world, a, b, b);
  }

  lemma RecorderLeadsBack(graph: Blueprint, world: World, a: nat, b: nat) returns (closing: Choice)
    requires Runnable(graph) && SamePlace(graph, world, a, b) && Speaks(graph, world, a)
    requires FirstAt(graph, world, a + 1).Some?
    requires FirstAt(graph, world, b) == FirstAt(graph, world, a + 1)
      && BaseAt(graph, world, b) == BaseAt(graph, world, a + 1)
    ensures var next := Step(graph, world, After(graph, world, b), closing);
      Alike(graph, world.taskInput, next, After(graph, world, a + 1))
  {
    var c, d, choice := After(graph, world, a), After(graph, world, b), world.choices(a);
    assert After(graph, world, a + 1) == Step(graph, world, c, choice);
    closing := RecorderCloses(graph, world, c, d, choice);
    RecorderGoesOn(graph, world, c, d, choice, closing);
  }

  /** Back at a node that records, and the first node has not spoken in between: it can go on as before. */
  lemma RecorderStretchCloses(graph: Blueprint, world: World, a: nat, b: nat) returns (closing: Choice)
    requires Runnable(graph) && a < b && Stretch(graph, world, a, b)
    requires NodeAt(graph, world, a) == NodeAt(graph, world, b) && Speaks(graph, world, a)
      && FirstIsAway(graph, world, a, b)
    ensures CanClose(graph, world, a, b, closing)
  {
    StretchIsOn(graph, world, a, b);
    StretchReturns(graph, world, a, b);
    FirstStaysSilent(graph, world, a, b);
    closing := RecorderLeadsBack(graph, world, a, b);
  }

  lemma SubStretch(graph: Blueprint, world: World, i: nat, j: nat, a: nat, b: nat)
    requires Runnable(graph) && Stretch(graph, world, i, j) && i <= a <= b <= j
    ensures Stretch(graph, world, a, b)
  {
    StillGoing(graph, world, b, j);
  }

  /** From step `i` to step `j` the token goes twice around a loop without spending budget. */
  ghost predicate TwiceRound(graph: Blueprint, world: World, i: nat, m: nat, j: nat) {
    i < m && j - m == m - i && Stretch(graph, world, i, j) && NodeAt(graph, world, i) == NodeAt(graph, world, m)
  }

  /** Somewhere on the way twice around a loop the run can be closed. */
  lemma LoopCloses(graph: Blueprint, world: World, i: nat, m: nat, j: nat) returns (a: nat, b: nat, closing: Choice)
    requires Runnable(graph) && TwiceRound(graph, world, i, m, j)
    ensures CanClose(graph, world, a, b, closing) && b <= j
  {
    if Silent(graph, world, i, m) {
      a, b, closing := i, m, world.choices(i);
      SubStretch(graph, world, i, j, i, m);
      SilentStretchCloses(graph, world, i, m);
    } else {
      var k0 :| i <= k0 < m && Speaks(graph, world, k0);
      a, b, closing := SpokenLoopCloses(graph, world, i, m, j, k0);
    }
  }

  ghost function Places(graph: Blueprint, world: World): nat -> string {
    (k: nat) => NodeAt(graph, world, k)
  }

  ghost function NextPlace(graph: Blueprint): string -> Option<string> {
    (id: string) => Forward(graph, id)
  }

  lemma StretchFollows(graph: Blueprint, world: World, a: nat, b: nat)
    requires Runnable(graph) && Stretch(graph, world, a, b)
    ensures forall k: nat :: a <= k < b ==> FollowsAt(Places(graph, world), NextPlace(graph), k)
  {
    var place, next := Places(graph, world), NextPlace(graph);
    forall k: nat | a <= k < b ensures FollowsAt(place, next, k) {
      OnStretch(graph, world, a, b, k);
    }
  }

  lemma SpeakingSetsFirst(graph: Blueprint, world: World, k: nat)
    requires Speaks(graph, world, k)
    ensures FirstAt(graph, world, k + 1).Some?
  {
    RecordsOutput(graph, world, k);
  }

  lemma FindRound(graph: Blueprint, world: World, i: nat, m: nat, j: nat, k0: nat, first: string)
    returns (a: nat, b: nat)
    requires Runnable(graph) && TwiceRound(graph, world, i, m, j) && i <= k0 < m
    ensures i <= a < b <= j
    ensures Places(graph, world)(a) == Places(graph, world)(b) && (a == k0 || Places(graph, world)(a) == first)
    ensures forall k: nat :: a < k < b ==> Places(graph, world)(k) != first
  {
    StretchFollows(graph, world, i, j);
    a, b := RoundWithoutFirst(Places(graph, world), NextPlace(graph), i, m - i, k0, first);
  }

  lemma SpokenLoopCloses(graph: Blueprint, world: World, i: nat, m: nat, j: nat, k0: nat)
    returns (a: nat, b: nat, closing: Choice)
    requires Runnable(graph) && TwiceRound(graph, world, i, m, j) && i <= k0 < m && Speaks(graph, world, k0)
    ensures CanClose(graph, world, a, b, closing) && b <= j
  {
    SpeakingSetsFirst(graph, world, k0);
    var first := FirstAt(graph, world, k0 + 1).value;
    a, b := FindRound(graph, world, i, m, j, k0, first);
    RoundSpeaks(graph, world, i, j, a, k0, first);
    RoundIsAway(graph, world, a, b, first);
    SubStretch(graph, world, i, j, a, b);
    closing := RecorderStretchCloses(graph, world, a, b);
  }

  lemma RoundSpeaks(graph: Blueprint, world: World, i: nat, j: nat, a: nat, k0: nat, first: string)
    requires Runnable(graph) && Stretch(graph, world, i, j) && i <= a < j
    requires Speaks(graph, world, k0) && FirstAt(graph, world, k0 + 1) == Some(first)
    requires a == k0 || Places(graph, world)(a) == first
    ensures Speaks(graph, world, a) && FirstAt(graph, world, a + 1) == Some(first)
  {
    if a != k0 {
      FirstSpokeAt(graph, world, i, j, a, k0);
    }
  }

  lemma RoundIsAway(graph: Blueprint, world: World, a: nat, b: nat, first: string)
    requires FirstAt(graph, world, a + 1) == Some(first)
    requires forall k: nat :: a < k < b ==> Places(graph, world)(k) != first
    ensures FirstIsAway(graph, world, a, b)
  {
    forall k | a < k < b ensures Some(NodeAt(graph, world, k)) != Some(first) {
      assert Places(graph, world)(k) != first;
    }
  }

  /** Where the first node speaks, it is on record as the first right afterwards. */
  lemma FirstSpokeAt(graph: Blueprint, world: World, i: nat, j: nat, k: nat, k0: nat)
    requires Runnable(graph) && Stretch(graph, world, i, j) && i <= k < j && Speaks(graph, world, k0)
    requires FirstAt(graph, world, k0 + 1) == Some(NodeAt(graph, world, k))
    ensures Speaks(graph, world, k) && FirstAt(graph, world, k + 1) == Some(NodeAt(graph, world, k))
  {
    OnStretch(graph, world, i, j, k);
    FirstIsRecorder(graph, world, k0 + 1);
    FirstAgrees(graph, world, k, k0);
  }

  lemma FirstAgrees(graph: Blueprint, world: World, k: nat, k0: nat)
    requires Speaks(graph, world, k) && Speaks(graph, world, k0)
    ensures FirstAt(graph, world, k + 1) == FirstAt(graph, world, k0 + 1)
  {
    RecordsOutput(graph, world, k);
    RecordsOutput(graph, world, k0);
    if k <= k0 {
      FirstStays(graph, world, k + 1, k0 + 1);
    } else {
      FirstStays(graph, world, k0 + 1, k + 1);
    }
  }

  // ---------------------------------------------------------------- a very long run has such a stretch

  lemma LongRunRests(graph: Blueprint, world: World, last: nat, size: nat) returns (end: nat)
    requires Runnable(graph) && After(graph, world, last).pos.At?
    requires size > 0 && last == TotalBudget(graph) * size + size
    ensures size <= end <= last && forall k :: end - size <= k < end ==> !AsJourney(graph, world).spends(k)
  {
    var t := AsJourney(graph, world);
    forall n | 0 <= n <= last ensures t.place(n) in graph.nodes.Keys && t.left(n) >= 0 && SpendsAt(t, n) {
      RunIsJourney(graph, world, last, n);
    }
    BudgetAtStart(graph);
    end := LongJourneyRests(t, graph.nodes.Keys, last, size);
  }

  /** A run that outlasts twice the step bound takes, at some point, 2 * N steps without spending budget. */
  lemma LongRunHasStretch(graph: Blueprint, world: World, last: nat, size: nat) returns (a: nat, b: nat)
    requires Runnable(graph) && After(graph, world, last).pos.At?
    requires size > 0 && last == TotalBudget(graph) * size + size
    ensures b == a + size && b <= last && Stretch(graph, world, a, b)
  {
    b := LongRunRests(graph, world, last, size);
    a := b - size;
    forall k | a <= k < b ensures GoesHigh(graph, world, k) {
      StillGoing(graph, world, k, last);
      assert !AsJourney(graph, world).spends(k);
    }
    StillGoing(graph, world, b, last);
  }

  /** The stretch from step `a` on as a journey with no budget to spend. */
  ghost function FromStep(graph: Blueprint, world: World, a: nat): Journey {
    Journey((n: nat) => NodeAt(graph, world, a + n), (n: nat) => false, (n: nat) => 0)
  }

  lemma FromStepIsAt(graph: Blueprint, world: World, a: nat, n: nat, k: nat)
    requires k == a + n
    ensures FromStep(graph, world, a).place(n) == NodeAt(graph, world, k)
  {
  }

  lemma NodeOnStretch(graph: Blueprint, world: World, a: nat, b: nat, k: nat)
    requires Runnable(graph) && Stretch(graph, world, a, b) && a <= k <= b
    ensures NodeAt(graph, world, k) in graph.nodes.Keys
  {
    OnStretch(graph, world, a, b, k);
  }

  lemma StretchIsJourney(graph: Blueprint, world: World, a: nat, b: nat, n: nat)
    requires Runnable(graph) && Stretch(graph, world, a, b) && a + n <= b
    ensures FromStep(graph, world, a).place(n) in graph.nodes.Keys
  {
    NodeOnStretch(graph, world, a, b, a + n);
  }

  lemma StretchStays(graph: Blueprint, world: World, a: nat, b: nat, last: nat)
    requires Runnable(graph) && Stretch(graph, world, a, b) && a + last <= b
    ensures forall n: nat :: n <= last ==> FromStep(graph, world, a).place(n) in graph.nodes.Keys
  {
    forall n: nat | n <= last ensures FromStep(graph, world, a).place(n) in graph.nodes.Keys {
      StretchIsJourney(graph, world, a, b, n);
    }
  }

  /** Without budget to spend, N steps among N places come back. */
  lemma RestingJourneyComesBack(t: Journey, places: set<string>, last: nat) returns (i: nat, m: nat)
    requires forall n: nat :: t.left(n) == 0 && !t.spends(n)
    requires forall n: nat :: n <= last ==> t.place(n) in places
    requires last == |places|
    ensures i < m <= last && t.place(i) == t.place(m)
  {
    assert Bound(last, 0) == last;
    i, m := LongJourneyComesBack(t, places);
  }

  lemma StretchMeets(graph: Blueprint, world: World, a: nat, b: nat) returns (i: nat, m: nat)
    requires Runnable(graph) && Stretch(graph, world, a, b) && b == a + |graph.nodes|
    ensures a <= i < m <= b && NodeAt(graph, world, i) == NodeAt(graph, world, m)
  {
    StretchStays(graph, world, a, b, b - a);
    assert |graph.nodes.Keys| == |graph.nodes|;
    var n, l := RestingJourneyComesBack(FromStep(graph, world, a), graph.nodes.Keys, b - a);
    i, m := a + n, a + l;
    FromStepIsAt(graph, world, a, n, i);
    FromStepIsAt(graph, world, a, l, m);
  }

  /** A stretch of twice N steps goes twice around some loop. */
  lemma StretchGoesRound(graph: Blueprint, world: World, a: nat, half: nat, b: nat) returns (i: nat, m: nat, j: nat)
    requires Runnable(graph) && Stretch(graph, world, a, b) && half == a + |graph.nodes| && b == half + |graph.nodes|
    ensures TwiceRound(graph, world, i, m, j) && j <= b
  {
    SubStretch(graph, world, a, b, a, half);
    i, m := StretchMeets(graph, world, a, half);
    j := m + (m - i);
    SubStretch(graph, world, a, b, i, j);
  }

  lemma LongRunGoesRound(graph: Blueprint, world: World, last: nat) returns (i: nat, m: nat, j: nat)
    requires Runnable(graph) && last == 2 * StepBound(graph) && After(graph, world, last).pos.At?
    ensures TwiceRound(graph, world, i, m, j) && j <= last
  {
    var size := 2 * |graph.nodes|;
    assert last == TotalBudget(graph) * size + size by {
      assert |graph.nodes| * (1 + TotalBudget(graph)) == TotalBudget(graph) * |graph.nodes| + |graph.nodes|;
    }
    var a, b := LongRunHasStretch(graph, world, last, size);
    i, m, j := StretchGoesRound(graph, world, a, a + |graph.nodes|, b);
  }

  /**
   A run that outlasts twice the step bound can be turned into an endless one: the same answers before step
   `a + p` of it, one answer that closes a stretch, and then the answers of that stretch over and over.
   */
  lemma LongRunMeansEndless(graph: Blueprint, world: World, last: nat) returns (endless: World, a: nat, p: nat)
    requires Runnable(graph) && last == 2 * StepBound(graph) && After(graph, world, last).pos.At?
    ensures Repeats(endless, world, a, p) && a + p <= last
    ensures forall n :: After(graph, endless, n).pos.At?
  {
    var i, m, j := LongRunGoesRound(graph, world, last);
    var b, closing;
    a, b, closing := LoopCloses(graph, world, i, m, j);
    p := b - a;
    endless := ClosedRunIsEndless(graph, world, a, b, p, closing);
  }

  /** A run on the given task, read by the given extractors; the answers are free. */
  ghost predicate IsRunOn(world: World, read: string -> Reading, taskInput: string) {
    world.read == read && world.taskInput == taskInput
  }

  /**
   For every graph and task, and whatever the extractors find: all runs end, for all answers, if and only if
   all end within 2 * N * (1 + sum of budgets) steps; one run that is longer means that some run never ends.
   */
  lemma TwiceBoundIsExact(graph: Blueprint, read: string -> Reading, taskInput: string)
    requires Runnable(graph)
    ensures (forall world :: IsRunOn(world, read, taskInput) ==> Halts(graph, world))
       <==> (forall world :: IsRunOn(world, read, taskInput) ==>
         After(graph, world, 2 * StepBound(graph)).pos == Halted)
  {
    forall world | IsRunOn(world, read, taskInput) && After(graph, world, 2 * StepBound(graph)).pos != Halted
      ensures exists endless :: IsRunOn(endless, read, taskInput) && !Halts(graph, endless)
    {
      NeverStuck(graph, world, 2 * StepBound(graph));
      var endless, a, p := LongRunMeansEndless(graph, world, 2 * StepBound(graph));
      assert !Halts(graph, endless);
      assert IsRunOn(endless, read, taskInput);
    }
    forall world: World | After(graph, world, 2 * StepBound(graph)).pos == Halted ensures Halts(graph, world) {}
  }

  /** Where twice the bound is under the recursion limit, a run hits the limit only if some run never ends. */
  lemma TwiceLimitIsExact(graph: Blueprint, read: string -> Reading, taskInput: string)
    requires Runnable(graph) && 2 * StepBound(graph) <= RECURSION_LIMIT
    ensures (forall world :: IsRunOn(world, read, taskInput) ==> Invoke(graph, world).Finished?)
       <==> (forall world :: IsRunOn(world, read, taskInput) ==> Halts(graph, world))
  {
    TwiceBoundIsExact(graph, read, taskInput);
    forall world: World
      ensures After(graph, world, 2 * StepBound(graph)).pos == Halted ==> Invoke(graph, world).Finished?
      ensures Invoke(graph, world).Finished? ==> Halts(graph, world)
    {
      NeverStuck(graph, world, RECURSION_LIMIT);
      if After(graph, world, 2 * StepBound(graph)).pos == Halted {
        HaltedStaysHalted(graph, world, 2 * StepBound(graph), RECURSION_LIMIT);
      }
    }
  }
}
