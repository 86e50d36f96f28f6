/**
 Running a compiled graph (nodes.py and `build_and_run_graph`): one token moves from node to node,
 and whoever answers for the agents chooses every text. What the extractors find in a text is a function of it.
 */
module Execution {
  import opened Prelude
  import opened Text
  import opened GraphBuilder
  import opened Conditions

  /** What the outside world decides at one step: an agent's text, and whether Telegram takes a message. */
  datatype Choice = Choice(output: string, delivered: bool)

  /** The extractors, the task, and a run of arbitrary length against arbitrary choices. */
  datatype World = World(read: string -> Reading, taskInput: string, choices: nat -> Choice)

  datatype Position = At(node: string) | Halted | Stuck

  /** `firstNode` is the node whose output comes first in `node_outputs`, a dictionary in insertion order. */
  datatype Config = Config(
    pos: Position,
    nodeOutputs: map<string, string>,
    firstNode: Option<string>,
    lastNode: Option<string>,
    loopCounts: map<string, int>,
    pendingRoute: Option<string>)

  // ---------------------------------------------------------------- the machine

  /** `node_outputs[node_id] = output`, and `last_agent_node` */
  function Record(c: Config, id: string, output: string): Config {
    c.(nodeOutputs := c.nodeOutputs[id := output], lastNode := Some(id),
       firstNode := if c.firstNode.Some? then c.firstNode else Some(id))
  }

  function OutputOf(c: Config, id: Option<string>, default: string): string {
    if id.Some? && id.value in c.nodeOutputs then c.nodeOutputs[id.value] else default
  }

  /** `outputs.get(last_agent_node, "")`: the text a condition judges. */
  function Judged(c: Config): string {
    OutputOf(c, c.lastNode, "")
  }

  const TELEGRAM := "telegram"

  /** What a channel records: the first output on record, clipped, and marked if it was not delivered. */
  function Payload(channel: string, summary: string, delivered: bool): string {
    if channel != TELEGRAM || delivered then Clip(summary, 4000) else "[" + channel + "] " + Clip(summary, 1500)
  }

  /** The node functions: agents and channels record an output, conditions a count and a route. */
  function RunNode(world: World, id: string, fn: NodeFn, c: Config, choice: Choice): Config {
    match fn
    case AgentFn(_) => Record(c, id, choice.output)
    case ChannelFn(channel) =>
      Record(c, id, Payload(channel, OutputOf(c, c.firstNode, world.taskInput), choice.delivered))
    case ConditionFn(field, threshold, low, ok, maxLoops) =>
      var (branch, counts) :=
        EvaluateConditionBranch(c.loopCounts, world.read(Judged(c)), id, field, threshold, low, ok, maxLoops);
      c.(loopCounts := counts, pendingRoute := Some(branch))
    case EndFn => c
  }

  ghost function PlainTargets(graph: Blueprint, id: string): set<string> {
    set e | e in graph.edges && e.0 == id && e.1.To? :: e.1.id
  }

  /** Where the token goes after `id`, given the state its function left behind. */
  ghost function RouteAfter(graph: Blueprint, id: string, c: Config): Position {
    if id in graph.routes then
      var route := if c.pendingRoute.GetOr("") != "" then c.pendingRoute.value else graph.routes[id].fallback;
      if route in graph.routes[id].mapping then At(route) else Stuck
    else if PlainTargets(graph, id) == {} then Halted
    else var target :| target in PlainTargets(graph, id); At(target)
  }

  ghost function Step(graph: Blueprint, world: World, c: Config, choice: Choice): Config {
    if !c.pos.At? then c
    else if c.pos.node !in graph.nodes then c.(pos := Stuck)
    else
      var after := RunNode(world, c.pos.node, graph.nodes[c.pos.node], c, choice);
      after.(pos := RouteAfter(graph, c.pos.node, after))
  }

  ghost function Start(graph: Blueprint): Config {
    Config(if graph.entry.Some? then At(graph.entry.value) else Stuck, map[], None, None, map[], None)
  }

  /** The configuration after `n` node steps. */
  ghost function After(graph: Blueprint, world: World, n: nat): Config {
    if n == 0 then Start(graph) else Step(graph, world, After(graph, world, n - 1), world.choices(n - 1))
  }

  // ---------------------------------------------------------------- the graphs that are run

  /** What the library checks before it runs a graph. */
  ghost predicate Accepted(graph: Blueprint) {
    && graph.entry.Some? && graph.entry.value in graph.nodes
    && (forall e :: e in graph.edges ==> e.0 in graph.nodes && (e.1.To? ==> e.1.id in graph.nodes))
    && (forall id :: id in graph.routes ==> id in graph.nodes && graph.routes[id].mapping <= graph.nodes.Keys)
  }

  /** Both branches of a condition are wired (GraphBuilder.BranchResolutionsAgree). */
  ghost predicate ConditionsWired(graph: Blueprint) {
    && (forall id :: id in graph.nodes && graph.nodes[id].ConditionFn? ==>
          && id in graph.routes
          && graph.nodes[id].ok in graph.routes[id].mapping
          && graph.nodes[id].low in graph.routes[id].mapping
          && graph.nodes[id].ok != "" && graph.nodes[id].low != "")
    && (forall id :: id in graph.routes ==> id in graph.nodes && graph.nodes[id].ConditionFn?)
  }

  /** No fan-out: a node has at most one plain successor. */
  ghost predicate SingleToken(graph: Blueprint) {
    forall a, b :: a in graph.edges && b in graph.edges && a.0 == b.0 && a.1.To? && b.1.To? ==> a.1 == b.1
  }

  /** Nothing follows an end node. */
  ghost predicate EndsAreFinal(graph: Blueprint) {
    forall id :: id in graph.nodes && graph.nodes[id].EndFn? ==> PlainTargets(graph, id) == {}
  }

  ghost predicate Runnable(graph: Blueprint) {
    Accepted(graph) && ConditionsWired(graph) && SingleToken(graph) && EndsAreFinal(graph)
  }

  // ---------------------------------------------------------------- forward steps and loops back

  /** The successor when no loop budget is spent: the plain edge, or the ok branch. */
  ghost function Forward(graph: Blueprint, id: string): Option<string> {
    if id !in graph.nodes then None
    else if graph.nodes[id].ConditionFn? then Some(graph.nodes[id].ok)
    else if PlainTargets(graph, id) == {} then None
    else var target :| target in PlainTargets(graph, id); Some(target)
  }

  ghost function ForwardBy(graph: Blueprint, id: string, n: nat): Option<string> {
    if n == 0 then Some(id)
    else match ForwardBy(graph, id, n - 1)
         case Some(p) => Forward(graph, p)
         case None => None
  }

  ghost predicate LeadsTo(graph: Blueprint, a: string, b: string) {
    exists n :: n > 0 && ForwardBy(graph, a, n) == Some(b)
  }

  /** A step that some run can take: forward, or back along a low branch that has a budget. */
  ghost predicate LiveStep(graph: Blueprint, a: string, b: string) {
    || Forward(graph, a) == Some(b)
    || (a in graph.nodes && graph.nodes[a].ConditionFn? && graph.nodes[a].maxLoops > 0 && graph.nodes[a].low == b)
  }

  ghost predicate LiveWalk(graph: Blueprint, walk: seq<string>) {
    && walk != [] && graph.entry == Some(walk[0])
    && forall i :: 0 <= i < |walk| - 1 ==> LiveStep(graph, walk[i], walk[i + 1])
  }

  ghost predicate Live(graph: Blueprint, id: string) {
    exists walk :: LiveWalk(graph, walk) && walk[|walk| - 1] == id
  }

  /** No node that a run can reach lies on a cycle of plain edges and ok branches. */
  ghost predicate ForwardAcyclic(graph: Blueprint) {
    forall id :: Live(graph, id) ==> !LeadsTo(graph, id, id)
  }

  // ---------------------------------------------------------------- one step

  /** The low branch is taken here. */
  ghost predicate GoesLow(graph: Blueprint, world: World, c: Config) {
    && c.pos.At? && c.pos.node in graph.nodes
    && var fn := graph.nodes[c.pos.node];
       fn.ConditionFn? && !Passes(world.read(Judged(c)), fn.field, fn.threshold)
       && LoopCount(c.loopCounts, c.pos.node) < fn.maxLoops
  }

  /** A step goes to the forward successor, or low; it never gets stuck. */
  lemma StepMeaning(graph: Blueprint, world: World, c: Config, choice: Choice)
    requires Runnable(graph) && c.pos.At? && c.pos.node in graph.nodes
    ensures var next := Step(graph, world, c, choice);
            if GoesLow(graph, world, c) then next.pos == At(graph.nodes[c.pos.node].low)
            else next.pos == match Forward(graph, c.pos.node) case Some(b) => At(b) case None => Halted
    ensures forall id :: LoopCount(Step(graph, world, c, choice).loopCounts, id)
                      == LoopCount(c.loopCounts, id) + if GoesLow(graph, world, c) && id == c.pos.node then 1 else 0
  {
    var fn := graph.nodes[c.pos.node];
    if fn.ConditionFn? {
      BranchMeaning(c.loopCounts, world.read(Judged(c)), c.pos.node, fn.field, fn.threshold, fn.low, fn.ok,
        fn.maxLoops);
    }
  }

  lemma ForwardStaysInGraph(graph: Blueprint, id: string)
    requires Runnable(graph) && Forward(graph, id).Some?
    ensures Forward(graph, id).value in graph.nodes
  {
    if graph.nodes[id].ConditionFn? {
      assert graph.nodes[id].ok in graph.routes[id].mapping;
    }
  }

  lemma LowStaysInGraph(graph: Blueprint, id: string)
    requires Runnable(graph) && id in graph.nodes && graph.nodes[id].ConditionFn?
    ensures graph.nodes[id].low in graph.nodes
  {
    assert graph.nodes[id].low in graph.routes[id].mapping;
  }

  // ---------------------------------------------------------------- loop counts over a whole run

  function Budget(graph: Blueprint, id: string): nat {
    if id in graph.nodes && graph.nodes[id].ConditionFn? then Max(0, graph.nodes[id].maxLoops) else 0
  }

  /** How often, in the first `n` steps, condition `id` sent the token along its low branch. */
  ghost function LowRoutings(graph: Blueprint, world: World, id: string, n: nat): nat {
    if n == 0 then 0
    else LowRoutings(graph, world, id, n - 1)
         + if GoesLow(graph, world, After(graph, world, n - 1)) && After(graph, world, n - 1).pos == At(id)
           then 1 else 0
  }

  /** In every reachable configuration: the token is on a node a run can reach, and no budget is exceeded. */
  ghost predicate Sane(graph: Blueprint, c: Config) {
    && !c.pos.Stuck?
    && (c.pos.At? ==> c.pos.node in graph.nodes && Live(graph, c.pos.node))
    && (forall id :: 0 <= LoopCount(c.loopCounts, id) <= Budget(graph, id))
  }

  lemma LiveExtends(graph: Blueprint, a: string, b: string)
    requires Live(graph, a) && LiveStep(graph, a, b)
    ensures Live(graph, b)
  {
    var walk :| LiveWalk(graph, walk) && walk[|walk| - 1] == a;
    assert LiveWalk(graph, walk + [b]) && (walk + [b])[|walk + [b]| - 1] == b;
  }

  lemma StepKeepsSane(graph: Blueprint, world: World, c: Config, choice: Choice)
    requires Runnable(graph) && Sane(graph, c)
    ensures Sane(graph, Step(graph, world, c, choice))
  {
    if c.pos.At? {
      var id := c.pos.node;
      StepMeaning(graph, world, c, choice);
      if GoesLow(graph, world, c) {
        LowStaysInGraph(graph, id);
        LiveExtends(graph, id, graph.nodes[id].low);
      } else if Forward(graph, id).Some? {
        ForwardStaysInGraph(graph, id);
        LiveExtends(graph, id, Forward(graph, id).value);
      }
    }
  }

  /** No reachable configuration is stuck: every stored route is one that was wired. */
  lemma {:induction false} NeverStuck(graph: Blueprint, world: World, n: nat)
    requires Runnable(graph)
    ensures Sane(graph, After(graph, world, n))
  {
    if n == 0 {
      assert LiveWalk(graph, [graph.entry.value]);
      assert Live(graph, graph.entry.value);
    } else {
      NeverStuck(graph, world, n - 1);
      StepKeepsSane(graph, world, After(graph, world, n - 1), world.choices(n - 1));
    }
  }

  /** `loop_counts["c:low"]` is the number of low routings by `c`, and stays within the budget of `c`. */
  lemma {:induction false} LoopCountsAreExact(graph: Blueprint, world: World, id: string, n: nat)
    requires Runnable(graph)
    ensures LoopCount(After(graph, world, n).loopCounts, id) == LowRoutings(graph, world, id, n) <= Budget(graph, id)
  {
    NeverStuck(graph, world, n);
    if n > 0 {
      LoopCountsAreExact(graph, world, id, n - 1);
      NeverStuck(graph, world, n - 1);
      if After(graph, world, n - 1).pos.At? {
        StepMeaning(graph, world, After(graph, world, n - 1), world.choices(n - 1));
      }
    }
  }

  lemma {:induction false} LowRoutingsMonotone(graph: Blueprint, world: World, id: string, m: nat, n: nat)
    requires m <= n
    ensures LowRoutings(graph, world, id, m) <= LowRoutings(graph, world, id, n)
    decreases n
  {
    if m < n {
      LowRoutingsMonotone(graph, world, id, m, n - 1);
    }
  }

  /** Counters never go down, and once a budget is spent every later visit goes to the ok branch. */
  lemma SpentBudgetGoesOk(graph: Blueprint, world: World, id: string, m: nat, n: nat)
    requires Runnable(graph) && m <= n
    ensures LoopCount(After(graph, world, m).loopCounts, id) <= LoopCount(After(graph, world, n).loopCounts, id)
    ensures id in graph.nodes && graph.nodes[id].ConditionFn? && After(graph, world, n).pos == At(id)
         && LoopCount(After(graph, world, m).loopCounts, id) == Budget(graph, id)
        ==> After(graph, world, n + 1).pos == At(graph.nodes[id].ok)
  {
    LoopCountsAreExact(graph, world, id, m);
    LoopCountsAreExact(graph, world, id, n);
    LowRoutingsMonotone(graph, world, id, m, n);
    if id in graph.nodes && After(graph, world, n).pos == At(id) {
      StepMeaning(graph, world, After(graph, world, n), world.choices(n));
      assert After(graph, world, n + 1) == Step(graph, world, After(graph, world, n), world.choices(n));
    }
  }

  // ---------------------------------------------------------------- what the conditions judge

  /** The node that records an output here. */
  ghost function Recorder(graph: Blueprint, c: Config): Option<string> {
    if c.pos.At? && c.pos.node in graph.nodes
       && (graph.nodes[c.pos.node].AgentFn? || graph.nodes[c.pos.node].ChannelFn?)
    then Some(c.pos.node) else None
  }

  /** The last of the first `n` steps in which a node (`id`, or any) recorded an output. */
  ghost function LastRecord(graph: Blueprint, world: World, id: Option<string>, n: nat): (k: Option<nat>)
    ensures k.Some? ==> k.value < n && Recorder(graph, After(graph, world, k.value)).Some?
  {
    if n == 0 then None
    else
      var recorder := Recorder(graph, After(graph, world, n - 1));
      if recorder.Some? && (id == None || id == recorder) then Some(n - 1) else LastRecord(graph, world, id, n - 1)
  }

  /** The text recorded in step `k`: an agent's own, or a channel's payload. */
  ghost function Recorded(graph: Blueprint, world: World, k: nat): string
    requires Recorder(graph, After(graph, world, k)).Some?
  {
    var c := After(graph, world, k);
    match graph.nodes[c.pos.node]
    case ChannelFn(channel) => Payload(channel, OutputOf(c, c.firstNode, world.taskInput), world.choices(k).delivered)
    case _ => world.choices(k).output
  }

  predicate SameRecords(c: Config, d: Config) {
    d.nodeOutputs == c.nodeOutputs && d.lastNode == c.lastNode && d.firstNode == c.firstNode
  }

  lemma RecordsOutput(graph: Blueprint, world: World, n: nat)
    ensures var c, next := After(graph, world, n), After(graph, world, n + 1);
            match Recorder(graph, c)
            case Some(id) =>
              && next.nodeOutputs == c.nodeOutputs[id := Recorded(graph, world, n)]
              && next.lastNode == Some(id)
              && next.firstNode == (if c.firstNode.Some? then c.firstNode else Some(id))
            case None => SameRecords(c, next)
  {
    assert After(graph, world, n + 1) == Step(graph, world, After(graph, world, n), world.choices(n));
  }

  /** Every agent and channel has its latest output on record, and no other node has any. */
  lemma {:induction false} OutputsAreLatest(graph: Blueprint, world: World, id: string, n: nat)
    ensures var outputs := After(graph, world, n).nodeOutputs;
            match LastRecord(graph, world, Some(id), n)
            case Some(k) => id in outputs && outputs[id] == Recorded(graph, world, k)
            case None => id !in outputs
  {
    if n == 0 {
      assert After(graph, world, n) == Start(graph);
    } else {
      OutputsAreLatest(graph, world, id, n - 1);
      NextOutputIsLatest(graph, world, id, n - 1);
    }
  }

  /** The output of `id` after one more step: the text recorded there, if `id` records one, else the same as before. */
  lemma NextOutputIsLatest(graph: Blueprint, world: World, id: string, n: nat)
    ensures var before, after := After(graph, world, n).nodeOutputs, After(graph, world, n + 1).nodeOutputs;
      if Recorder(graph, After(graph, world, n)) == Some(id) then
        && LastRecord(graph, world, Some(id), n + 1) == Some(n)
        && id in after && after[id] == Recorded(graph, world, n)
      else
        && LastRecord(graph, world, Some(id), n + 1) == LastRecord(graph, world, Some(id), n)
        && (id in after <==> id in before) && (id in after ==> after[id] == before[id])
  {
    RecordsOutput(graph, world, n);
    LastRecordNext(graph, world, Some(id), n);
  }

  lemma LastRecordNext(graph: Blueprint, world: World, id: Option<string>, n: nat)
    ensures var recorder := Recorder(graph, After(graph, world, n));
      LastRecord(graph, world, id, n + 1)
      == if recorder.Some? && (id == None || id == recorder) then Some(n) else LastRecord(graph, world, id, n)
  {
  }

  /** The first of the first `n` steps in which a node recorded an output. */
  ghost function FirstRecord(graph: Blueprint, world: World, n: nat): (k: Option<nat>)
    ensures k.Some? ==> k.value < n && Recorder(graph, After(graph, world, k.value)).Some?
  {
    if n == 0 then None
    else if FirstRecord(graph, world, n - 1).Some? then FirstRecord(graph, world, n - 1)
    else if Recorder(graph, After(graph, world, n - 1)).Some? then Some(n - 1) else None
  }

  lemma {:induction false} FirstNodeIsFirst(graph: Blueprint, world: World, n: nat)
    ensures After(graph, world, n).firstNode == match FirstRecord(graph, world, n)
            case Some(k) => Recorder(graph, After(graph, world, k))
            case None => None
  {
    if n > 0 {
      FirstNodeIsFirst(graph, world, n - 1);
      RecordsOutput(graph, world, n - 1);
    }
  }

  /** What a channel has to pass on: the latest output of the node that spoke first, or the task if none has. */
  ghost function Summary(graph: Blueprint, world: World, n: nat): string {
    match FirstRecord(graph, world, n)
    case None => world.taskInput
    case Some(first) =>
      match LastRecord(graph, world, Recorder(graph, After(graph, world, first)), n)
      case Some(k) => Recorded(graph, world, k)
      case None => ""
  }

  /** A channel records that text, clipped; if Telegram does not take it, less of it, behind the channel's name. */
  lemma ChannelsPassOnFirst(graph: Blueprint, world: World, n: nat, channel: string)
    requires Recorder(graph, After(graph, world, n)).Some?
    requires graph.nodes[After(graph, world, n).pos.node] == ChannelFn(channel)
    ensures var text := Summary(graph, world, n);
      Recorded(graph, world, n) ==
        if channel == "telegram" && !world.choices(n).delivered
        then "[" + channel + "] " + (if |text| <= 1500 then text else text[..1500])
        else if |text| <= 4000 then text else text[..4000]
  {
    FirstNodeIsFirst(graph, world, n);
    if After(graph, world, n).firstNode.Some? {
      OutputsAreLatest(graph, world, After(graph, world, n).firstNode.value, n);
      FirstHasSpoken(graph, world, n);
    }
  }

  lemma {:induction false} FirstHasSpoken(graph: Blueprint, world: World, n: nat)
    requires FirstRecord(graph, world, n).Some?
    ensures LastRecord(graph, world, Recorder(graph, After(graph, world, FirstRecord(graph, world, n).value)), n).Some?
  {
    if FirstRecord(graph, world, n - 1).Some? {
      FirstHasSpoken(graph, world, n - 1);
    }
  }

  /** The latest output of all, or nothing before the first. */
  ghost function LatestText(graph: Blueprint, world: World, n: nat): string {
    match LastRecord(graph, world, None, n)
    case Some(k) => Recorded(graph, world, k)
    case None => ""
  }

  lemma {:induction false} JudgedIsLatest(graph: Blueprint, world: World, n: nat)
    ensures Judged(After(graph, world, n)) == LatestText(graph, world, n)
    ensures var c := After(graph, world, n); c.lastNode.Some? ==> c.lastNode.value in c.nodeOutputs
  {
    if n > 0 {
      JudgedIsLatest(graph, world, n - 1);
      RecordsOutput(graph, world, n - 1);
    }
  }

  /** A condition goes low exactly when the latest output of all fails its test and budget is left. */
  lemma ConditionsJudgeLatest(graph: Blueprint, world: World, n: nat)
    requires Runnable(graph) && After(graph, world, n).pos.At? && After(graph, world, n).pos.node in graph.nodes
    requires graph.nodes[After(graph, world, n).pos.node].ConditionFn?
    ensures var c := After(graph, world, n);
            var fn := graph.nodes[c.pos.node];
            var goesLow := !Passes(world.read(LatestText(graph, world, n)), fn.field, fn.threshold)
              && LoopCount(c.loopCounts, c.pos.node) < fn.maxLoops;
            After(graph, world, n + 1).pos == At(if goesLow then fn.low else fn.ok)
  {
    JudgedIsLatest(graph, world, n);
    StepMeaning(graph, world, After(graph, world, n), world.choices(n));
    assert After(graph, world, n + 1) == Step(graph, world, After(graph, world, n), world.choices(n));
  }
}
