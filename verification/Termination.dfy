/** When every run of a compiled graph halts, and within how many node steps. */
module Termination {
  import opened Prelude
  import opened GraphBuilder
  import opened Conditions
  import opened Execution

  // ---------------------------------------------------------------- sums over a set

  ghost function Sum(f: string -> int, s: set<string>): int {
    if s == {} then 0 else var x :| x in s; f(x) + Sum(f, s - {x})
  }

  lemma {:induction false} SumPick(f: string -> int, s: set<string>, x: string)
    requires x in s
    ensures Sum(f, s) == f(x) + Sum(f, s - {x})
  {
    var y :| y in s && Sum(f, s) == f(y) + Sum(f, s - {y});
    if y != x {
      SumPick(f, s - {y}, x);
      SumPick(f, s - {x}, y);
      assert s - {y} - {x} == s - {x} - {y};
    }
  }

  lemma {:induction false} SumAgree(f: string -> int, g: string -> int, s: set<string>)
    requires forall x :: x in s ==> f(x) == g(x)
    ensures Sum(f, s) == Sum(g, s)
  {
    if s != {} {
      var x :| x in s;
      SumPick(f, s, x);
      SumPick(g, s, x);
      SumAgree(f, g, s - {x});
    }
  }

  lemma {:induction false} SumNonNegative(f: string -> int, s: set<string>)
    requires forall x :: x in s ==> f(x) >= 0
    ensures Sum(f, s) >= 0
  {
    if s != {} {
      var x :| x in s;
      SumPick(f, s, x);
      SumNonNegative(f, s - {x});
    }
  }

  // ---------------------------------------------------------------- how far a node is from the end

  /** The nodes that forward steps reach from `id`. */
  ghost function Ahead(graph: Blueprint, id: string): set<string> {
    set b | b in graph.nodes && LeadsTo(graph, id, b)
  }

  lemma {:induction false} ForwardByCompose(graph: Blueprint, a: string, m: nat, n: nat)
    ensures ForwardBy(graph, a, m + n)
         == match ForwardBy(graph, a, m) case Some(b) => ForwardBy(graph, b, n) case None => None
  {
    if n > 0 {
      ForwardByCompose(graph, a, m, n - 1);
    } 
    if ForwardBy(graph, a, m).None? {
      NoneStaysNone(graph, a, m, m + n);
    }
  }

  lemma {:induction false} NoneStaysNone(graph: Blueprint, a: string, m: nat, n: nat)
    requires m <= n && ForwardBy(graph, a, m) == None
    ensures ForwardBy(graph, a, n) == None
    decreases n
  {
    if m < n {
      NoneStaysNone(graph, a, m, n - 1);
    }
  }

  lemma LeadsToViaForward(graph: Blueprint, a: string, b: string, c: string)
    requires Forward(graph, a) == Some(b)
    ensures LeadsTo(graph, a, b)
    ensures LeadsTo(graph, b, c) ==> LeadsTo(graph, a, c)
  {
    assert ForwardBy(graph, a, 0) == Some(a);
    assert ForwardBy(graph, a, 1) == Some(b);
    if LeadsTo(graph, b, c) {
      var n :| n > 0 && ForwardBy(graph, b, n) == Some(c);
      ForwardByCompose(graph, a, 1, n);
    }
  }

  /** A forward step leaves strictly fewer nodes ahead, unless it runs around a cycle. */
  lemma ForwardShrinksAhead(graph: Blueprint, a: string, b: string)
    requires Runnable(graph) && Forward(graph, a) == Some(b) && !LeadsTo(graph, b, b)
    ensures |Ahead(graph, b)| < |Ahead(graph, a)|
  {
    ForwardStaysInGraph(graph, a);
    forall c | c in Ahead(graph, b) ensures c in Ahead(graph, a) {
      LeadsToViaForward(graph, a, b, c);
    }
    LeadsToViaForward(graph, a, b, b);
    SubsetSize(Ahead(graph, b), Ahead(graph, a) - {b});
  }

  lemma AheadIsSmall(graph: Blueprint, id: string)
    requires id in graph.nodes && !LeadsTo(graph, id, id)
    ensures |Ahead(graph, id)| + 1 <= |graph.nodes|
  {
    SubsetSize(Ahead(graph, id), graph.nodes.Keys - {id});
  }

  // ---------------------------------------------------------------- the bound

  /** The sum of the loop budgets of all conditions. */
  ghost function TotalBudget(graph: Blueprint): nat {
    SumNonNegative(Budgets(graph), graph.nodes.Keys);
    Sum(Budgets(graph), graph.nodes.Keys)
  }

  ghost function Budgets(graph: Blueprint): string -> int {
    id => Budget(graph, id)
  }

  ghost function BudgetLeft(graph: Blueprint, c: Config): int {
    Sum(id => Budget(graph, id) - LoopCount(c.loopCounts, id), graph.nodes.Keys)
  }

  /** An upper bound on the node steps still to come. */
  ghost function StepsLeft(graph: Blueprint, c: Config): int {
    if c.pos.At? then BudgetLeft(graph, c) * |graph.nodes| + |Ahead(graph, c.pos.node)| + 1 else 0
  }

  lemma BudgetLeftAfterStep(graph: Blueprint, world: World, c: Config, choice: Choice)
    requires Runnable(graph) && Sane(graph, c) && c.pos.At?
    ensures BudgetLeft(graph, c) >= 0
    ensures BudgetLeft(graph, Step(graph, world, c, choice))
         == BudgetLeft(graph, c) - if GoesLow(graph, world, c) then 1 else 0
    ensures GoesLow(graph, world, c) ==> BudgetLeft(graph, c) >= 1
  {
    var id, all, next := c.pos.node, graph.nodes.Keys, Step(graph, world, c, choice);
    var before := (x: string) => Budget(graph, x) - LoopCount(c.loopCounts, x);
    var after := (x: string) => Budget(graph, x) - LoopCount(next.loopCounts, x);
    StepMeaning(graph, world, c, choice);
    SumPick(before, all, id);
    SumPick(after, all, id);
    SumAgree(before, after, all - {id});
    SumNonNegative(before, all);
    SumNonNegative(before, all - {id});
    assert BudgetLeft(graph, c) == Sum(before, all);
    assert BudgetLeft(graph, next) == Sum(after, all);
  }

  lemma OneTimesLess(a: int, b: int)
    requires a >= 1 && b >= 0
    ensures (a - 1) * b == a * b - b && (a - 1) * b >= 0
  {
  }

  lemma BudgetTimesSize(graph: Blueprint, c: Config)
    requires BudgetLeft(graph, c) >= 0
    ensures BudgetLeft(graph, c) * |graph.nodes| >= 0
  {
  }

  /** Every step, low or forward, leaves fewer steps to come. */
  lemma StepsLeftDecrease(graph: Blueprint, world: World, c: Config, choice: Choice)
    requires Runnable(graph) && ForwardAcyclic(graph) && Sane(graph, c) && c.pos.At?
    ensures 0 <= StepsLeft(graph, Step(graph, world, c, choice)) < StepsLeft(graph, c)
  {
    var id, next := c.pos.node, Step(graph, world, c, choice);
    StepMeaning(graph, world, c, choice);
    StepKeepsSane(graph, world, c, choice);
    BudgetLeftAfterStep(graph, world, c, choice);
    BudgetTimesSize(graph, c);
    if next.pos.At? {
      AheadIsSmall(graph, next.pos.node);
      if GoesLow(graph, world, c) {
        OneTimesLess(BudgetLeft(graph, c), |graph.nodes|);
      } else {
        ForwardShrinksAhead(graph, id, next.pos.node);
      }
    }
  }

  ghost function StepsLeftAt(graph: Blueprint, world: World, n: nat): int {
    StepsLeft(graph, After(graph, world, n))
  }

  lemma {:induction false} StepsLeftShrink(graph: Blueprint, world: World, n: nat)
    requires Runnable(graph) && ForwardAcyclic(graph)
    ensures After(graph, world, n).pos.At? ==> StepsLeftAt(graph, world, n) + n <= StepsLeft(graph, Start(graph))
  {
    if n > 0 {
      StepsLeftShrink(graph, world, n - 1);
      NextStepLeft(graph, world, n - 1);
    }
  }

  lemma NextStepLeft(graph: Blueprint, world: World, n: nat)
    requires Runnable(graph) && ForwardAcyclic(graph)
    ensures After(graph, world, n + 1).pos.At? ==> After(graph, world, n).pos.At?
    ensures After(graph, world, n).pos.At? ==> StepsLeftAt(graph, world, n + 1) < StepsLeftAt(graph, world, n)
  {
    var c := After(graph, world, n);
    NeverStuck(graph, world, n);
    assert After(graph, world, n + 1) == Step(graph, world, c, world.choices(n));
    if c.pos.At? {
      StepsLeftDecrease(graph, world, c, world.choices(n));
    }
  }

  function Bound(nodeCount: nat, totalBudget: nat): nat {
    nodeCount * (1 + totalBudget)
  }

  /** The largest number of node steps a run can take. */
  ghost function StepBound(graph: Blueprint): nat {
    Bound(|graph.nodes|, TotalBudget(graph))
  }

  lemma BudgetAtStart(graph: Blueprint)
    ensures BudgetLeft(graph, Start(graph)) == TotalBudget(graph)
  {
    var start := Start(graph);
    SumAgree(Budgets(graph), id => Budget(graph, id) - LoopCount(start.loopCounts, id), graph.nodes.Keys);
  }

  lemma BoundAtStart(graph: Blueprint)
    requires Runnable(graph) && ForwardAcyclic(graph) && Sane(graph, Start(graph))
    ensures StepsLeft(graph, Start(graph)) <= StepBound(graph)
  {
    var start := Start(graph);
    BudgetAtStart(graph);
    AheadIsSmall(graph, start.pos.node);
    assert |graph.nodes| * (1 + TotalBudget(graph)) == TotalBudget(graph) * |graph.nodes| + |graph.nodes|;
  }

  lemma StepsLeftPositive(graph: Blueprint, world: World, c: Config)
    requires Runnable(graph) && Sane(graph, c) && c.pos.At?
    ensures StepsLeft(graph, c) > 0
  {
    BudgetLeftAfterStep(graph, world, c, Choice("", false));
    assert BudgetLeft(graph, c) * |graph.nodes| >= 0;
  }

  /** Whatever the agents answer, a forward-acyclic graph halts within its step bound. */
  lemma HaltsWithinBound(graph: Blueprint, world: World)
    requires Runnable(graph) && ForwardAcyclic(graph)
    ensures After(graph, world, StepBound(graph)).pos == Halted
  {
    NeverStuck(graph, world, StepBound(graph));
    NeverStuck(graph, world, 0);
    if After(graph, world, StepBound(graph)).pos.At? {
      BoundAtStart(graph);
      StepsLeftShrink(graph, world, StepBound(graph));
      StepsLeftPositive(graph, world, After(graph, world, StepBound(graph)));
    }
  }

  lemma {:induction false} HaltedStaysHalted(graph: Blueprint, world: World, m: nat, n: nat)
    requires m <= n && !After(graph, world, m).pos.At?
    ensures After(graph, world, n).pos == After(graph, world, m).pos
    decreases n
  {
    if m < n {
      HaltedStaysHalted(graph, world, m, n - 1);
    }
  }

  ghost predicate Halts(graph: Blueprint, world: World) {
    exists n :: After(graph, world, n).pos == Halted
  }

  // ---------------------------------------------------------------- the recursion limit

  const RECURSION_LIMIT := 100

  datatype Outcome = Finished(state: Config) | RecursionError

  /** `app.invoke(initial, config={"recursion_limit": 100})` */
  ghost function Invoke(graph: Blueprint, world: World): Outcome {
    var last := After(graph, world, RECURSION_LIMIT);
    if last.pos.At? then RecursionError else Finished(last)
  }

  /** A graph whose bound fits under the limit finishes, whatever the agents answer. */
  lemma SmallGraphsFinish(graph: Blueprint, world: World)
    requires Runnable(graph) && ForwardAcyclic(graph) && StepBound(graph) <= RECURSION_LIMIT
    ensures Invoke(graph, world).Finished? && Invoke(graph, world).state.pos == Halted
  {
    HaltsWithinBound(graph, world);
    HaltedStaysHalted(graph, world, StepBound(graph), RECURSION_LIMIT);
  }
}
