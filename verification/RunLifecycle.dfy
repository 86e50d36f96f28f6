/**
 One worker in `execute_run` and any number of API calls in `cancel_run`, interleaved in every way
 (run_service.py, cancellation.py, nodes.py). Each step is one read or one committed write of the row.
 */
module RunLifecycle {
  import opened Prelude
  import opened RunRecord

  /** Where the worker is. */
  datatype Pc =
    | Idle
    | Loaded              // about to read the flag for the first time
    | EarlyCancel         // flag was set: about to mark the run cancelled
    | LookUp              // about to load the workflow
    | Missing             // workflow not found: about to mark the run failed
    | Ready               // about to mark the run running, unless it is
    | Between             // inside the graph, no node running
    | AtCheck             // an agent, channel or condition node is about to read the flag
    | InBody              // such a node has passed its check
    | Finishing           // the graph is through: about to mark the run completed
    | Stopping            // a check has raised: about to mark the run cancelled
    | Failing             // anything else has raised: about to mark the run failed

  /** `callers` are the cancel calls that have seen an active run without the flag and not yet written. */
  datatype System = System(row: Row, pc: Pc, callers: set<nat>)

  const START := System(NEW_ROW, Idle, {})

  datatype Step =
    | Load
    | ReadFlag
    | CancelEarly(now: nat)
    | FindWorkflow(found: bool)
    | FailMissing(now: nat, error: string)
    | Begin(now: nat)
    | EnterNode
    | RunEndNode
    | Check
    | FinishBody
    | LeaveGraph
    | Raise
    | Complete(now: nat)
    | Stop(now: nat)
    | Fail(now: nat, error: string)
    | Crash
    | ApiRead(caller: nat)
    | ApiWrite(caller: nat)

  predicate Enabled(s: System, step: Step) {
    match step
    case Load => s.pc == Idle
    case ReadFlag => s.pc == Loaded
    case CancelEarly(_) => s.pc == EarlyCancel
    case FindWorkflow(_) => s.pc == LookUp
    case FailMissing(_, _) => s.pc == Missing
    case Begin(_) => s.pc == Ready
    case EnterNode => s.pc == Between
    case RunEndNode => s.pc == Between
    case Check => s.pc == AtCheck
    case FinishBody => s.pc == InBody
    case LeaveGraph => s.pc == Between
    case Raise => s.pc == Between || s.pc == InBody
    case Complete(_) => s.pc == Finishing
    case Stop(_) => s.pc == Stopping
    case Fail(_, _) => s.pc == Failing
    case Crash => true
    case ApiRead(_) => true
    case ApiWrite(caller) => caller in s.callers
  }

  function Apply(s: System, step: Step): System {
    match step
    case Load => if Terminal(s.row.status) then s else s.(pc := Loaded)
    case ReadFlag => s.(pc := if s.row.cancelRequested then EarlyCancel else LookUp)
    case CancelEarly(now) => s.(row := Stopped(s.row, now, "Stopped by user"), pc := Idle)
    case FindWorkflow(found) => s.(pc := if found then Ready else Missing)
    case FailMissing(now, error) => s.(row := Broken(s.row, now, error), pc := Idle)
    case Begin(now) => s.(row := if s.row.status == Pending then Started(s.row, now) else s.row, pc := Between)
    case EnterNode => s.(pc := AtCheck)
    case RunEndNode => s
    case Check => s.(pc := if s.row.cancelRequested then Stopping else InBody)
    case FinishBody => s.(pc := Between)
    case LeaveGraph => s.(pc := Finishing)
    case Raise => s.(pc := Failing)
    case Complete(now) => s.(row := Done(s.row, now), pc := Idle)
    case Stop(now) => s.(row := Stopped(s.row, now, "Workflow run stopped by user"), pc := Idle)
    case Fail(now, error) => s.(row := Broken(s.row, now, error), pc := Idle)
    case Crash => s.(pc := Idle)
    case ApiRead(caller) =>
      if !Terminal(s.row.status) && !s.row.cancelRequested then s.(callers := s.callers + {caller}) else s
    case ApiWrite(caller) => s.(row := s.row.(cancelRequested := true), callers := s.callers - {caller})
  }

  /** The system after a list of steps. */
  function After(s: System, steps: seq<Step>): System {
    if steps == [] then s else Apply(After(s, steps[..|steps| - 1]), steps[|steps| - 1])
  }

  /** Every step is enabled when its turn comes. */
  predicate Path(s: System, steps: seq<Step>) {
    steps == []
    || (Path(s, steps[..|steps| - 1]) && Enabled(After(s, steps[..|steps| - 1]), steps[|steps| - 1]))
  }

  /** API calls touch the flag and who waits to raise it, and nothing of the worker; a crash leaves the row as it is. */
  lemma OutsideSteps(s: System, caller: nat)
    ensures Apply(s, ApiRead(caller)) ==
      if s.row.status in {Pending, Running} && !s.row.cancelRequested then s.(callers := s.callers + {caller}) else s
    ensures Enabled(s, ApiWrite(caller)) <==> caller in s.callers
    ensures Apply(s, ApiWrite(caller)) == s.(row := s.row.(cancelRequested := true), callers := s.callers - {caller})
    ensures Enabled(s, Crash) && Apply(s, Crash) == s.(pc := Idle) && Enabled(Apply(s, Crash), Load)
  {
  }

  /** What the worker can do where it is: apart from the graph and its nodes there is one way on. */
  lemma WaysOn(s: System, step: Step)
    requires Enabled(s, step) && !step.Crash? && !step.ApiRead? && !step.ApiWrite?
    ensures match s.pc
            case Idle => step.Load?
            case Loaded => step.ReadFlag?
            case EarlyCancel => step.CancelEarly?
            case LookUp => step.FindWorkflow?
            case Missing => step.FailMissing?
            case Ready => step.Begin?
            case Between => step.EnterNode? || step.RunEndNode? || step.LeaveGraph? || step.Raise?
            case AtCheck => step.Check?
            case InBody => step.FinishBody? || step.Raise?
            case Finishing => step.Complete?
            case Stopping => step.Stop?
            case Failing => step.Fail?
  {
  }

  // ---------------------------------------------------------------- what every interleaving keeps

  predicate InGraph(pc: Pc) {
    pc in {Between, AtCheck, InBody, Finishing, Stopping, Failing}
  }

  predicate Sound(s: System) {
    var row := s.row;
    && (row.finishedAt.Some? <==> Terminal(row.status))
    && (row.status == Pending ==> row.startedAt == None && row.error == None)
    && (row.status in {Running, Completed} ==> row.startedAt.Some? && row.error == None)
    && (row.status in {Failed, Cancelled} ==> row.error.Some?)
    && (row.status == Cancelled ==> row.cancelRequested)
    && (s.pc != Idle ==> !Terminal(row.status))
    && (InGraph(s.pc) ==> row.status == Running)
    && (s.pc in {EarlyCancel, Stopping} ==> row.cancelRequested)
  }

  /** How a row may change: pending, running, then one terminal state for good; the flag is never taken back. */
  predicate Evolves(a: Row, b: Row) {
    && (a.cancelRequested ==> b.cancelRequested)
    && (a.status == Running ==> b.status != Pending && b.startedAt == a.startedAt)
    && (Terminal(a.status) ==> b == a.(cancelRequested := b.cancelRequested))
  }

  lemma StepKeepsSound(s: System, step: Step)
    requires Sound(s) && Enabled(s, step)
    ensures Sound(Apply(s, step)) && Evolves(s.row, Apply(s, step).row)
    ensures s.row.status == Pending ==> Apply(s, step).row.status != Completed
  {
  }

  /** Every reachable system is sound. */
  lemma {:induction false} AlwaysSound(s: System, steps: seq<Step>)
    requires Sound(s) && Path(s, steps)
    ensures Sound(After(s, steps))
  {
    if steps != [] {
      AlwaysSound(s, steps[..|steps| - 1]);
      StepKeepsSound(After(s, steps[..|steps| - 1]), steps[|steps| - 1]);
    }
  }

  lemma {:induction false} ReachableIsSound(steps: seq<Step>)
    requires Path(START, steps)
    ensures Sound(After(START, steps))
  {
    AlwaysSound(START, steps);
  }

  lemma {:induction false} PathPrefix(s: System, steps: seq<Step>, i: nat)
    requires Path(s, steps) && i <= |steps|
    ensures Path(s, steps[..i])
    decreases |steps|
  {
    if i < |steps| {
      assert steps[..|steps| - 1][..i] == steps[..i];
      PathPrefix(s, steps[..|steps| - 1], i);
    } else {
      assert steps[..i] == steps;
    }
  }

  /** Between any two moments of any interleaving the row evolves; in particular terminal states never change. */
  lemma {:induction false} RowEvolves(s: System, steps: seq<Step>, i: nat)
    requires Sound(s) && Path(s, steps) && i <= |steps|
    ensures Evolves(After(s, steps[..i]).row, After(s, steps).row)
    decreases |steps| - i
  {
    if i == |steps| {
      assert steps[..i] == steps;
    } else {
      PathPrefix(s, steps, i + 1);
      PathPrefix(s, steps, i);
      AlwaysSound(s, steps[..i]);
      assert steps[..i + 1][..i] == steps[..i];
      StepKeepsSound(After(s, steps[..i]), steps[i]);
      RowEvolves(s, steps, i + 1);
    }
  }

  // ---------------------------------------------------------------- how soon a cancel request takes effect

  /** Node bodies that start in the course of the steps: checks that find the flag down. */
  function BodiesStarted(s: System, steps: seq<Step>): nat {
    if steps == [] then 0
    else
      var before := After(s, steps[..|steps| - 1]);
      BodiesStarted(s, steps[..|steps| - 1])
      + if steps[|steps| - 1] == Check && !before.row.cancelRequested then 1 else 0
  }

  function BodiesFinished(steps: seq<Step>): nat {
    if steps == [] then 0
    else BodiesFinished(steps[..|steps| - 1]) + if steps[|steps| - 1] == FinishBody then 1 else 0
  }

  /** Every body that finishes has started; at most one is running. */
  lemma {:induction false} FinishedWereStarted(s: System, steps: seq<Step>)
    requires Path(s, steps)
    ensures BodiesFinished(steps) + (if After(s, steps).pc == InBody then 1 else 0)
         <= BodiesStarted(s, steps) + (if s.pc == InBody then 1 else 0)
    ensures BodiesStarted(s, steps) + BodiesFinished(steps) <= |steps|
  {
    if steps != [] {
      FinishedWereStarted(s, steps[..|steps| - 1]);
    }
  }

  /** Once the flag is up no body starts, and only the one that was already running can still finish. */
  lemma {:induction false} NothingStartsAfterCancel(s: System, steps: seq<Step>)
    requires Sound(s) && s.row.cancelRequested && Path(s, steps)
    ensures BodiesStarted(s, steps) == 0
    ensures BodiesFinished(steps) + (if After(s, steps).pc == InBody then 1 else 0) <= if s.pc == InBody then 1 else 0
  {
    if steps != [] {
      var init := steps[..|steps| - 1];
      NothingStartsAfterCancel(s, init);
      PathPrefix(s, steps, |steps| - 1);
      RowEvolves(s, init, 0);
      assert init[..0] == [];
    }
  }

  /** The worker is about to read the flag. */
  predicate Checking(s: System) {
    s.pc == Loaded || s.pc == AtCheck
  }

  /** Stopping is all that is left to happen to this run. */
  predicate Doomed(s: System) {
    s.row.cancelRequested
    && if Terminal(s.row.status) then s.row.status == Cancelled
       else s.pc in {Idle, Loaded, EarlyCancel, AtCheck, Stopping}
  }

  lemma {:induction false} DoomedStaysDoomed(s: System, steps: seq<Step>)
    requires Sound(s) && Doomed(s) && Path(s, steps)
    ensures Doomed(After(s, steps))
  {
    if steps != [] {
      DoomedStaysDoomed(s, steps[..|steps| - 1]);
      AlwaysSound(s, steps[..|steps| - 1]);
    }
  }

  /** The flag has been read since the request, or the run is still on the way to its next check. */
  ghost predicate CheckedIn(s: System, steps: seq<Step>) {
    exists i :: 0 <= i <= |steps| && Checking(After(s, steps[..i]))
  }

  lemma {:induction false} StoppedOnlyByCheck(s: System, steps: seq<Step>)
    requires Sound(s) && Path(s, steps) && s.pc !in {EarlyCancel, Stopping} && s.row.status != Cancelled
    requires !CheckedIn(s, steps)
    ensures After(s, steps).pc !in {EarlyCancel, Stopping} && After(s, steps).row.status != Cancelled
  {
    if steps != [] {
      var init := steps[..|steps| - 1];
      forall i | 0 <= i <= |init| ensures !Checking(After(s, init[..i])) {
        assert init[..i] == steps[..i];
      }
      StoppedOnlyByCheck(s, init);
      assert steps[..|init|] == init;
    }
  }

  /**
   When a cancel call commits, the run ends cancelled exactly if the worker comes to read the flag
   again: at the start of a node other than an end, or when execution (re)starts.
   */
  lemma CancelledExactly(before: seq<Step>, caller: nat, steps: seq<Step>)
    requires Path(START, before) && !After(START, before).row.cancelRequested
    requires Enabled(After(START, before), ApiWrite(caller))
    requires var s := Apply(After(START, before), ApiWrite(caller));
      Path(s, steps) && Terminal(After(s, steps).row.status)
    ensures var s := Apply(After(START, before), ApiWrite(caller));
            After(s, steps).row.status == Cancelled <==> CheckedIn(s, steps)
  {
    ReachableIsSound(before);
    var s := Apply(After(START, before), ApiWrite(caller));
    StepKeepsSound(After(START, before), ApiWrite(caller));
    if CheckedIn(s, steps) {
      var i :| 0 <= i <= |steps| && Checking(After(s, steps[..i]));
      CheckDooms(s, steps, i);
    } else {
      StoppedOnlyByCheck(s, steps);
    }
  }

  lemma CheckDooms(s: System, steps: seq<Step>, i: nat)
    requires Sound(s) && s.row.cancelRequested && Path(s, steps) && i <= |steps| && Checking(After(s, steps[..i]))
    ensures Doomed(After(s, steps))
  {
    PathPrefix(s, steps, i);
    AlwaysSound(s, steps[..i]);
    RowEvolves(s, steps[..i], 0);
    assert steps[..i][..0] == [];
    PathSplit(s, steps, i);
    DoomedStaysDoomed(After(s, steps[..i]), steps[i..]);
  }

  lemma {:induction false} PathSplit(s: System, steps: seq<Step>, i: nat)
    requires Path(s, steps) && i <= |steps|
    ensures Path(After(s, steps[..i]), steps[i..])
    ensures After(After(s, steps[..i]), steps[i..]) == After(s, steps)
    decreases |steps|
  {
    if i < |steps| {
      var init := steps[..|steps| - 1];
      PathSplit(s, init, i);
      assert init[..i] == steps[..i] && init[i..] == steps[i..][..|steps| - i - 1];
    } else {
      assert steps[..i] == steps;
    }
  }

  lemma OneMore(s: System, steps: seq<Step>, step: Step)
    requires Path(s, steps) && Enabled(After(s, steps), step)
    ensures Path(s, steps + [step]) && After(s, steps + [step]) == Apply(After(s, steps), step)
  {
    assert (steps + [step])[..|steps|] == steps;
  }

  /** The worker will read the flag again before the run can end, or has no hold on the run. */
  predicate BeforeCheck(pc: Pc) {
    pc == Idle || pc == Loaded || pc == AtCheck
  }

  /** Past its last check for now, a run can still end on its own, if it has not done so already. */
  lemma CanEscape(s: System) returns (steps: seq<Step>)
    requires Sound(s) && s.row.status != Cancelled
    requires Terminal(s.row.status) || (!BeforeCheck(s.pc) && s.pc != EarlyCancel && s.pc != Stopping)
    ensures Path(s, steps) && Terminal(After(s, steps).row.status) && After(s, steps).row.status != Cancelled
    decreases match s.pc case InBody => 3 case Ready => 3 case Between => 2 case LookUp => 2 case _ => 1
  {
    if Terminal(s.row.status) {
      steps := [];
    } else if s.pc == Finishing || s.pc == Failing || s.pc == Missing {
      var last :=
        if s.pc == Finishing then Complete(0) else if s.pc == Failing then Fail(0, "") else FailMissing(0, "");
      OneMore(s, [], last);
      steps := [last];
      assert [] + [last] == steps;
    } else {
      var first := if s.pc == InBody then FinishBody else if s.pc == Ready then Begin(0)
                   else if s.pc == LookUp then FindWorkflow(false) else LeaveGraph;
      StepKeepsSound(s, first);
      var rest := CanEscape(Apply(s, first));
      steps := [first] + rest;
      StepFirst(s, first, rest);
    }
  }

  lemma {:induction false} StepFirst(s: System, first: Step, rest: seq<Step>)
    requires Enabled(s, first) && Path(Apply(s, first), rest)
    ensures Path(s, [first] + rest) && After(s, [first] + rest) == After(Apply(s, first), rest)
  {
    if rest == [] {
      OneMore(s, [], first);
      assert [] + [first] == [first] + rest;
    } else {
      var init, last := rest[..|rest| - 1], rest[|rest| - 1];
      StepFirst(s, first, init);
      OneMore(s, [first] + init, last);
      assert ([first] + init) + [last] == [first] + rest;
    }
  }

  /**
   What can be said when a cancel call commits: the run is bound to be cancelled, however it goes on,
   exactly if it has not ended and the worker stands before a check.
   */
  lemma BoundToBeCancelledExactly(before: seq<Step>, caller: nat)
    requires Path(START, before) && !After(START, before).row.cancelRequested
    requires Enabled(After(START, before), ApiWrite(caller))
    ensures var s := Apply(After(START, before), ApiWrite(caller));
            (forall steps :: Path(s, steps) && Terminal(After(s, steps).row.status) ==>
              After(s, steps).row.status == Cancelled)
            <==> !Terminal(s.row.status) && BeforeCheck(s.pc)
  {
    ReachableIsSound(before);
    var s := Apply(After(START, before), ApiWrite(caller));
    StepKeepsSound(After(START, before), ApiWrite(caller));
    if !Terminal(s.row.status) && BeforeCheck(s.pc) {
      forall steps | Path(s, steps) && Terminal(After(s, steps).row.status)
        ensures After(s, steps).row.status == Cancelled
      {
        DoomedStaysDoomed(s, steps);
      }
    } else {
      var steps := CanEscape(s);
    }
  }

  /** A cancel call can be accepted and the run still complete: the flag arrives after the last check. */
  lemma CancelCanComeTooLate() returns (steps: seq<Step>)
    ensures Path(START, steps) && ApiWrite(0) in steps
    ensures After(START, steps).row.status == Completed && After(START, steps).row.cancelRequested
  {
    steps := [];
    OneMore(START, steps, Load);
    steps := steps + [Load];
    OneMore(START, steps, ReadFlag);
    steps := steps + [ReadFlag];
    OneMore(START, steps, FindWorkflow(true));
    steps := steps + [FindWorkflow(true)];
    OneMore(START, steps, Begin(1));
    steps := steps + [Begin(1)];
    OneMore(START, steps, EnterNode);
    steps := steps + [EnterNode];
    OneMore(START, steps, Check);
    steps := steps + [Check];
    OneMore(START, steps, ApiRead(0));
    steps := steps + [ApiRead(0)];
    OneMore(START, steps, ApiWrite(0));
    steps := steps + [ApiWrite(0)];
    OneMore(START, steps, FinishBody);
    steps := steps + [FinishBody];
    OneMore(START, steps, LeaveGraph);
    steps := steps + [LeaveGraph];
    OneMore(START, steps, Complete(2));
    steps := steps + [Complete(2)];
  }
}
