/** `execute_run` itself, as the worker performs it on the shared row while API calls come and go (run_service.py). */
module RunExecution {
  import opened Prelude
  import opened RunRecord
  import opened RunLifecycle

  /** One node the graph comes to: one that reads the flag and may then raise, or an end node. */
  datatype NodeRun = CheckedNode(raises: bool) | EndNode

  /** Before which access of the worker API calls come. */
  datatype Moment =
    | AtLoad | AtFlag | AtEarlyCancel | AtLookUp | AtMissing | AtBegin
    | BeforeNode(i: nat) | AtCheckOf(i: nat) | InBodyOf(i: nat)
    | AtLeave | AtLastWrite

  /** What one API request does at a moment: read the row, or write the flag that it has decided to write. */
  datatype ApiCall = Reads(caller: nat) | Writes(caller: nat)

  /** What happens around the worker: which nodes it meets, how the graph ends, what API calls do when. */
  datatype Surroundings = Surroundings(
    workflowFound: bool, nodes: seq<NodeRun>, graphRaises: bool, api: Moment -> seq<ApiCall>, now: nat, error: string)

  /** `steps` is a path from `start` to `s`. */
  predicate Reaches(start: System, steps: seq<Step>, s: System) {
    Path(start, steps) && After(start, steps) == s
  }

  lemma Next(start: System, steps: seq<Step>, s: System, step: Step) returns (longer: seq<Step>)
    requires Reaches(start, steps, s) && Enabled(s, step)
    ensures Reaches(start, longer, Apply(s, step))
    ensures BodiesFinished(longer) == BodiesFinished(steps) + if step == FinishBody then 1 else 0
    ensures Heard(longer) == Heard(steps) + if step.ApiRead? || step == RunEndNode then 1 else 0
  {
    OneMore(start, steps, step);
    longer := steps + [step];
    assert longer[..|longer| - 1] == steps;
  }

  /** The API requests that have come to read the row, and the end nodes that have run. */
  function Heard(steps: seq<Step>): nat {
    if steps == [] then 0
    else
      var last := steps[|steps| - 1];
      Heard(steps[..|steps| - 1]) + if last.ApiRead? || last == RunEndNode then 1 else 0
  }

  /** How many of the calls come to read the row. */
  function ReadsIn(calls: seq<ApiCall>): nat {
    if calls == [] then 0 else ReadsIn(calls[..|calls| - 1]) + if calls[|calls| - 1].Reads? then 1 else 0
  }

  // ---------------------------------------------------------------- API calls in between

  /** One API call; a write without its read is none. */
  function ApplyCall(s: System, call: ApiCall): System {
    match call
    case Reads(caller) => Apply(s, ApiRead(caller))
    case Writes(caller) => if caller in s.callers then Apply(s, ApiWrite(caller)) else s
  }

  function AfterCalls(s: System, calls: seq<ApiCall>): System {
    if calls == [] then s else ApplyCall(AfterCalls(s, calls[..|calls| - 1]), calls[|calls| - 1])
  }

  predicate HasWrites(calls: seq<ApiCall>) {
    exists i :: 0 <= i < |calls| && calls[i].Writes?
  }

  /** API calls change nothing but the flag, which they never take back, and raise it by writes only. */
  lemma {:induction false} CallsOnlyRaiseFlag(s: System, calls: seq<ApiCall>)
    ensures var later := AfterCalls(s, calls);
      && later.pc == s.pc
      && later.row == s.row.(cancelRequested := later.row.cancelRequested)
      && (s.row.cancelRequested ==> later.row.cancelRequested)
      && (!HasWrites(calls) ==> later.row == s.row)
  {
    if calls != [] {
      CallsOnlyRaiseFlag(s, calls[..|calls| - 1]);
      assert calls[|calls| - 1].Writes? ==> HasWrites(calls);
    }
  }

  /** API calls, in the order given. */
  method Interfere(run: WorkflowRun, calls: seq<ApiCall>, callers: set<nat>, ghost start: System,
                   ghost steps: seq<Step>, ghost pc: Pc)
    returns (waiting: set<nat>, ghost longer: seq<Step>)
    requires Reaches(start, steps, System(run.View(), pc, callers))
    modifies run`cancelRequested
    ensures Reaches(start, longer, System(run.View(), pc, waiting))
    ensures System(run.View(), pc, waiting) == AfterCalls(System(old(run.View()), pc, callers), calls)
    ensures BodiesFinished(longer) == BodiesFinished(steps)
    ensures Heard(longer) == Heard(steps) + ReadsIn(calls)
    ensures old(run.cancelRequested) ==> run.cancelRequested
    ensures !HasWrites(calls) ==> run.cancelRequested == old(run.cancelRequested)
  {
    waiting, longer := callers, steps;
    for i := 0 to |calls|
      invariant Reaches(start, longer, System(run.View(), pc, waiting))
      invariant System(run.View(), pc, waiting) == AfterCalls(System(old(run.View()), pc, callers), calls[..i])
      invariant BodiesFinished(longer) == BodiesFinished(steps)
      invariant Heard(longer) == Heard(steps) + ReadsIn(calls[..i])
    {
      ghost var s := System(run.View(), pc, waiting);
      assert calls[..i + 1][..i] == calls[..i];
      match calls[i]
      case Reads(caller) =>
        longer := Next(start, longer, s, ApiRead(caller));
        if (run.status == Pending || run.status == Running) && !run.cancelRequested {
          waiting := waiting + {caller};
        }
      case Writes(caller) =>
        if caller in waiting {
          longer := Next(start, longer, s, ApiWrite(caller));
          run.RequestCancel();
          waiting := waiting - {caller};
        }
    }
    assert calls[..|calls|] == calls;
    CallsOnlyRaiseFlag(System(old(run.View()), pc, callers), calls);
  }

  datatype CancelReply = Accepted | AlreadyRequested | CannotBeCancelled

  /**
   `cancel_run` without interference: refuses finished runs, and otherwise leaves the flag up and the rest
   alone. This is what its read and its write amount to in the lifecycle.
   */
  method CancelRun(run: WorkflowRun) returns (reply: CancelReply)
    modifies run`cancelRequested
    ensures reply == CannotBeCancelled <==> Terminal(old(run.status))
    ensures reply == Accepted <==> !Terminal(old(run.status)) && !old(run.cancelRequested)
    ensures run.View()
         == if Terminal(old(run.status)) then old(run.View()) else old(run.View()).(cancelRequested := true)
    ensures run.View() == AfterCalls(System(old(run.View()), Idle, {}), [Reads(0), Writes(0)]).row
  {
    ReadThenWrite(run.View());
    if run.status != Pending && run.status != Running {
      return CannotBeCancelled;
    }
    if run.cancelRequested {
      return AlreadyRequested;
    }
    run.RequestCancel();
    reply := Accepted;
  }

  lemma ReadThenWrite(row: Row)
    ensures AfterCalls(System(row, Idle, {}), [Reads(0), Writes(0)]).row
         == if Terminal(row.status) then row else row.(cancelRequested := true)
  {
    var calls := [Reads(0), Writes(0)];
    assert calls[..1] == [Reads(0)] && calls[..1][..0] == [];
    assert AfterCalls(System(row, Idle, {}), [Reads(0)]) == Apply(System(row, Idle, {}), ApiRead(0));
  }

  // ---------------------------------------------------------------- what becomes of a run

  /** Where the first node that raises stands, or the number of nodes. */
  function FirstRaise(nodes: seq<NodeRun>): (i: nat)
    ensures i <= |nodes| && (i < |nodes| ==> nodes[i] == CheckedNode(true))
    ensures forall j :: 0 <= j < i ==> nodes[j] != CheckedNode(true)
  {
    if nodes == [] then 0 else if nodes[0] == CheckedNode(true) then 0 else 1 + FirstRaise(nodes[1..])
  }

  /** How many of the first `n` nodes read the flag, and have a body. */
  function CheckedNodes(nodes: seq<NodeRun>, n: nat): nat
    requires n <= |nodes|
  {
    if n == 0 then 0 else CheckedNodes(nodes, n - 1) + if nodes[n - 1].CheckedNode? then 1 else 0
  }

  /** Something goes wrong: no workflow, a node that raises, or a graph that does. */
  predicate GoesWrong(around: Surroundings) {
    !around.workflowFound || (exists i :: 0 <= i < |around.nodes| && around.nodes[i] == CheckedNode(true))
      || around.graphRaises
  }

  function ReadsAt(around: Surroundings, m: Moment): nat {
    ReadsIn(around.api(m))
  }

  /** What is heard of at node `i`, if its check does not end the graph. */
  function HeardAt(around: Surroundings, i: nat): nat
    requires i < |around.nodes|
  {
    if around.nodes[i] == EndNode then ReadsAt(around, BeforeNode(i)) + 1
    else ReadsAt(around, BeforeNode(i)) + ReadsAt(around, AtCheckOf(i)) + ReadsAt(around, InBodyOf(i))
  }

  function HeardUpTo(around: Surroundings, n: nat): nat
    requires n <= |around.nodes|
  {
    if n == 0 then 0 else HeardUpTo(around, n - 1) + HeardAt(around, n - 1)
  }

  /** In the graph: at the nodes up to the first that raises, or at all of them and after. */
  function HeardInGraph(around: Surroundings): nat {
    var first := FirstRaise(around.nodes);
    if first < |around.nodes| then HeardUpTo(around, first + 1)
    else HeardUpTo(around, first) + ReadsAt(around, AtLeave)
  }

  /** In a whole course that no check ends: nothing that comes goes unheard. */
  function HeardInAll(around: Surroundings): nat {
    ReadsAt(around, AtLoad) + ReadsAt(around, AtFlag) + ReadsAt(around, AtLookUp)
    + if around.workflowFound
      then ReadsAt(around, AtBegin) + HeardInGraph(around) + ReadsAt(around, AtLastWrite)
      else ReadsAt(around, AtMissing)
  }

  /** How many node bodies run to their end, if no cancel call comes. */
  function BodiesDue(around: Surroundings): nat {
    if around.workflowFound then CheckedNodes(around.nodes, FirstRaise(around.nodes)) else 0
  }

  ghost predicate Undisturbed(around: Surroundings) {
    forall m :: !HasWrites(around.api(m))
  }

  /** The message of the exception, clipped. */
  function ErrorText(around: Surroundings): string {
    if |around.error| <= 4000 then around.error else around.error[..4000]
  }

  const EARLY_STOP := "Stopped by user"
  const LATE_STOP := "Workflow run stopped by user"

  /** Completed only if nothing went wrong, failed only if something did; the row says when, and why. */
  predicate EndsFor(around: Surroundings, after: Row) {
    && after.finishedAt == Some(around.now)
    && match after.status
       case Completed => !GoesWrong(around) && after.error == None
       case Failed => GoesWrong(around) && after.error == Some(ErrorText(around))
       case Cancelled => after.cancelRequested && after.error in {Some(EARLY_STOP), Some(LATE_STOP)}
       case _ => false
  }

  /** Without cancel calls: what went before decides, and nothing else does. */
  predicate EndsUndisturbed(before: Row, around: Surroundings, after: Row) {
    if Terminal(before.status) then after == before
    else if before.cancelRequested then
      after == Row(Cancelled, before.startedAt, Some(around.now), Some(EARLY_STOP), true)
    else
      && after.cancelRequested == false
      && after.status == (if GoesWrong(around) then Failed else Completed)
      && after.startedAt
        == (if around.workflowFound && before.status == Pending then Some(around.now) else before.startedAt)
  }

  /**
   Every way `execute_run` can go is a path of the lifecycle, whatever API calls do between any two of its
   accesses, and leaves the worker idle and the run ended: completed, failed or cancelled for the reasons
   that the surroundings give, and with the node bodies run that had to be.
   */
  method ExecuteRun(run: WorkflowRun, around: Surroundings, callers: set<nat>)
    returns (waiting: set<nat>, ghost steps: seq<Step>)
    requires Sound(System(run.View(), Idle, callers))
    modifies run
    ensures Reaches(old(System(run.View(), Idle, callers)), steps, System(run.View(), Idle, waiting))
    ensures Evolves(old(run.View()), run.View())
    ensures Terminal(run.status)
    ensures !Terminal(old(run.status)) ==> EndsFor(around, run.View())
    ensures !Terminal(old(run.status)) && old(run.cancelRequested) ==>
      run.status == Cancelled && run.error == Some(EARLY_STOP) && BodiesFinished(steps) == 0
    ensures !Terminal(old(run.status)) && run.status != Cancelled ==>
      BodiesFinished(steps) == BodiesDue(around) && Heard(steps) == HeardInAll(around)
    ensures Undisturbed(around) ==> EndsUndisturbed(old(run.View()), around, run.View())
  {
    ghost var start := System(run.View(), Idle, callers);
    var settled;
    settled, waiting, steps := OpenRun(run, around, callers, start);
    if !settled {
      waiting, steps := RunToEnd(run, around, waiting, start, steps);
    }
    Conclude(start, steps, System(run.View(), Idle, waiting));
  }

  /** After the look at the flag: on the way to an early stop, to a missing workflow, or into the graph. */
  function HeardWhileOpening(around: Surroundings, settled: bool, status: Status): nat {
    if settled && status == Cancelled then ReadsAt(around, AtEarlyCancel)
    else ReadsAt(around, AtLookUp) + ReadsAt(around, if settled then AtMissing else AtBegin)
  }

  /** The part before the graph: finished and cancelled runs, and a missing workflow, settle the matter. */
  method OpenRun(run: WorkflowRun, around: Surroundings, callers: set<nat>, ghost start: System)
    returns (settled: bool, waiting: set<nat>, ghost steps: seq<Step>)
    requires start == System(run.View(), Idle, callers)
    modifies run
    ensures Reaches(start, steps, System(run.View(), if settled then Idle else Between, waiting))
    ensures BodiesFinished(steps) == 0
    ensures Heard(steps) == ReadsAt(around, AtLoad) +
      if Terminal(old(run.status)) then 0
      else ReadsAt(around, AtFlag) + HeardWhileOpening(around, settled, run.status)
    ensures Terminal(old(run.status)) ==>
      settled && run.View() == old(run.View()).(cancelRequested := run.cancelRequested)
    ensures settled && !Terminal(old(run.status)) ==>
      && run.startedAt == old(run.startedAt) && run.finishedAt == Some(around.now)
      && ((run.status == Cancelled && run.cancelRequested && run.error == Some(EARLY_STOP))
          || (run.status == Failed && !around.workflowFound && run.error == Some(ErrorText(around))))
    ensures !settled ==>
      && !Terminal(old(run.status)) && around.workflowFound
      && run.View() == if old(run.status) == Pending
                       then Row(Running, Some(around.now), old(run.finishedAt), None, run.cancelRequested)
                       else old(run.View()).(cancelRequested := run.cancelRequested)
    ensures !Terminal(old(run.status)) && old(run.cancelRequested) ==> settled && run.status == Cancelled
    ensures Undisturbed(around) && !old(run.cancelRequested) ==>
      !run.cancelRequested && (!Terminal(old(run.status)) ==> (settled <==> !around.workflowFound))
    ensures Undisturbed(around) && Terminal(old(run.status)) ==> run.cancelRequested == old(run.cancelRequested)
  {
    steps, settled := [], true;
    waiting, steps := Interfere(run, around.api(AtLoad), callers, start, steps, Idle);
    steps := Next(start, steps, System(run.View(), Idle, waiting), Load);
    if run.status == Completed || run.status == Failed || run.status == Cancelled {
      return;
    }
    waiting, steps := Interfere(run, around.api(AtFlag), waiting, start, steps, Loaded);
    var requested := run.IsCancelRequested();
    steps := Next(start, steps, System(run.View(), Loaded, waiting), ReadFlag);
    if requested {
      waiting, steps := Interfere(run, around.api(AtEarlyCancel), waiting, start, steps, EarlyCancel);
      steps := Next(start, steps, System(run.View(), EarlyCancel, waiting), CancelEarly(around.now));
      run.MarkCancelled(around.now, "Stopped by user");
      return;
    }
    settled, waiting, steps := LookUpAndBegin(run, around, waiting, start, steps);
  }

  /** No workflow: the run fails. Otherwise it is running, and was if it was not pending. */
  method LookUpAndBegin(run: WorkflowRun, around: Surroundings, callers: set<nat>, ghost start: System,
                        ghost before: seq<Step>)
    returns (settled: bool, waiting: set<nat>, ghost steps: seq<Step>)
    requires Reaches(start, before, System(run.View(), LookUp, callers))
    modifies run
    ensures Reaches(start, steps, System(run.View(), if settled then Idle else Between, waiting))
    ensures BodiesFinished(steps) == BodiesFinished(before)
    ensures Heard(steps)
         == Heard(before) + ReadsAt(around, AtLookUp) + ReadsAt(around, if settled then AtMissing else AtBegin)
    ensures settled <==> !around.workflowFound
    ensures run.View()
         == if settled
            then Row(Failed, old(run.startedAt), Some(around.now), Some(ErrorText(around)), run.cancelRequested)
            else if old(run.status) == Pending
            then Row(Running, Some(around.now), old(run.finishedAt), None, run.cancelRequested)
            else old(run.View()).(cancelRequested := run.cancelRequested)
    ensures Undisturbed(around) && !old(run.cancelRequested) ==> !run.cancelRequested
  {
    settled := true;
    waiting, steps := Interfere(run, around.api(AtLookUp), callers, start, before, LookUp);
    steps := Next(start, steps, System(run.View(), LookUp, waiting), FindWorkflow(around.workflowFound));
    if !around.workflowFound {
      waiting, steps := Interfere(run, around.api(AtMissing), waiting, start, steps, Missing);
      steps := Next(start, steps, System(run.View(), Missing, waiting), FailMissing(around.now, around.error));
      run.MarkFailed(around.now, around.error);
      return;
    }
    waiting, steps := Interfere(run, around.api(AtBegin), waiting, start, steps, Ready);
    steps := Next(start, steps, System(run.View(), Ready, waiting), Begin(around.now));
    if run.status == Pending {
      run.MarkRunning(around.now);
    }
    settled := false;
  }

  /** The graph and the write that follows it. */
  method RunToEnd(run: WorkflowRun, around: Surroundings, callers: set<nat>, ghost start: System,
                  ghost before: seq<Step>)
    returns (waiting: set<nat>, ghost steps: seq<Step>)
    requires Reaches(start, before, System(run.View(), Between, callers))
    modifies run
    ensures Reaches(start, steps, System(run.View(), Idle, waiting))
    ensures run.startedAt == old(run.startedAt) && run.finishedAt == Some(around.now)
    ensures match run.status
            case Completed => !Breaks(around) && run.error == old(run.error)
            case Failed => Breaks(around) && run.error == Some(ErrorText(around))
            case Cancelled => run.cancelRequested && run.error == Some(LATE_STOP)
            case _ => false
    ensures run.status != Cancelled ==>
      && BodiesFinished(steps) == BodiesFinished(before) + CheckedNodes(around.nodes, FirstRaise(around.nodes))
      && Heard(steps) == Heard(before) + HeardInGraph(around) + ReadsAt(around, AtLastWrite)
    ensures Undisturbed(around) && !old(run.cancelRequested) ==> !run.cancelRequested
  {
    var ending;
    ending, waiting, steps := RunGraph(run, around, callers, start, before);
    waiting, steps := Interfere(run, around.api(AtLastWrite), waiting, start, steps, PcOf(ending));
    ghost var s := System(run.View(), PcOf(ending), waiting);
    match ending
    case WasCancelled =>
      steps := Next(start, steps, s, Stop(around.now));
      run.MarkCancelled(around.now, "Workflow run stopped by user");
    case HasFailed =>
      steps := Next(start, steps, s, Fail(around.now, around.error));
      run.MarkFailed(around.now, around.error);
    case IsThrough =>
      steps := Next(start, steps, s, Complete(around.now));
      run.MarkCompleted(around.now);
  }

  lemma Conclude(start: System, steps: seq<Step>, s: System)
    requires Sound(start) && Reaches(start, steps, s)
    ensures Evolves(start.row, s.row)
  {
    RowEvolves(start, steps, 0);
    assert steps[..0] == [];
  }

  /** How the graph ends: a check has raised, anything else has raised, or all nodes are done. */
  datatype Ending = WasCancelled | HasFailed | IsThrough

  function PcOf(ending: Ending): Pc {
    match ending
    case WasCancelled => Stopping
    case HasFailed => Failing
    case IsThrough => Finishing
  }

  /** Some node raises, or the graph does. */
  predicate Breaks(around: Surroundings) {
    FirstRaise(around.nodes) < |around.nodes| || around.graphRaises
  }

  /** It is through only if nothing breaks it, fails only if something does; all bodies due have then run. */
  predicate EndsAs(around: Surroundings, ending: Ending, bodies: int) {
    ending != WasCancelled ==>
      && (ending == HasFailed <==> Breaks(around))
      && bodies == CheckedNodes(around.nodes, FirstRaise(around.nodes))
  }

  /** Its body runs unless it raises or a check does before it. */
  predicate NodeEndsAs(node: NodeRun, early: Option<Ending>, bodies: int) {
    match early
    case None => node != CheckedNode(true) && bodies == if node.CheckedNode? then 1 else 0
    case Some(HasFailed) => node == CheckedNode(true) && bodies == 0
    case Some(WasCancelled) => node.CheckedNode? && bodies == 0
    case Some(IsThrough) => false
  }

  /** One node: an end does nothing; any other reads the flag, then runs its body, and either may raise. */
  method RunNode(run: WorkflowRun, around: Surroundings, i: nat, callers: set<nat>, ghost start: System,
                 ghost before: seq<Step>)
    returns (early: Option<Ending>, waiting: set<nat>, ghost steps: seq<Step>)
    requires i < |around.nodes| && Reaches(start, before, System(run.View(), Between, callers))
    modifies run`cancelRequested
    ensures Reaches(start, steps, System(run.View(), if early.Some? then PcOf(early.value) else Between, waiting))
    ensures NodeEndsAs(around.nodes[i], early, BodiesFinished(steps) - BodiesFinished(before))
    ensures early == Some(WasCancelled) ==> run.cancelRequested
    ensures early != Some(WasCancelled) ==> Heard(steps) == Heard(before) + HeardAt(around, i)
    ensures early == Some(WasCancelled) ==>
      Heard(steps) == Heard(before) + ReadsAt(around, BeforeNode(i)) + ReadsAt(around, AtCheckOf(i))
    ensures old(run.cancelRequested) ==>
      run.cancelRequested && (around.nodes[i].CheckedNode? ==> early == Some(WasCancelled))
    ensures Undisturbed(around) && !old(run.cancelRequested) ==> !run.cancelRequested
  {
    waiting, steps := Interfere(run, around.api(BeforeNode(i)), callers, start, before, Between);
    if around.nodes[i] == EndNode {
      steps := Next(start, steps, System(run.View(), Between, waiting), RunEndNode);
      return None, waiting, steps;
    }
    steps := Next(start, steps, System(run.View(), Between, waiting), EnterNode);
    waiting, steps := Interfere(run, around.api(AtCheckOf(i)), waiting, start, steps, AtCheck);
    var requested := run.IsCancelRequested();
    steps := Next(start, steps, System(run.View(), AtCheck, waiting), Check);
    if requested {
      return Some(WasCancelled), waiting, steps;
    }
    waiting, steps := Interfere(run, around.api(InBodyOf(i)), waiting, start, steps, InBody);
    if around.nodes[i].raises {
      steps := Next(start, steps, System(run.View(), InBody, waiting), Raise);
      return Some(HasFailed), waiting, steps;
    }
    steps := Next(start, steps, System(run.View(), InBody, waiting), FinishBody);
    early := None;
  }

  /** Node after node, until a check or a body raises or there are no more. */
  method RunNodes(run: WorkflowRun, around: Surroundings, callers: set<nat>, ghost start: System,
                  ghost before: seq<Step>)
    returns (early: Option<Ending>, waiting: set<nat>, ghost steps: seq<Step>)
    requires Reaches(start, before, System(run.View(), Between, callers))
    modifies run`cancelRequested
    ensures Reaches(start, steps, System(run.View(), if early.Some? then PcOf(early.value) else Between, waiting))
    ensures early.None? <==> FirstRaise(around.nodes) == |around.nodes| && early != Some(WasCancelled)
    ensures early != Some(WasCancelled) ==>
      BodiesFinished(steps) == BodiesFinished(before) + CheckedNodes(around.nodes, FirstRaise(around.nodes))
    ensures early.None? ==> Heard(steps) == Heard(before) + HeardUpTo(around, |around.nodes|)
    ensures early == Some(HasFailed) ==>
      && FirstRaise(around.nodes) < |around.nodes|
      && Heard(steps) == Heard(before) + HeardUpTo(around, FirstRaise(around.nodes) + 1)
    ensures early.None? || early == Some(HasFailed) || (early == Some(WasCancelled) && run.cancelRequested)
    ensures old(run.cancelRequested) ==>
      run.cancelRequested && (early == Some(WasCancelled) <==> CheckedNodes(around.nodes, |around.nodes|) > 0)
    ensures Undisturbed(around) && !old(run.cancelRequested) ==> !run.cancelRequested
  {
    waiting, steps := callers, before;
    for i := 0 to |around.nodes|
      invariant Reaches(start, steps, System(run.View(), Between, waiting))
      invariant i <= FirstRaise(around.nodes)
      invariant BodiesFinished(steps) == BodiesFinished(before) + CheckedNodes(around.nodes, i)
      invariant Heard(steps) == Heard(before) + HeardUpTo(around, i)
      invariant old(run.cancelRequested) ==> run.cancelRequested && CheckedNodes(around.nodes, i) == 0
      invariant Undisturbed(around) && !old(run.cancelRequested) ==> !run.cancelRequested
    {
      OneNodeOn(around, i);
      early, waiting, steps := RunNode(run, around, i, waiting, start, steps);
      if early.Some? {
        return;
      }
    }
    early := None;
  }

  /** The graph: its nodes, and what else it may run into. */
  method RunGraph(run: WorkflowRun, around: Surroundings, callers: set<nat>, ghost start: System,
                  ghost before: seq<Step>)
    returns (ending: Ending, waiting: set<nat>, ghost steps: seq<Step>)
    requires Reaches(start, before, System(run.View(), Between, callers))
    modifies run`cancelRequested
    ensures Reaches(start, steps, System(run.View(), PcOf(ending), waiting))
    ensures EndsAs(around, ending, BodiesFinished(steps) - BodiesFinished(before))
    ensures ending == WasCancelled ==> run.cancelRequested
    ensures ending != WasCancelled ==> Heard(steps) == Heard(before) + HeardInGraph(around)
    ensures old(run.cancelRequested) ==>
      run.cancelRequested && (ending == WasCancelled <==> CheckedNodes(around.nodes, |around.nodes|) > 0)
    ensures Undisturbed(around) && !old(run.cancelRequested) ==> !run.cancelRequested
  {
    var early;
    early, waiting, steps := RunNodes(run, around, callers, start, before);
    if early.Some? {
      return early.value, waiting, steps;
    }
    waiting, steps := Interfere(run, around.api(AtLeave), waiting, start, steps, Between);
    if around.graphRaises {
      steps := Next(start, steps, System(run.View(), Between, waiting), Raise);
      return HasFailed, waiting, steps;
    }
    steps := Next(start, steps, System(run.View(), Between, waiting), LeaveGraph);
    ending := IsThrough;
  }

  lemma OneNodeOn(around: Surroundings, i: nat)
    requires i < |around.nodes| && i <= FirstRaise(around.nodes)
    ensures around.nodes[i] == CheckedNode(true) <==> FirstRaise(around.nodes) == i
    ensures HeardUpTo(around, i + 1) == HeardUpTo(around, i) + HeardAt(around, i)
    ensures CheckedNodes(around.nodes, i + 1)
         == CheckedNodes(around.nodes, i) + if around.nodes[i].CheckedNode? then 1 else 0
    ensures CheckedNodes(around.nodes, i + 1) <= CheckedNodes(around.nodes, |around.nodes|)
  {
    FirstRaiseAt(around.nodes, i);
    CheckedNodesGrow(around.nodes, i + 1, |around.nodes|);
  }

  lemma FirstRaiseAt(nodes: seq<NodeRun>, i: nat)
    requires i <= FirstRaise(nodes) && i < |nodes|
    ensures nodes[i] == CheckedNode(true) <==> FirstRaise(nodes) == i
  {
  }

  lemma {:induction false} CheckedNodesGrow(nodes: seq<NodeRun>, i: nat, n: nat)
    requires i <= n <= |nodes|
    ensures CheckedNodes(nodes, i) <= CheckedNodes(nodes, n)
    decreases n
  {
    if i < n {
      CheckedNodesGrow(nodes, i, n - 1);
    }
  }
}
