/**
 Which replica polls Telegram: the leader lease of telegram_polling.py as a timed system. Renewing
 (get, expire) and releasing (get, delete) are one step each; taken apart, exclusion would not hold.
 */
module PollingLease {
  import opened Prelude
  import opened Redis

  const SETTLE_SECONDS := 2.0
  const JOIN_SECONDS := 25.0

  /** A process's instance id. */
  type Id = string

  /** Where a replica's poller is. */
  datatype Pc =
    | Off                                     // no thread
    | Settling                                // lock acquired; sleeping before the thread starts
    | LoopHead                                // about to look at the stop event
    | Renewing(headAt: real)                  // saw no stop event at `headAt`; about to renew
    | Polling(headAt: real, renewedAt: real)  // inside getUpdates
    | Working                                 // handling updates, or sleeping after an error
    | Leaving                                 // out of the loop; about to release

  /** `startedAt`: when it last acquired the lock; `stopping`: since when a stop call is waiting. */
  datatype Replica = Replica(pc: Pc, startedAt: real, stopEvent: bool, stopping: Option<real>)

  const IDLE := Replica(Off, 0.0, false, None)

  datatype System = System(now: real, lock: Option<Entry>, replicas: map<Id, Replica>)

  const START := System(0.0, None, map[])

  /**
   How long a replica may take from the look at the stop event to the renewal and from there to the end
   of getUpdates, and whether stop calls occur.
   */
  datatype Timing = Timing(headToRenew: real, renewToPollEnd: real, stops: bool)

  function Rep(s: System, r: Id): Replica {
    if r in s.replicas then s.replicas[r] else IDLE
  }

  function With(s: System, r: Id, replica: Replica): System {
    s.(replicas := s.replicas[r := replica])
  }

  predicate Leads(s: System, r: Id) {
    Holds(s.lock, r, s.now)
  }

  datatype Step =
    | Tick(seconds: real)
    | Acquire(r: Id)
    | Launch(r: Id)
    | LookAtStop(r: Id)
    | Renew(r: Id)
    | EndPoll(r: Id)
    | NextRound(r: Id)
    | LeaveAndRelease(r: Id)
    | CallStop(r: Id)
    | StopReturns(r: Id)
    | Crash(r: Id)

  /** No replica outstays its time between the steps of one round. */
  predicate InTime(t: Timing, s: System, now: real) {
    forall r :: r in s.replicas ==>
      match s.replicas[r].pc
      case Renewing(headAt) => now <= headAt + t.headToRenew
      case Polling(_, renewedAt) => now <= renewedAt + t.renewToPollEnd
      case _ => true
  }

  predicate Enabled(t: Timing, s: System, step: Step) {
    match step
    case Tick(seconds) => seconds >= 0.0 && InTime(t, s, s.now + seconds)
    case Acquire(r) => Rep(s, r).pc == Off && Rep(s, r).stopping == None
    case Launch(r) => Rep(s, r).pc == Settling && s.now >= Rep(s, r).startedAt + SETTLE_SECONDS
    case LookAtStop(r) => Rep(s, r).pc == LoopHead
    case Renew(r) => Rep(s, r).pc.Renewing?
    case EndPoll(r) => Rep(s, r).pc.Polling?
    case NextRound(r) => Rep(s, r).pc == Working
    case LeaveAndRelease(r) => Rep(s, r).pc == Leaving
    case CallStop(r) => t.stops && Rep(s, r).pc != Settling && Rep(s, r).stopping == None
    case StopReturns(r) =>
      Rep(s, r).stopping.Some? && (Rep(s, r).pc == Off || s.now >= Rep(s, r).stopping.value + JOIN_SECONDS)
    case Crash(r) => true
  }

  function Apply(s: System, step: Step): System {
    match step
    case Tick(seconds) => s.(now := s.now + seconds)
    case Acquire(r) =>
      if Free(s.lock, s.now)
      then With(s.(lock := Taken(r, s.now)), r, Rep(s, r).(pc := Settling, startedAt := s.now))
      else s
    case Launch(r) => With(s, r, Rep(s, r).(pc := LoopHead, stopEvent := false))
    case LookAtStop(r) => With(s, r, Rep(s, r).(pc := if Rep(s, r).stopEvent then Leaving else Renewing(s.now)))
    case Renew(r) =>
      if Leads(s, r) && Rep(s, r).pc.Renewing?
      then With(s.(lock := Taken(r, s.now)), r, Rep(s, r).(pc := Polling(Rep(s, r).pc.headAt, s.now)))
      else With(s, r, Rep(s, r).(pc := Leaving))
    case EndPoll(r) => With(s, r, Rep(s, r).(pc := Working))
    case NextRound(r) => With(s, r, Rep(s, r).(pc := LoopHead))
    case LeaveAndRelease(r) => With(s.(lock := Released(s.lock, r, s.now)), r, Rep(s, r).(pc := Off))
    case CallStop(r) => With(s, r, Rep(s, r).(stopEvent := true, stopping := Some(s.now)))
    case StopReturns(r) => With(s.(lock := Released(s.lock, r, s.now)), r, Rep(s, r).(stopping := None))
    case Crash(r) => With(s, r, Rep(s, r).(pc := Off, stopping := None))
  }

  function After(steps: seq<Step>): System {
    if steps == [] then START else Apply(After(steps[..|steps| - 1]), steps[|steps| - 1])
  }

  predicate Run(t: Timing, steps: seq<Step>) {
    steps == [] || (Run(t, steps[..|steps| - 1]) && Enabled(t, After(steps[..|steps| - 1]), steps[|steps| - 1]))
  }

  /** No two replicas are inside getUpdates at once. */
  predicate Exclusive(s: System) {
    forall r, q :: r in s.replicas && q in s.replicas && s.replicas[r].pc.Polling? && s.replicas[q].pc.Polling? ==>
      r == q
  }

  predicate Plausible(t: Timing) {
    t.headToRenew >= 0.0 && t.renewToPollEnd >= 0.0
  }

  /**
   With stop calls, a lock can go 25 s after the stop event, and the next leader polls 2 s later; without
   them it can only expire, 45 s after the renewal.
   */
  predicate Safe(t: Timing) {
    if t.stops
    then (if t.headToRenew < JOIN_SECONDS then t.headToRenew else JOIN_SECONDS) + t.renewToPollEnd
         < JOIN_SECONDS + SETTLE_SECONDS
    else t.renewToPollEnd < POLLING_LOCK_TTL_SECONDS + SETTLE_SECONDS
  }

  // ---------------------------------------------------------------- safe timing excludes

  /** The earliest moment at which a polling replica can have lost its lock. */
  function LostFrom(t: Timing, pc: Pc): real
    requires pc.Polling?
  {
    if !t.stops then pc.renewedAt + POLLING_LOCK_TTL_SECONDS
    else if pc.renewedAt < pc.headAt + JOIN_SECONDS then pc.headAt + JOIN_SECONDS else pc.renewedAt
  }

  /** A polling replica leads, or stopped leading so late that its successor started late. */
  predicate Guarded(t: Timing, s: System, r: Id)
    requires Rep(s, r).pc.Polling?
  {
    var lostFrom := LostFrom(t, Rep(s, r).pc);
    if Leads(s, r) then s.lock.value.expires == Rep(s, r).pc.renewedAt + POLLING_LOCK_TTL_SECONDS
    else s.now >= lostFrom && (Free(s.lock, s.now) || Rep(s, s.lock.value.value).startedAt >= lostFrom)
  }

  /** A stop call that is waiting set the event, and did so after the current round looked at it. */
  predicate StopOk(t: Timing, s: System, me: Replica) {
    me.stopping.Some? ==>
      && t.stops
      && me.stopEvent
      && me.stopping.value <= s.now
      && !me.pc.Settling?
      && (me.pc.Renewing? || me.pc.Polling? ==> me.stopping.value >= me.pc.headAt)
  }

  /** The round is within its time, and the thread was started late enough. */
  predicate ClockOk(t: Timing, s: System, me: Replica) {
    && me.startedAt <= s.now
    && (me.pc.Off? || me.pc.Settling? || s.now >= me.startedAt + SETTLE_SECONDS)
    && (me.pc.Renewing? ==> me.pc.headAt <= s.now <= me.pc.headAt + t.headToRenew)
    && (me.pc.Polling? ==> me.pc.headAt <= me.pc.renewedAt <= me.pc.headAt + t.headToRenew)
    && (me.pc.Polling? ==> me.pc.renewedAt <= s.now <= me.pc.renewedAt + t.renewToPollEnd)
  }

  predicate ReplicaOk(t: Timing, s: System, r: Id) {
    && StopOk(t, s, Rep(s, r))
    && ClockOk(t, s, Rep(s, r))
    && (Rep(s, r).pc.Polling? ==> Guarded(t, s, r))
  }

  ghost predicate Ok(t: Timing, s: System) {
    && s.now >= 0.0
    && forall r :: ReplicaOk(t, s, r)
  }

  lemma ClockStays(t: Timing, s: System, step: Step, r: Id)
    requires Plausible(t) && Ok(t, s) && Enabled(t, s, step)
    ensures var next := Apply(s, step); ClockOk(t, next, Rep(next, r))
  {
    assert ReplicaOk(t, s, r);
  }

  lemma StopStays(t: Timing, s: System, step: Step, r: Id)
    requires Plausible(t) && Ok(t, s) && Enabled(t, s, step)
    ensures var next := Apply(s, step); StopOk(t, next, Rep(next, r))
  {
    assert ReplicaOk(t, s, r);
  }

  lemma GuardStaysAtTick(t: Timing, s: System, step: Step, r: Id)
    requires Plausible(t) && Ok(t, s) && Enabled(t, s, step) && step.Tick?
    ensures var next := Apply(s, step); Rep(next, r).pc.Polling? ==> Guarded(t, next, r)
  {
    assert ReplicaOk(t, s, r);
  }

  lemma GuardStaysAtRenewal(t: Timing, s: System, step: Step, r: Id)
    requires Plausible(t) && Ok(t, s) && Enabled(t, s, step) && (step.Renew? || step.Acquire?)
    ensures var next := Apply(s, step); Rep(next, r).pc.Polling? ==> Guarded(t, next, r)
  {
    assert ReplicaOk(t, s, r);
    ClockStays(t, s, step, r);
  }

  lemma GuardStaysAtRelease(t: Timing, s: System, step: Step, r: Id)
    requires Plausible(t) && Ok(t, s) && Enabled(t, s, step) && (step.LeaveAndRelease? || step.StopReturns?)
    ensures var next := Apply(s, step); Rep(next, r).pc.Polling? ==> Guarded(t, next, r)
  {
    assert ReplicaOk(t, s, r);
    StopStays(t, s, step, r);
  }

  /** What guards a polling replica goes on to guard it, whatever step any replica takes. */
  lemma GuardStays(t: Timing, s: System, step: Step, r: Id)
    requires Plausible(t) && Ok(t, s) && Enabled(t, s, step)
    ensures var next := Apply(s, step); Rep(next, r).pc.Polling? ==> Guarded(t, next, r)
  {
    match step
    case Tick(_) => GuardStaysAtTick(t, s, step, r);
    case Renew(_) | Acquire(_) => GuardStaysAtRenewal(t, s, step, r);
    case LeaveAndRelease(_) | StopReturns(_) => GuardStaysAtRelease(t, s, step, r);
    case _ => assert ReplicaOk(t, s, r);
  }

  /** Whoever may start polling does so too late to meet a replica that no longer leads. */
  lemma NoMeeting(t: Timing, s: System, r: Id, q: Id)
    requires Safe(t) && Ok(t, s)
    requires Rep(s, r).pc.Polling? && Leads(s, q) && !Rep(s, q).pc.Off? && !Rep(s, q).pc.Settling?
    ensures r == q
  {
    assert ReplicaOk(t, s, r) && ReplicaOk(t, s, q);
  }

  lemma ExclusionStays(t: Timing, s: System, step: Step)
    requires Safe(t) && Ok(t, s) && Exclusive(s) && Enabled(t, s, step)
    ensures Exclusive(Apply(s, step))
  {
    if step.Renew? && Leads(s, step.r) {
      forall r | r in s.replicas && s.replicas[r].pc.Polling? ensures r == step.r {
        NoMeeting(t, s, r, step.r);
      }
    }
  }

  lemma {:induction false} RunIsOk(t: Timing, steps: seq<Step>)
    requires Plausible(t) && Run(t, steps)
    ensures Ok(t, After(steps))
    ensures Safe(t) ==> Exclusive(After(steps))
  {
    if steps != [] {
      var s, step := After(steps[..|steps| - 1]), steps[|steps| - 1];
      RunIsOk(t, steps[..|steps| - 1]);
      forall r ensures ReplicaOk(t, Apply(s, step), r) {
        ClockStays(t, s, step, r);
        StopStays(t, s, step, r);
        GuardStays(t, s, step, r);
      }
      if Safe(t) {
        ExclusionStays(t, s, step);
      }
    }
  }

  // ---------------------------------------------------------------- unsafe timing does not

  /** `steps` is a run that ends in `s`. */
  predicate Reaches(t: Timing, steps: seq<Step>, s: System) {
    Run(t, steps) && After(steps) == s
  }

  lemma OneMore(t: Timing, steps: seq<Step>, s: System, step: Step)
    requires Reaches(t, steps, s) && Enabled(t, s, step)
    ensures Reaches(t, steps + [step], Apply(s, step))
  {
    assert (steps + [step])[..|steps + [step]| - 1] == steps;
  }

  const FIRST := "a"
  const SECOND := "b"

  /** The first replica leads and is about to look at the stop event. */
  lemma FirstLeads(t: Timing) returns (steps: seq<Step>)
    requires Plausible(t)
    ensures Reaches(t, steps,
      System(SETTLE_SECONDS, Taken(FIRST, 0.0), map[FIRST := Replica(LoopHead, 0.0, false, None)]))
  {
    steps := [];
    var s := START;
    assert Reaches(t, steps, s);
    OneMore(t, steps, s, Acquire(FIRST));
    steps, s := steps + [Acquire(FIRST)], Apply(s, Acquire(FIRST));
    OneMore(t, steps, s, Tick(SETTLE_SECONDS));
    steps, s := steps + [Tick(SETTLE_SECONDS)], Apply(s, Tick(SETTLE_SECONDS));
    OneMore(t, steps, s, Launch(FIRST));
    steps, s := steps + [Launch(FIRST)], Apply(s, Launch(FIRST));
  }

  /** While the first replica is still polling, the lock is free again. */
  predicate LockGone(t: Timing, s: System) {
    && s.replicas.Keys == {FIRST}
    && s.replicas[FIRST].pc.Polling?
    && s.now + SETTLE_SECONDS <= s.replicas[FIRST].pc.renewedAt + t.renewToPollEnd
    && Free(s.lock, s.now)
  }

  /** Its lock expires: no stop calls, a poll of 47 s. */
  lemma LockExpires(t: Timing) returns (steps: seq<Step>, s: System)
    requires Plausible(t) && !t.stops && !Safe(t)
    ensures Reaches(t, steps, s) && LockGone(t, s)
  {
    steps := FirstLeads(t);
    s := After(steps);
    OneMore(t, steps, s, LookAtStop(FIRST));
    steps, s := steps + [LookAtStop(FIRST)], Apply(s, LookAtStop(FIRST));
    OneMore(t, steps, s, Renew(FIRST));
    steps, s := steps + [Renew(FIRST)], Apply(s, Renew(FIRST));
    OneMore(t, steps, s, Tick(POLLING_LOCK_TTL_SECONDS));
    steps, s := steps + [Tick(POLLING_LOCK_TTL_SECONDS)], Apply(s, Tick(POLLING_LOCK_TTL_SECONDS));
  }

  /** A stop call comes after the look at the stop event, and the poll begins all the same. */
  lemma PollsUnderStop(t: Timing, wait: real) returns (steps: seq<Step>)
    requires Plausible(t) && t.stops && 0.0 <= wait <= t.headToRenew && wait <= JOIN_SECONDS
    ensures var now := SETTLE_SECONDS + wait;
      var first := Replica(Polling(SETTLE_SECONDS, now), 0.0, true, Some(SETTLE_SECONDS));
      Reaches(t, steps, System(now, Taken(FIRST, now), map[FIRST := first]))
  {
    steps := FirstLeads(t);
    var s := After(steps);
    OneMore(t, steps, s, LookAtStop(FIRST));
    steps, s := steps + [LookAtStop(FIRST)], Apply(s, LookAtStop(FIRST));
    OneMore(t, steps, s, CallStop(FIRST));
    steps, s := steps + [CallStop(FIRST)], Apply(s, CallStop(FIRST));
    OneMore(t, steps, s, Tick(wait));
    steps, s := steps + [Tick(wait)], Apply(s, Tick(wait));
    OneMore(t, steps, s, Renew(FIRST));
    steps, s := steps + [Renew(FIRST)], Apply(s, Renew(FIRST));
  }

  /** The stop call gives up waiting and lets the lock go. */
  lemma StopGivesUp(t: Timing) returns (steps: seq<Step>, s: System)
    requires Plausible(t) && t.stops && !Safe(t)
    ensures Reaches(t, steps, s) && LockGone(t, s)
  {
    var wait := if t.headToRenew < JOIN_SECONDS then t.headToRenew else JOIN_SECONDS;
    steps := PollsUnderStop(t, wait);
    s := After(steps);
    OneMore(t, steps, s, Tick(JOIN_SECONDS - wait));
    steps, s := steps + [Tick(JOIN_SECONDS - wait)], Apply(s, Tick(JOIN_SECONDS - wait));
    OneMore(t, steps, s, StopReturns(FIRST));
    steps, s := steps + [StopReturns(FIRST)], Apply(s, StopReturns(FIRST));
  }

  /** Then a second replica gets as far as leading while the first still polls. */
  lemma SecondLeads(t: Timing, steps: seq<Step>, s: System) returns (more: seq<Step>, now: System)
    requires Plausible(t) && Reaches(t, steps, s) && LockGone(t, s)
    ensures Reaches(t, more, now) && Leads(now, SECOND)
    ensures Rep(now, SECOND).pc.LoopHead? && !Rep(now, SECOND).stopEvent && Rep(now, FIRST).pc.Polling?
  {
    OneMore(t, steps, s, Acquire(SECOND));
    more, now := steps + [Acquire(SECOND)], Apply(s, Acquire(SECOND));
    OneMore(t, more, now, Tick(SETTLE_SECONDS));
    more, now := more + [Tick(SETTLE_SECONDS)], Apply(now, Tick(SETTLE_SECONDS));
    OneMore(t, more, now, Launch(SECOND));
    more, now := more + [Launch(SECOND)], Apply(now, Launch(SECOND));
  }

  /** And polls beside it. */
  lemma SecondPolls(t: Timing, steps: seq<Step>, s: System) returns (more: seq<Step>)
    requires Plausible(t) && Reaches(t, steps, s) && LockGone(t, s)
    ensures Run(t, more) && !Exclusive(After(more))
  {
    var now;
    more, now := SecondLeads(t, steps, s);
    OneMore(t, more, now, LookAtStop(SECOND));
    more, now := more + [LookAtStop(SECOND)], Apply(now, LookAtStop(SECOND));
    OneMore(t, more, now, Renew(SECOND));
    more, now := more + [Renew(SECOND)], Apply(now, Renew(SECOND));
    assert now.replicas[FIRST].pc.Polling? && now.replicas[SECOND].pc.Polling?;
  }

  /** Safe timing in seconds. */
  lemma SafeMeans(t: Timing)
    ensures Safe(t) <==>
      if t.stops then t.renewToPollEnd < 2.0 || t.headToRenew + t.renewToPollEnd < 27.0
      else t.renewToPollEnd < 47.0
  {
  }

  /** At first nobody runs, and the lock is free. */
  lemma AtFirst(r: Id)
    ensures Rep(START, r).pc == Off && !Rep(START, r).stopEvent && Rep(START, r).stopping == None
      && Free(START.lock, START.now)
  {
  }

  /** Over every run and interleaving, no two replicas poll at once, exactly when the timing is safe. */
  lemma ExclusionExactly(t: Timing)
    requires Plausible(t)
    ensures (forall steps :: Run(t, steps) ==> Exclusive(After(steps))) <==> Safe(t)
  {
    if Safe(t) {
      forall steps | Run(t, steps) ensures Exclusive(After(steps)) {
        RunIsOk(t, steps);
      }
    } else {
      var steps, s;
      if t.stops {
        steps, s := StopGivesUp(t);
      } else {
        steps, s := LockExpires(t);
      }
      var more := SecondPolls(t, steps, s);
    }
  }

  // ---------------------------------------------------------------- a lapsed lease

  function AfterFrom(s: System, steps: seq<Step>): System {
    if steps == [] then s else Apply(AfterFrom(s, steps[..|steps| - 1]), steps[|steps| - 1])
  }

  predicate RunFrom(t: Timing, s: System, steps: seq<Step>) {
    || steps == []
    || (RunFrom(t, s, steps[..|steps| - 1])
        && Enabled(t, AfterFrom(s, steps[..|steps| - 1]), steps[|steps| - 1]))
  }

  lemma LapseStays(t: Timing, s: System, r: Id, step: Step)
    requires Enabled(t, s, step) && !Leads(s, r) && step != Acquire(r)
    ensures var next := Apply(s, step);
      !Leads(next, r) && (Rep(next, r).pc.Polling? ==> Rep(next, r).pc == Rep(s, r).pc)
  {
    match step
    case Renew(q) =>
      if q != r {
        assert Rep(Apply(s, step), r) == Rep(s, r);
      }
    case _ =>
  }

  /**
   A replica that no longer leads does not lead again until it acquires anew: it starts no further poll,
   and its next renewal makes it leave its loop.
   */
  lemma {:induction false} LapsedLeaves(t: Timing, s: System, r: Id, steps: seq<Step>)
    requires RunFrom(t, s, steps) && !Leads(s, r) && Acquire(r) !in steps
    ensures var later := AfterFrom(s, steps);
      && !Leads(later, r)
      && (Rep(later, r).pc.Polling? ==> Rep(later, r).pc == Rep(s, r).pc)
      && (Rep(later, r).pc.Renewing? ==> Rep(Apply(later, Renew(r)), r).pc == Leaving)
  {
    if steps != [] {
      LapsedLeaves(t, s, r, steps[..|steps| - 1]);
      LapseStays(t, AfterFrom(s, steps[..|steps| - 1]), r, steps[|steps| - 1]);
    }
  }

  // ---------------------------------------------------------------- who leaves, who polls, who leads

  /** What a step is about: one replica, or the clock. */
  predicate IsOf(step: Step, r: Id) {
    !step.Tick? && step.r == r
  }

  /** A replica changes by its own steps only, and the clock by ticks only. */
  lemma OthersStay(t: Timing, s: System, step: Step, q: Id)
    requires Enabled(t, s, step)
    ensures !IsOf(step, q) ==> Rep(Apply(s, step), q) == Rep(s, q)
    ensures Apply(s, step).now == s.now + if step.Tick? then step.seconds else 0.0
  {
  }

  /** A replica leaves its loop at a look that finds the stop event set, or at a renewal when it does not lead. */
  lemma LeavesExactly(t: Timing, s: System, step: Step, r: Id)
    requires Enabled(t, s, step)
    ensures Rep(s, r).pc != Leaving && Rep(Apply(s, step), r).pc == Leaving
       <==> Rep(s, r).pc != Leaving
            && ((step == LookAtStop(r) && Rep(s, r).stopEvent) || (step == Renew(r) && !Leads(s, r)))
  {
    OthersStay(t, s, step, r);
  }

  /** A poll begins at a renewal by the leader, and at no other step; it is over when its own step says so. */
  lemma PollsExactly(t: Timing, s: System, step: Step, r: Id)
    requires Enabled(t, s, step)
    ensures !Rep(s, r).pc.Polling? && Rep(Apply(s, step), r).pc.Polling? <==> step == Renew(r) && Leads(s, r)
    ensures step == Renew(r) && Leads(s, r) ==>
      && Rep(Apply(s, step), r).pc == Polling(Rep(s, r).pc.headAt, s.now)
      && Apply(s, step).lock == Some(Entry(r, s.now + 45.0))
    ensures Rep(s, r).pc.Polling? && Rep(Apply(s, step), r).pc != Rep(s, r).pc ==>
      step == EndPoll(r) || step == Crash(r)
  {
    OthersStay(t, s, step, r);
  }

  /** The lock goes to who acquires it while it is free or renews it while leading; only its holder lets it go. */
  lemma LockExactly(t: Timing, s: System, step: Step)
    requires Enabled(t, s, step)
    ensures Apply(s, step).lock ==
      match step
      case Acquire(r) => if s.lock.None? || s.lock.value.expires <= s.now then Some(Entry(r, s.now + 45.0)) else s.lock
      case Renew(r) => if Leads(s, r) then Some(Entry(r, s.now + 45.0)) else s.lock
      case LeaveAndRelease(r) => if Leads(s, r) then None else s.lock
      case StopReturns(r) => if Leads(s, r) then None else s.lock
      case _ => s.lock
    ensures forall r :: Leads(s, r) <==> s.lock.Some? && s.lock.value.value == r && s.now < s.lock.value.expires
  {
  }

  /** The stop event is set by stop calls and cleared by launches, and stays otherwise. */
  lemma StopEventExactly(t: Timing, s: System, step: Step, r: Id)
    requires Enabled(t, s, step)
    ensures Rep(Apply(s, step), r).stopEvent == if step == CallStop(r) then true
                                                else if step == Launch(r) then false
                                                else Rep(s, r).stopEvent
    ensures Rep(Apply(s, step), r).stopping == if step == CallStop(r) then Some(s.now)
                                               else if step in {StopReturns(r), Crash(r)} then None
                                               else Rep(s, r).stopping
    ensures step == Crash(r) ==> Rep(Apply(s, step), r).pc == Off
  {
    OthersStay(t, s, step, r);
  }

  /** These steps, one after the other, are enabled from `s` and lead to `later`. */
  predicate LeadTo(t: Timing, s: System, steps: seq<Step>, later: System)
    decreases |steps|
  {
    if steps == [] then later == s
    else Enabled(t, s, steps[0]) && LeadTo(t, Apply(s, steps[0]), steps[1..], later)
  }

  /** A replica that takes the free lock polls, once it has settled, as the leader. */
  lemma NewLeaderPolls(t: Timing, s: System, r: Id) returns (later: System)
    requires Plausible(t) && Rep(s, r).pc == Off && Rep(s, r).stopping == None && Free(s.lock, s.now)
    requires InTime(t, s, s.now + 2.0)
    ensures LeadTo(t, s, [Acquire(r), Tick(2.0), Launch(r), LookAtStop(r), Renew(r)], later)
    ensures Leads(later, r) && Rep(later, r).pc == Polling(later.now, later.now)
  {
    var a := Apply(s, Acquire(r));
    var b := Apply(a, Tick(2.0));
    var c := Apply(b, Launch(r));
    var d := Apply(c, LookAtStop(r));
    later := Apply(d, Renew(r));
    assert LeadTo(t, later, [], later);
    assert LeadTo(t, d, [Renew(r)], later);
    assert LeadTo(t, c, [LookAtStop(r), Renew(r)], later);
    assert LeadTo(t, b, [Launch(r), LookAtStop(r), Renew(r)], later);
    assert LeadTo(t, a, [Tick(2.0), Launch(r), LookAtStop(r), Renew(r)], later);
  }

  /** Without a stop call, a leader that has polled goes on to poll again. */
  lemma LeaderPollsAgain(t: Timing, s: System, r: Id) returns (later: System)
    requires Plausible(t) && Rep(s, r).pc.Polling? && Leads(s, r) && !Rep(s, r).stopEvent
    ensures LeadTo(t, s, [EndPoll(r), NextRound(r), LookAtStop(r), Renew(r)], later)
    ensures Leads(later, r) && Rep(later, r).pc == Polling(s.now, s.now) && !Rep(later, r).stopEvent
      && later.now == s.now
  {
    var a := Apply(s, EndPoll(r));
    var b := Apply(a, NextRound(r));
    var c := Apply(b, LookAtStop(r));
    later := Apply(c, Renew(r));
    assert LeadTo(t, later, [], later);
    assert LeadTo(t, c, [Renew(r)], later);
    assert LeadTo(t, b, [LookAtStop(r), Renew(r)], later);
    assert LeadTo(t, a, [NextRound(r), LookAtStop(r), Renew(r)], later);
  }

  /** A stop call ends the loop at its next look; the replica then lets the lock go and is off. */
  lemma StopCallStops(t: Timing, s: System, r: Id) returns (later: System)
    requires t.stops && Rep(s, r).pc == Working && Rep(s, r).stopping == None && Leads(s, r)
    ensures LeadTo(t, s, [CallStop(r), NextRound(r), LookAtStop(r), LeaveAndRelease(r), StopReturns(r)], later)
    ensures later.lock == None && Rep(later, r).pc == Off && Rep(later, r).stopping == None
  {
    var a := Apply(s, CallStop(r));
    var b := Apply(a, NextRound(r));
    var c := Apply(b, LookAtStop(r));
    var d := Apply(c, LeaveAndRelease(r));
    later := Apply(d, StopReturns(r));
    assert LeadTo(t, later, [], later);
    assert LeadTo(t, d, [StopReturns(r)], later);
    assert LeadTo(t, c, [LeaveAndRelease(r), StopReturns(r)], later);
    assert LeadTo(t, b, [LookAtStop(r), LeaveAndRelease(r), StopReturns(r)], later);
    assert LeadTo(t, a, [NextRound(r), LookAtStop(r), LeaveAndRelease(r), StopReturns(r)], later);
  }

  /** A replica can crash at any moment, and is never stuck: it can do what it is about to do, at times after a wait. */
  lemma NobodyIsStuck(t: Timing, s: System, r: Id)
    ensures Enabled(t, s, Crash(r))
    ensures match Rep(s, r).pc
            case Off => if Rep(s, r).stopping.Some? then Enabled(t, s, StopReturns(r)) else Enabled(t, s, Acquire(r))
            case Settling => s.now - Rep(s, r).startedAt >= 2.0 <==> Enabled(t, s, Launch(r))
            case LoopHead => Enabled(t, s, LookAtStop(r))
            case Renewing(_) => Enabled(t, s, Renew(r))
            case Polling(_, _) => Enabled(t, s, EndPoll(r))
            case Working => Enabled(t, s, NextRound(r))
            case Leaving => Enabled(t, s, LeaveAndRelease(r))
    ensures t.stops && Rep(s, r).stopping.None? && Rep(s, r).pc != Settling ==> Enabled(t, s, CallStop(r))
    ensures Rep(s, r).stopping.Some? && Rep(s, r).pc != Off ==>
      (s.now - Rep(s, r).stopping.value >= 25.0 <==> Enabled(t, s, StopReturns(r)))
  {
  }
}
