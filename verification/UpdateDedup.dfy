/**
 Which Telegram updates reach the worker (telegram_polling.py): marking an update in Redis, under any
 interleaving of any number of replicas, and the loop over one batch with its offset.
 */
module UpdateDedup {
  import opened Prelude
  import opened Redis

  // ---------------------------------------------------------------- all replicas

  /** An integer update id and the moment it was handed to the worker. */
  datatype Handed = Handed(updateId: int, at: real)

  datatype System = System(keys: Keys, now: real, handed: seq<Handed>)

  const START := System(map[], 0.0, [])

  datatype Step =
    | Tick(seconds: real)
    | Deliver(updateId: int)          // some replica enqueues an update with this id
    | ChangeLock(lock: Option<Entry>) // some replica takes, renews, or releases the leader lock

  predicate Enabled(step: Step) {
    step.Tick? ==> step.seconds >= 0.0
  }

  function Apply(s: System, step: Step): System {
    match step
    case Tick(seconds) => s.(now := s.now + seconds)
    case Deliver(id) =>
      s.(keys := Marked(s.keys, id, s.now),
         handed := if IsLive(s.keys, UpdateKey(id), s.now) then s.handed else s.handed + [Handed(id, s.now)])
    case ChangeLock(lock) =>
      s.(keys := if lock.None? then s.keys - {POLLING_LOCK_KEY} else s.keys[POLLING_LOCK_KEY := lock.value])
  }

  function After(steps: seq<Step>): System {
    if steps == [] then START else Apply(After(steps[..|steps| - 1]), steps[|steps| - 1])
  }

  predicate Run(steps: seq<Step>) {
    forall i :: 0 <= i < |steps| ==> Enabled(steps[i])
  }

  /** What a step touches: ticks the clock, deliveries the marks and hand-overs, lock changes the lock alone. */
  lemma StepsExactly(s: System, step: Step)
    ensures Apply(s, step).now == s.now + if step.Tick? then step.seconds else 0.0
    ensures !step.Deliver? ==> Apply(s, step).handed == s.handed
    ensures step.ChangeLock? ==> LockIn(Apply(s, step).keys) == step.lock
    ensures !step.ChangeLock? ==> LockIn(Apply(s, step).keys) == LockIn(s.keys)
    ensures forall id :: step.ChangeLock? || step.Tick? || step.updateId != id ==>
      (UpdateKey(id) in Apply(s, step).keys <==> UpdateKey(id) in s.keys)
      && (UpdateKey(id) in s.keys ==> Apply(s, step).keys[UpdateKey(id)] == s.keys[UpdateKey(id)])
  {
    forall id ensures UpdateKey(id) != POLLING_LOCK_KEY {
      LockKeyIsApart(id);
    }
    if step.Deliver? {
      forall id | UpdateKey(id) == UpdateKey(step.updateId) ensures id == step.updateId {
        UpdateKeyInjective(id, step.updateId);
      }
    }
  }

  predicate RecentlyHanded(s: System, id: int) {
    exists h :: h in s.handed && h.updateId == id && s.now < h.at + PROCESSED_UPDATE_TTL_SECONDS
  }

  /** Two hand-overs of one id are at least 3600 s apart. */
  predicate Spaced(handed: seq<Handed>) {
    forall i, j :: 0 <= i < j < |handed| && handed[i].updateId == handed[j].updateId ==>
      handed[j].at >= handed[i].at + PROCESSED_UPDATE_TTL_SECONDS
  }

  /** A mark in Redis is a hand-over's. */
  predicate MarkOk(s: System, id: int) {
    UpdateKey(id) in s.keys ==> Handed(id, s.keys[UpdateKey(id)].expires - PROCESSED_UPDATE_TTL_SECONDS) in s.handed
  }

  /** A hand-over is marked for as long as it lasts. */
  predicate HandedOk(s: System, h: Handed) {
    && h.at <= s.now
    && UpdateKey(h.updateId) in s.keys
    && s.keys[UpdateKey(h.updateId)].expires >= h.at + PROCESSED_UPDATE_TTL_SECONDS
  }

  ghost predicate Marks(s: System) {
    && (forall id :: MarkOk(s, id))
    && (forall h :: h in s.handed ==> HandedOk(s, h))
  }

  lemma LiveMeansRecent(s: System, id: int)
    requires Marks(s)
    ensures IsLive(s.keys, UpdateKey(id), s.now) <==> RecentlyHanded(s, id)
  {
    assert MarkOk(s, id);
    if IsLive(s.keys, UpdateKey(id), s.now) {
      var h := Handed(id, s.keys[UpdateKey(id)].expires - PROCESSED_UPDATE_TTL_SECONDS);
      assert h in s.handed && h.updateId == id;
    }
  }

  lemma MarkStays(s: System, step: Step, id: int)
    requires MarkOk(s, id)
    ensures MarkOk(Apply(s, step), id)
  {
    LockKeyIsApart(id);
    if step.Deliver? && UpdateKey(step.updateId) == UpdateKey(id) {
      UpdateKeyInjective(step.updateId, id);
    }
  }

  lemma HandedStays(s: System, step: Step, h: Handed)
    requires HandedOk(s, h) && Enabled(step)
    ensures HandedOk(Apply(s, step), h)
  {
    LockKeyIsApart(h.updateId);
  }

  lemma MarksStay(s: System, step: Step)
    requires Marks(s) && Enabled(step)
    ensures Marks(Apply(s, step))
  {
    var next := Apply(s, step);
    forall id ensures MarkOk(next, id) {
      MarkStays(s, step, id);
    }
    forall h | h in next.handed ensures HandedOk(next, h) {
      if h in s.handed {
        HandedStays(s, step, h);
      }
    }
  }

  lemma SpacedStays(s: System, step: Step)
    requires Marks(s) && Spaced(s.handed) && Enabled(step)
    ensures Spaced(Apply(s, step).handed)
  {
    if step.Deliver? {
      LiveMeansRecent(s, step.updateId);
    }
  }

  lemma {:induction false} RunKeepsMarks(steps: seq<Step>)
    requires Run(steps)
    ensures Marks(After(steps)) && Spaced(After(steps).handed)
  {
    if steps != [] {
      RunKeepsMarks(steps[..|steps| - 1]);
      MarksStay(After(steps[..|steps| - 1]), steps[|steps| - 1]);
      SpacedStays(After(steps[..|steps| - 1]), steps[|steps| - 1]);
    }
  }

  /**
   Over every interleaving, an id is handed over exactly when it was not in the last 3600 s: at most once
   in any such window, and never withheld for longer.
   */
  lemma HandedOncePerWindow(steps: seq<Step>, id: int)
    requires Run(steps)
    ensures var s := After(steps);
      && (forall i, j :: 0 <= i < j < |s.handed| && s.handed[i].updateId == s.handed[j].updateId ==>
            s.handed[j].at - s.handed[i].at >= 3600.0)
      && Apply(s, Deliver(id)).handed == 
        if exists h :: h in s.handed && h.updateId == id && s.now - h.at < 3600.0 then s.handed
        else s.handed + [Handed(id, s.now)]
  {
    RunKeepsMarks(steps);
    LiveMeansRecent(After(steps), id);
  }

  // ---------------------------------------------------------------- one poll loop

  /** One element of getUpdates' result; `id` is absent when it is not an integer. */
  datatype Update = NotADict | Dict(id: Option<int>, body: string)

  /** What a loop has done: the keys it left, the offset it asks for next, what it handed to the worker. */
  datatype Progress = Progress(keys: Keys, offset: Option<int>, enqueued: seq<Update>)

  function Handle(p: Progress, update: Update, now: real): Progress {
    match update
    case NotADict => p
    case Dict(None, _) => p.(enqueued := p.enqueued + [update])
    case Dict(Some(id), _) =>
      Progress(
        Marked(p.keys, id, now),
        Some(id + 1),
        if IsLive(p.keys, UpdateKey(id), now) then p.enqueued else p.enqueued + [update])
  }

  function HandleAll(p: Progress, updates: seq<Update>, now: real): Progress {
    if updates == [] then p else Handle(HandleAll(p, updates[..|updates| - 1], now), updates[|updates| - 1], now)
  }

  predicate HasId(update: Update, id: int) {
    update.Dict? && update.id == Some(id)
  }

  /** Update `i` goes to the worker: a dict, and new if it has an id. */
  predicate Accepted(keys: Keys, updates: seq<Update>, i: nat, now: real)
    requires i < |updates|
  {
    updates[i].Dict? && (updates[i].id.Some? ==>
      && !IsLive(keys, UpdateKey(updates[i].id.value), now)
      && !Contains(updates[..i], updates[i].id.value))
  }

  /** The accepted ones, in order. */
  function AcceptedOnes(keys: Keys, updates: seq<Update>, n: nat, now: real): seq<Update>
    requires n <= |updates|
  {
    if n == 0 then []
    else AcceptedOnes(keys, updates, n - 1, now) + if Accepted(keys, updates, n - 1, now) then [updates[n - 1]] else []
  }

  predicate Contains(updates: seq<Update>, id: int) {
    exists i :: 0 <= i < |updates| && HasId(updates[i], id)
  }

  lemma ContainsAppend(updates: seq<Update>, last: Update, id: int)
    ensures Contains(updates + [last], id) <==> Contains(updates, id) || HasId(last, id)
  {
    var all := updates + [last];
    assert all[|updates|] == last;
    forall i | 0 <= i < |updates| && HasId(updates[i], id) ensures Contains(all, id) {
      assert all[i] == updates[i];
    }
  }

  lemma LiveAfterOne(p: Progress, update: Update, now: real, id: int)
    ensures IsLive(Handle(p, update, now).keys, UpdateKey(id), now)
       <==> IsLive(p.keys, UpdateKey(id), now) || HasId(update, id)
  {
    if update.Dict? && update.id.Some? && UpdateKey(update.id.value) == UpdateKey(id) {
      UpdateKeyInjective(update.id.value, id);
    }
  }

  lemma {:induction false} LiveAfterBatch(p: Progress, updates: seq<Update>, now: real, id: int)
    ensures IsLive(HandleAll(p, updates, now).keys, UpdateKey(id), now)
       <==> IsLive(p.keys, UpdateKey(id), now) || Contains(updates, id)
  {
    if updates != [] {
      var init, last := updates[..|updates| - 1], updates[|updates| - 1];
      LiveAfterBatch(p, init, now, id);
      LiveAfterOne(HandleAll(p, init, now), last, now, id);
      ContainsAppend(init, last, id);
      assert updates == init + [last];
    }
  }

  /** A batch hands over each new id once, at its first place, and whatever has no id, in order. */
  lemma {:induction false} BatchHandsOver(p: Progress, updates: seq<Update>, n: nat, now: real)
    requires n <= |updates|
    ensures HandleAll(p, updates[..n], now).enqueued == p.enqueued + AcceptedOnes(p.keys, updates, n, now)
  {
    if n > 0 {
      BatchHandsOver(p, updates, n - 1, now);
      assert updates[..n][..n - 1] == updates[..n - 1];
      if updates[n - 1].Dict? && updates[n - 1].id.Some? {
        LiveAfterBatch(p, updates[..n - 1], now, updates[n - 1].id.value);
      }
    }
  }

  /** Ids grow within the batch and start from the offset that was asked for. */
  predicate Ascending(offset: Option<int>, updates: seq<Update>) {
    && (forall i, j :: 0 <= i < j < |updates| && IdOf(updates[i]).Some? && IdOf(updates[j]).Some? ==>
      IdOf(updates[i]).value <= IdOf(updates[j]).value)
    && (offset.Some? ==> forall u :: u in updates && IdOf(u).Some? ==> IdOf(u).value >= offset.value)
  }

  function IdOf(update: Update): Option<int> {
    if update.Dict? then update.id else None
  }

  predicate Above(offset: Option<int>, updates: seq<Update>) {
    forall u :: u in updates && IdOf(u).Some? ==> offset.Some? && offset.value > IdOf(u).value
  }

  /** The next request asks for what follows the last id of the batch. */
  lemma {:induction false} OffsetAfterBatch(p: Progress, updates: seq<Update>, now: real)
    ensures var offset := HandleAll(p, updates, now).offset;
      || (offset == p.offset && forall u :: u in updates ==> IdOf(u).None?)
      || exists k :: 0 <= k < |updates| && IdOf(updates[k]).Some? && offset == Some(IdOf(updates[k]).value + 1)
                     && forall j :: k < j < |updates| ==> IdOf(updates[j]).None?
  {
    if updates != [] {
      var init, last := updates[..|updates| - 1], updates[|updates| - 1];
      OffsetAfterBatch(p, init, now);
      assert updates == init + [last];
      if IdOf(last).Some? {
        assert IdOf(updates[|updates| - 1]).Some?;
      }
    }
  }

  /** A loop that polls batch after batch. */
  function Loop(p: Progress, batches: seq<(seq<Update>, real)>): Progress {
    if batches == [] then p
    else
      var last := batches[|batches| - 1];
      HandleAll(Loop(p, batches[..|batches| - 1]), last.0, last.1)
  }

  ghost predicate AscendingBatches(p: Progress, batches: seq<(seq<Update>, real)>) {
    forall i :: 0 <= i < |batches| ==> Ascending(Loop(p, batches[..i]).offset, batches[i].0)
  }

  /** What is below the offset stays below it. */
  lemma AboveStays(p: Progress, updates: seq<Update>, now: real, earlier: seq<Update>)
    requires Ascending(p.offset, updates)
    ensures Above(HandleAll(p, updates, now).offset, updates)
    ensures Above(p.offset, earlier) ==> Above(HandleAll(p, updates, now).offset, earlier)
  {
    OffsetAfterBatch(p, updates, now);
  }

  lemma AscendingInit(p: Progress, batches: seq<(seq<Update>, real)>)
    requires AscendingBatches(p, batches) && batches != []
    ensures AscendingBatches(p, batches[..|batches| - 1])
  {
    var init := batches[..|batches| - 1];
    forall j | 0 <= j < |init| ensures Ascending(Loop(p, init[..j]).offset, init[j].0) {
      assert init[..j] == batches[..j];
    }
  }

  /** With ascending batches the offset stays above every id of every batch so far. */
  lemma {:induction false} OffsetStaysAbove(p: Progress, batches: seq<(seq<Update>, real)>, i: nat)
    requires AscendingBatches(p, batches) && i < |batches|
    ensures Above(Loop(p, batches).offset, batches[i].0)
    ensures forall u, id :: u in batches[i].0 && HasId(u, id) ==>
      Loop(p, batches).offset.Some? && Loop(p, batches).offset.value > id
  {
    var n := |batches| - 1;
    assert Ascending(Loop(p, batches[..n]).offset, batches[n].0);
    AboveStays(Loop(p, batches[..n]), batches[n].0, batches[n].1, batches[i].0);
    if i < n {
      AscendingInit(p, batches);
      OffsetStaysAbove(p, batches[..n], i);
    }
  }

  /** What getUpdates gave. */
  datatype Outcome = Updates(updates: seq<Update>) | Conflict | Failure

  const FIRST_BACKOFF := 5
  const LONGEST_BACKOFF := 60

  class Poller {
    const store: Store
    var offset: Option<int>
    var conflictBackoff: nat
    var enqueued: seq<Update>

    constructor (store: Store)
      ensures this.store == store && offset == None && conflictBackoff == 5 && enqueued == []
    {
      this.store := store;
      offset, conflictBackoff, enqueued := None, FIRST_BACKOFF, [];
    }

    ghost function Done(): Progress
      reads this, store
    {
      Progress(store.keys, offset, enqueued)
    }

    /** `_enqueue_telegram_update` */
    method Enqueue(update: Update, now: real)
      requires update.Dict?
      modifies this`enqueued, store
      ensures Done() == Handle(old(Done()), update, now).(offset := offset)
    {
      if update.id.Some? {
        var isNew := store.MarkUpdateSeen(update.id.value, now);
        if !isNew {
          return;
        }
      }
      enqueued := enqueued + [update];
    }

    /** One round of `_poll_loop`, from getUpdates on; it then sleeps for `pause` seconds. */
    method Round(outcome: Outcome, now: real) returns (pause: nat)
      modifies this, store
      ensures outcome.Updates? ==> Done() == HandleAll(old(Done()), outcome.updates, now)
      ensures !outcome.Updates? ==> Done() == old(Done())
      ensures conflictBackoff == match outcome
        case Updates(_) => 5
        case Conflict => if old(conflictBackoff) >= 30 then 60 else 2 * old(conflictBackoff)
        case Failure => old(conflictBackoff)
      ensures pause == match outcome
        case Updates(_) => 0
        case Conflict => old(conflictBackoff)
        case Failure => 5
    {
      match outcome
      case Updates(updates) =>
        conflictBackoff, pause := FIRST_BACKOFF, 0;
        for i := 0 to |updates|
          invariant Done() == HandleAll(old(Done()), updates[..i], now)
          invariant conflictBackoff == FIRST_BACKOFF
        {
          assert updates[..i + 1][..i] == updates[..i];
          if updates[i].Dict? {
            if updates[i].id.Some? {
              offset := Some(updates[i].id.value + 1);
            }
            Enqueue(updates[i], now);
          }
        }
        assert updates[..|updates|] == updates;
      case Conflict =>
        pause := conflictBackoff;
        conflictBackoff := Min(conflictBackoff * 2, LONGEST_BACKOFF);
      case Failure =>
        pause := 5;
    }
  }
}
