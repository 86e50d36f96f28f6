/** The Redis operations the poller uses, and the poller's helpers over them (telegram_polling.py). */
module Redis {
  import opened Prelude
  import opened Text

  /** A stored value and the moment from which it is gone. */
  datatype Entry = Entry(value: string, expires: real)

  type Keys = map<string, Entry>

  predicate IsLive(keys: Keys, key: string, now: real) {
    key in keys && now < keys[key].expires
  }

  /** `GET` */
  function Get(keys: Keys, key: string, now: real): Option<string> {
    if IsLive(keys, key, now) then Some(keys[key].value) else None
  }

  /** `SET key value NX EX ttl` */
  function SetNxEx(keys: Keys, key: string, value: string, ttl: real, now: real): Keys {
    if IsLive(keys, key, now) then keys else keys[key := Entry(value, now + ttl)]
  }

  const POLLING_LOCK_KEY := "orqestra:telegram:polling:lock"
  const POLLING_LOCK_TTL_SECONDS := 45.0
  const PROCESSED_UPDATE_PREFIX := "orqestra:telegram:processed:"
  const PROCESSED_UPDATE_TTL_SECONDS := 3600.0

  function UpdateKey(updateId: int): string {
    PROCESSED_UPDATE_PREFIX + Integer(updateId)
  }

  lemma UpdateKeyInjective(a: int, b: int)
    requires UpdateKey(a) == UpdateKey(b)
    ensures a == b
  {
    var n := |PROCESSED_UPDATE_PREFIX|;
    assert UpdateKey(a)[n..] == Integer(a) && UpdateKey(b)[n..] == Integer(b);
    IntegerInjective(a, b);
  }

  /** No update shares a key with the lock. */
  lemma LockKeyIsApart(updateId: int)
    ensures UpdateKey(updateId) != POLLING_LOCK_KEY
  {
    assert UpdateKey(updateId)[19] == 'r' && POLLING_LOCK_KEY[19] == 'o';
  }

  /** The keys once an update has been marked as seen. */
  function Marked(keys: Keys, updateId: int, now: real): Keys {
    SetNxEx(keys, UpdateKey(updateId), "1", PROCESSED_UPDATE_TTL_SECONDS, now)
  }

  // ---------------------------------------------------------------- the leader lock

  function LockIn(keys: Keys): Option<Entry> {
    if POLLING_LOCK_KEY in keys then Some(keys[POLLING_LOCK_KEY]) else None
  }

  predicate Free(lock: Option<Entry>, now: real) {
    lock.None? || lock.value.expires <= now
  }

  /** The lock is there, has not expired, and is `me`'s. */
  predicate Holds(lock: Option<Entry>, me: string, now: real) {
    lock.Some? && now < lock.value.expires && lock.value.value == me
  }

  function Taken(me: string, now: real): Option<Entry> {
    Some(Entry(me, now + POLLING_LOCK_TTL_SECONDS))
  }

  /** The lock once `me` has let go of it, if it was `me`'s. */
  function Released(lock: Option<Entry>, me: string, now: real): Option<Entry> {
    if Holds(lock, me, now) then None else lock
  }

  class Store {
    var keys: Keys

    constructor ()
      ensures keys == map[]
    {
      keys := map[];
    }

    /** `_acquire_polling_lock` */
    method AcquirePollingLock(me: string, now: real) returns (granted: bool)
      modifies this
      ensures granted == Free(LockIn(old(keys)), now)
      ensures LockIn(keys) == if granted then Taken(me, now) else LockIn(old(keys))
      ensures keys == if granted then old(keys)["orqestra:telegram:polling:lock" := Entry(me, now + 45.0)]
        else old(keys)
      ensures keys - {POLLING_LOCK_KEY} == old(keys) - {POLLING_LOCK_KEY}
    {
      granted := !IsLive(keys, POLLING_LOCK_KEY, now);
      keys := SetNxEx(keys, POLLING_LOCK_KEY, me, POLLING_LOCK_TTL_SECONDS, now);
    }

    /** `_renew_polling_lock`, its get and expire taken as one step */
    method RenewPollingLock(me: string, now: real) returns (renewed: bool)
      modifies this
      ensures renewed == Holds(LockIn(old(keys)), me, now)
      ensures LockIn(keys) == if renewed then Taken(me, now) else LockIn(old(keys))
      ensures keys == if renewed then old(keys)["orqestra:telegram:polling:lock" := Entry(me, now + 45.0)]
        else old(keys)
      ensures keys - {POLLING_LOCK_KEY} == old(keys) - {POLLING_LOCK_KEY}
    {
      var current := Get(keys, POLLING_LOCK_KEY, now);
      if current != Some(me) {
        return false;
      }
      keys := keys[POLLING_LOCK_KEY := keys[POLLING_LOCK_KEY].(expires := now + POLLING_LOCK_TTL_SECONDS)];
      renewed := true;
    }

    /** `_release_polling_lock`, its get and delete taken as one step */
    method ReleasePollingLock(me: string, now: real)
      modifies this
      ensures LockIn(keys) == Released(LockIn(old(keys)), me, now)
      ensures keys - {POLLING_LOCK_KEY} == old(keys) - {POLLING_LOCK_KEY}
    {
      if Get(keys, POLLING_LOCK_KEY, now) == Some(me) {
        keys := keys - {POLLING_LOCK_KEY};
      }
    }

    /** `_mark_update_seen`: true when the update is new */
    method MarkUpdateSeen(updateId: int, now: real) returns (isNew: bool)
      modifies this
      ensures isNew == !IsLive(old(keys), UpdateKey(updateId), now)
      ensures keys == Marked(old(keys), updateId, now)
      ensures var key := "orqestra:telegram:processed:" + Integer(updateId);
        keys == if isNew then old(keys)[key := Entry("1", now + 3600.0)] else old(keys)
      ensures LockIn(keys) == LockIn(old(keys))
    {
      LockKeyIsApart(updateId);
      isNew := !IsLive(keys, UpdateKey(updateId), now);
      keys := SetNxEx(keys, UpdateKey(updateId), "1", PROCESSED_UPDATE_TTL_SECONDS, now);
    }
  }
}
