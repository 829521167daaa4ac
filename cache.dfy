/** The in-memory key/value store (package cache). Keys are looked up by
    their byte content; values are stored as given. */
module Cache {
  import opened Types

  class Cache {
    /** The stored entries. */
    var data: map<Bytes, Bytes>

    /** A cache with no entries. */
    constructor NewCache()
      ensures data == map[]
    {
      data := map[];
    }

    /** The value stored under `key`, or a not-found error naming the key. */
    method Get(key: Bytes) returns (r: Result<Bytes>)
      ensures r.Ok? <==> key in data
      ensures key in data ==> r.value == data[key]
      ensures key !in data ==> r.error == KeyNotFound(key)
    {
      if key !in data {
        return Err(KeyNotFound(key));
      }
      return Ok(data[key]);
    }

    /** Stores `value` under `key`, replacing any earlier value; never fails. */
    method Set(key: Bytes, value: Bytes) returns (err: Option<Error>)
      modifies this
      ensures data == old(data)[key := value]
      ensures err == None
    {
      data := data[key := value];
      return None;
    }

    /** Whether an entry is stored under `key`. */
    method Has(key: Bytes) returns (present: bool)
      ensures present <==> key in data
    {
      present := key in data;
    }

    /** Reports the value stored under `key`, or a not-found error naming the
        key. The entry is NOT removed: the method changes nothing. */
    method Del(key: Bytes) returns (r: Result<Bytes>)
      ensures r.Ok? <==> key in data
      ensures key in data ==> r.value == data[key]
      ensures key !in data ==> r.error == KeyNotFound(key)
    {
      if key !in data {
        return Err(KeyNotFound(key));
      }
      return Ok(data[key]);
    }
  }

  /** A fresh cache knows no key: Has is false and Get reports not-found. */
  method LookupInFreshCache(key: Bytes) returns (present: bool, got: Result<Bytes>)
    ensures !present
    ensures got == Err(KeyNotFound(key))
  {
    var c := new Cache.NewCache();
    present := c.Has(key);
    got := c.Get(key);
  }

  /** Set followed by Get returns the value just stored, with no error, and
      every other entry is as it was. */
  method SetThenGet(c: Cache, key: Bytes, value: Bytes) returns (setErr: Option<Error>, got: Result<Bytes>)
    modifies c
    ensures setErr == None && got == Ok(value)
    ensures c.data.Keys == old(c.data.Keys) + {key}
    ensures forall k :: k in old(c.data) && k != key ==> c.data[k] == old(c.data[k])
  {
    setErr := c.Set(key, value);
    got := c.Get(key);
  }

  /** Del followed by Get: both report the same thing, because Del leaves the
      entry in place. */
  method DelThenGet(c: Cache, key: Bytes) returns (deleted: Result<Bytes>, got: Result<Bytes>)
    ensures deleted == got
    ensures key in c.data ==> got == Ok(c.data[key])
    ensures key !in c.data ==> got == Err(KeyNotFound(key))
  {
    deleted := c.Del(key);
    got := c.Get(key);
  }

  /** Has agrees with Get: a key is present exactly when Get finds it. */
  method HasAgreesWithGet(c: Cache, key: Bytes) returns (present: bool, got: Result<Bytes>)
    ensures present <==> got.Ok?
    ensures !present ==> got == Err(KeyNotFound(key))
  {
    present := c.Has(key);
    got := c.Get(key);
  }
}

/** The reader/writer lock around the cache, reduced to the state a single
    call sees, to exhibit how `Has` releases it. */
module CacheLocking {

  /** A sync.RWMutex: how many readers hold it, and whether a writer does. */
  datatype RWMutex = RWMutex(readers: nat, writing: bool)

  /** The state after a lock operation: running on, waiting for the lock,
      or stopped by the Go runtime's fatal error. */
  datatype Step = Running(m: RWMutex) | Blocked | Fatal

  /** RLock waits while a writer holds the lock. */
  function RLock(m: RWMutex): Step {
    if m.writing then Blocked else Running(m.(readers := m.readers + 1))
  }

  /** RUnlock without a reader is a fatal error. */
  function RUnlock(m: RWMutex): Step {
    if m.readers == 0 then Fatal else Running(m.(readers := m.readers - 1))
  }

  /** Lock waits while anyone holds the lock. */
  function Lock(m: RWMutex): Step {
    if m.writing || m.readers > 0 then Blocked else Running(m.(writing := true))
  }

  /** Unlock without a writer ("Unlock of unlocked RWMutex") is a fatal error. */
  function Unlock(m: RWMutex): Step {
    if !m.writing then Fatal else Running(m.(writing := false))
  }

  /** Runs `release` after `acquire` when `acquire` did not block or fail. */
  function Then(s: Step, release: RWMutex -> Step): Step {
    match s
    case Running(m) => release(m)
    case _ => s
  }

  /** The locking of `Has` as written: RLock, then a deferred Unlock. */
  function HasAsWritten(m: RWMutex): Step {
    Then(RLock(m), Unlock)
  }

  /** The locking of `Has` with the matching RUnlock, as Get does. */
  function HasLocked(m: RWMutex): Step {
    Then(RLock(m), RUnlock)
  }

  /** A call of `Has` that gets the read lock, with no writer queueing for
      the lock during the call, ends in a fatal error. */
  lemma HasAsWrittenIsFatal(m: RWMutex)
    requires !m.writing
    ensures HasAsWritten(m) == Fatal
  {
  }

  /** With RUnlock, `Has` gives the lock back exactly as it found it. */
  lemma HasLockedRestoresLock(m: RWMutex)
    requires !m.writing
    ensures HasLocked(m) == Running(m)
  {
  }

  /** Get's RLock/RUnlock and Set's Lock/Unlock also restore an idle lock. */
  lemma OtherMethodsRestoreLock(m: RWMutex)
    requires !m.writing && m.readers == 0
    ensures Then(RLock(m), RUnlock) == Running(m)
    ensures Then(Lock(m), Unlock) == Running(m)
  {
  }
}
