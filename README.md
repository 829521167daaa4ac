# Line framing, cache and severities of a small TCP line server

This project models the sequential core of a Go TCP line server:

- **`conn.Conn`** (module `Conn`): the per-connection line framer. `ReadLine`
  loops over the buffered reader, appending line fragments to the
  connection's accumulator `buf` until a fragment arrives that is not a
  prefix, then returns the whole accumulation and empties `buf`. An expired
  one-second read deadline is retried; cancellation of the context is checked
  at the top of every pass; any other error is returned and leaves `buf` as it
  is. `WriteLine` hands the payload plus one `'\n'` to the transport.
  The context, the deadline and the reader are replaced by a script of `Poll`
  values, one per pass of the loop: `Done(ctx.Err())`, `DeadlineFailed(err)`,
  `ReadFailed(err)` (a retry when `err` is the deadline expiry) and
  `Fragment(line, isPrefix)`. The loop is specified by the function `Run`, and
  the class method `Conn.ReadLine` is proved equal to it.
- **`cache.Cache`** (module `Cache`): a class over `map<Bytes, Bytes>` with
  `NewCache`, `Get`, `Set`, `Has` and `Del`. Keys are byte sequences compared
  by content, as the source's `string(key)` conversion does.
- **`severity.Severity`** (module `Severity`): the five log levels and their
  printed names.
- Module `CacheLocking` writes out the reader/writer lock state that one call
  of `Has` sees, for the finding below.

Two behaviours of the code are worth stating outright:

- A cancelled or failed `ReadLine` does not discard the fragments it has
  accumulated: no error path clears the `buf` field, so they stay there and
  begin the line that the next call returns
  (`Conn.InterruptedCallKeepsFragments`, `Conn.LeftoverStartsNextLine`).
- `Del` returns the stored value but never removes the key, so a `Get`
  after it still finds the entry (`Cache.Cache.Del`, `Cache.DelThenGet`).

## Model

| member | source | states |
|---|---|---|
| `Conn.Conn.New` | conn/conn.go:19-25 | a new connection starts with an empty accumulator and nothing written |
| `Conn.Conn.ReadLine` | conn/conn.go:46-78 | the loop returns exactly the result, accumulator and remaining input that `Run` gives for the old accumulator and input, and writes nothing |
| `Conn.Run` | conn/conn.go:49-77 | every call consumes at least one pass of the input and leaves the rest untouched |
| `Conn.RunStopsAtFirstFinish` | conn/conn.go:49-75 | the call returns at the first pass that finishes, after only retries and prefix fragments; on success the line is the old `buf` followed by every fragment read in order, and `buf` becomes empty; on failure the error is that pass's error and `buf` holds the old `buf` plus the fragments read; success happens exactly when the last pass was a fragment |
| `Conn.ReadDeadlineNeverReturned` | conn/conn.go:50-66 | an expired read deadline is never returned, for every input whose cancellation cause is `context.Canceled` or `context.DeadlineExceeded` and whose SetReadDeadline failures are not deadline expiries (the only ones Go produces) |
| `Conn.RetriesAreInvisible` | conn/conn.go:60-63 | removing every expired-deadline pass from the input changes neither the result nor the accumulator |
| `Conn.PendingAccumulates` | conn/conn.go:68-70 | prefix fragments are appended to `buf` in order and the loop goes on |
| `Conn.LineReassembled` | conn/conn.go:68-74 | one line split into any non-empty sequence of fragments, only the last one not a prefix, is returned whole after the old `buf`; `buf` ends empty and exactly the line's passes are consumed |
| `Conn.SplitIrrelevant` | conn/conn.go:68-74 | two splits of the same bytes into fragments give the same outcome |
| `Conn.InterruptedCallKeepsFragments` | conn/conn.go:50-66 | a cancellation, a failed SetReadDeadline or a non-deadline read error after some prefix fragments returns that error and leaves the fragments in `buf` |
| `Conn.LeftoverStartsNextLine` | conn/conn.go:50-75 | after such an interrupted call, the next call returns the leftover fragments followed by the next line |
| `Conn.Terminated` | conn/conn.go:80-81 | the wire form of a payload is the payload followed by exactly one `'\n'` |
| `Conn.TerminatedInjective` | conn/conn.go:80-81 | distinct payloads have distinct wire forms |
| `Conn.Conn.WriteLine` | conn/conn.go:80-84 | hands the transport exactly the payload plus `'\n'`, returns the write's error unchanged and leaves the reading side alone |
| `Cache.Cache.NewCache` | cache/cache.go:20-25 | a new cache holds no entries |
| `Cache.Cache.Get` | cache/cache.go:27-39 | succeeds exactly when the key is present, with the stored value; otherwise reports not-found for that key; changes nothing; keys match by byte content |
| `Cache.Cache.Set` | cache/cache.go:41-48 | the entry for the key becomes the value, every other entry is kept, and the error is always nil |
| `Cache.Cache.Has` | cache/cache.go:50-56 | true exactly when the key is present; changes nothing |
| `Cache.Cache.Del` | cache/cache.go:58-70 | reports the stored value when present and not-found otherwise, and changes nothing |
| `Cache.LookupInFreshCache` | cache/cache.go:20-39 | on a new cache, `Has` is false and `Get` reports not-found |
| `Cache.SetThenGet` | cache/cache.go:27-48 | `Set` then `Get` returns the value just stored; other entries are unchanged |
| `Cache.DelThenGet` | cache/cache.go:58-70 | `Get` after `Del` reports the same as `Del` did: the entry is still there |
| `Cache.HasAgreesWithGet` | cache/cache.go:27-56 | `Has` is true exactly when `Get` succeeds |
| `CacheLocking.HasAsWrittenIsFatal` | cache/cache.go:50-52 | as written, a `Has` that obtains the read lock, with no writer queueing for the lock during the call, ends in the runtime's fatal unlock error |
| `CacheLocking.HasLockedRestoresLock` | cache/cache.go:50-52 | with the matching read unlock, `Has` returns the lock to the state it found |
| `CacheLocking.OtherMethodsRestoreLock` | cache/cache.go:27-48 | the read-lock pairing of `Get` and the write-lock pairing of `Set` return an idle lock to idle |
| `Severity.LevelsAreConsecutive` | logging/severity/severity.go:5-11 | the five levels are the integers 0 to 4, from `Debug` up to `Fatal` |
| `Severity.String` | logging/severity/severity.go:14-27 | the name is `"UNKNOWN"` exactly for values outside the five levels |
| `Severity.StringMatchesNames` | logging/severity/severity.go:14-27 | each level prints as `DEBUG`, `INFO`, `WARN`, `ERROR` or `FATAL` in order, every other value as `UNKNOWN` |
| `Severity.StringInjective` | logging/severity/severity.go:14-27 | distinct levels have distinct names |

## Findings

| source | as written | input that shows it | evidently intended | confidence | as-written member | corrected member |
|---|---|---|---|---|---|---|
| cache/cache.go:50-52 | `Has` takes the read lock and defers the write unlock | any `Has` call on an idle cache, e.g. the lock state `RWMutex(0, false)` of a fresh cache: the write unlock finds no writer and the runtime stops the process | release with the read unlock, as `Get` does | high, not executed | `CacheLocking.HasAsWrittenIsFatal` | `CacheLocking.HasLockedRestoresLock` |

The cache class itself (`Cache.Cache.Has`) models only the lookup, that is, the corrected behaviour.

## Left out

- Conn.Conn.ReadLine: requires that some pass of the input ends the call; when the reader keeps timing out and the context is never cancelled, the source loops forever, and that divergence is not modelled.
- Conn.Run: same requirement as `ReadLine`.
- Wall-clock time: the one-second deadline is a `ReadFailed(ReadDeadlineExceeded)` pass; the bound on cancellation latency is not modelled.
- Context stickiness: once cancelled, a Go context stays cancelled; the input script does not force every later `Done` pass across calls.
- The internals of the buffered reader (how it splits the stream into fragments, its own buffer size) are not modelled; its results are the input.
- `Dial` and `Close` (conn/conn.go:27-44) are socket calls and are not modelled.
- Conn.Conn.WriteLine: records the payload handed to the transport whatever the write reports; how many bytes reached the peer on a failed write is not modelled.
- Slice aliasing: byte data are immutable values, so `Set` storing the caller's slice by reference and `WriteLine`'s `append` writing into the caller's backing array are not captured.
- Nil versus empty slices: a successful read always carries a line (the source's accumulator starts as a non-nil empty slice); error results carry no data, standing for the source's nil.
- Locking and concurrency of the cache: the reader/writer lock appears only in `CacheLocking`, for the finding; mutual exclusion between goroutines is not modelled.
- CacheLocking.HasAsWrittenIsFatal: covers a call during which no writer queues for the lock; when a concurrent `Set` or `Del` calls `Lock` between `Has`'s read lock and its unlock, Go's unlock check does not fire and the writer is left waiting instead, which the lock state here (no pending-writer count) does not represent.
- The text of the not-found error (built with `fmt.Sprint` in error/awesomeerror.go) is the value `KeyNotFound(key)`.
- server/server.go, main.go, handler/handler.go and the log rotator under logging/logrotator/ are not part of this model: they are goroutine lifecycle, signal handling, file I/O and template rendering.
