/** Line framing over one connection (package conn).

    `ReadLine` loops: it checks the cancellation context, arms a read
    deadline, asks the buffered reader for the next line fragment, appends the
    fragment to the accumulator `buf`, and returns the whole accumulation once
    a fragment arrives that is not a prefix. The socket, the clock and the
    buffered reader are not modelled; what they do on each pass of the loop
    is given as a script of `Poll` values, one per pass. */
module Conn {
  import opened Types

  /** What one pass of the `ReadLine` loop observes. */
  datatype Poll =
    | Done(cause: Error)                   // the context is cancelled; cause is ctx.Err()
    | DeadlineFailed(err: Error)           // SetReadDeadline returned err
    | ReadFailed(err: Error)               // the reader returned err (ReadDeadlineExceeded when the deadline expired)
    | Fragment(line: Bytes, isPrefix: bool) // the reader returned a fragment; isPrefix: the line goes on

  /** A pass that expired its read deadline: the loop goes round again. */
  predicate IsRetry(p: Poll) {
    p.ReadFailed? && p.err == ReadDeadlineExceeded
  }

  /** A pass after which `ReadLine` returns. */
  predicate Finishes(p: Poll) {
    match p
    case Fragment(_, isPrefix) => !isPrefix
    case ReadFailed(e) => e != ReadDeadlineExceeded
    case _ => true
  }

  /** The error a failing pass reports. */
  function ErrorOf(p: Poll): Error
    requires !p.Fragment?
  {
    match p
    case Done(e) => e
    case DeadlineFailed(e) => e
    case ReadFailed(e) => e
  }

  /** The bytes a pass appends to the accumulator. */
  function LineOf(p: Poll): Bytes {
    if p.Fragment? then p.line else []
  }

  /** Everything the passes in `polls` append, in order. */
  function Received(polls: seq<Poll>): Bytes
    decreases |polls|
  {
    if polls == [] then [] else LineOf(polls[0]) + Received(polls[1..])
  }

  /** Some pass in `polls` ends the call. Without one the source's loop runs forever. */
  predicate Ends(polls: seq<Poll>)
    decreases |polls|
  {
    |polls| > 0 && (Finishes(polls[0]) || Ends(polls[1..]))
  }

  /** What one `ReadLine` call leaves behind: its result, the accumulator,
      and the passes not yet consumed. */
  datatype Outcome = Outcome(result: Result<Bytes>, buf: Bytes, rest: seq<Poll>)

  /** The `ReadLine` loop as a function of the accumulator and the script. */
  function Run(buf: Bytes, polls: seq<Poll>): (o: Outcome)
    requires Ends(polls)
    ensures |o.rest| < |polls| && o.rest == polls[|polls| - |o.rest|..]
    decreases |polls|
  {
    var rest := polls[1..];
    match polls[0]
    case Done(cause) => Outcome(Err(cause), buf, rest)
    case DeadlineFailed(err) => Outcome(Err(err), buf, rest)
    case ReadFailed(err) =>
      if err == ReadDeadlineExceeded then Run(buf, rest) else Outcome(Err(err), buf, rest)
    case Fragment(line, isPrefix) =>
      if isPrefix then Run(buf + line, rest) else Outcome(Ok(buf + line), [], rest)
  }

  /** One call returns after the first pass that finishes, and every pass
      before it either retried or appended a prefix fragment. On success the
      line is the old accumulator followed by every fragment read, and the
      accumulator is emptied; on failure the error is the failing pass's own
      and the accumulator keeps every fragment appended by the call. */
  lemma {:induction false} RunStopsAtFirstFinish(buf: Bytes, polls: seq<Poll>)
    requires Ends(polls)
    ensures var o := Run(buf, polls); var k := |polls| - |o.rest|;
      && Finishes(polls[k - 1])
      && (forall i :: 0 <= i < k - 1 ==> !Finishes(polls[i]))
      && (o.result.Ok? <==> polls[k - 1].Fragment?)
      && (o.result.Ok? ==> o.result.value == buf + Received(polls[..k]) && o.buf == [])
      && (o.result.Err? ==> o.result.error == ErrorOf(polls[k - 1]) && o.buf == buf + Received(polls[..k]))
    decreases |polls|
  {
    var o := Run(buf, polls);
    var k := |polls| - |o.rest|;
    var p := polls[0];
    assert Received(polls[..k]) == LineOf(p) + Received(polls[..k][1..]);
    if Finishes(p) {
      assert k == 1;
      assert Received(polls[..k][1..]) == [];
    } else {
      var next := buf + LineOf(p);
      assert Run(buf, polls) == Run(next, polls[1..]) by {
        if p.ReadFailed? { assert next == buf; }
      }
      RunStopsAtFirstFinish(next, polls[1..]);
      assert polls[..k][1..] == polls[1..][..k - 1];
      forall i | 0 <= i < k - 1
        ensures !Finishes(polls[i])
      {
        if i > 0 { assert polls[i] == polls[1..][i - 1]; }
      }
    }
  }

  /** A pass the environment can produce: ctx.Err() is only ever Canceled or
      ContextDeadlineExceeded, and SetReadDeadline does not report an
      expired deadline. */
  predicate Possible(p: Poll) {
    match p
    case Done(cause) => cause == Canceled || cause == ContextDeadlineExceeded
    case DeadlineFailed(err) => err != ReadDeadlineExceeded
    case _ => true
  }

  /** An expired read deadline is never returned to the caller. */
  lemma ReadDeadlineNeverReturned(buf: Bytes, polls: seq<Poll>)
    requires Ends(polls)
    requires forall i :: 0 <= i < |polls| ==> Possible(polls[i])
    ensures Run(buf, polls).result != Err(ReadDeadlineExceeded)
  {
    RunStopsAtFirstFinish(buf, polls);
  }

  /** The script with every deadline-expired pass removed. */
  function WithoutRetries(polls: seq<Poll>): seq<Poll>
    decreases |polls|
  {
    if polls == [] then []
    else (if IsRetry(polls[0]) then [] else [polls[0]]) + WithoutRetries(polls[1..])
  }

  /** Deadline expiries are invisible: removing them changes neither the
      result nor the accumulator, and consumes the same other passes. */
  lemma {:induction false} RetriesAreInvisible(buf: Bytes, polls: seq<Poll>)
    requires Ends(polls)
    ensures Ends(WithoutRetries(polls))
    ensures var o, o' := Run(buf, polls), Run(buf, WithoutRetries(polls));
      o'.result == o.result && o'.buf == o.buf && o'.rest == WithoutRetries(o.rest)
    decreases |polls|
  {
    var p := polls[0];
    if IsRetry(p) {
      assert WithoutRetries(polls) == WithoutRetries(polls[1..]);
      RetriesAreInvisible(buf, polls[1..]);
    } else {
      assert WithoutRetries(polls) == [p] + WithoutRetries(polls[1..]);
      assert ([p] + WithoutRetries(polls[1..]))[1..] == WithoutRetries(polls[1..]);
      if !Finishes(p) {
        RetriesAreInvisible(buf + p.line, polls[1..]);
      }
    }
  }

  /** The concatenation of byte chunks. */
  function Flatten(parts: seq<Bytes>): Bytes
    decreases |parts|
  {
    if parts == [] then [] else parts[0] + Flatten(parts[1..])
  }

  lemma {:induction false} FlattenAppend(parts: seq<Bytes>, last: Bytes)
    ensures Flatten(parts + [last]) == Flatten(parts) + last
    decreases |parts|
  {
    if parts == [] {
      assert [] + [last] == [last];
    } else {
      assert (parts + [last])[1..] == parts[1..] + [last];
      FlattenAppend(parts[1..], last);
    }
  }

  /** The passes that deliver `parts` as fragments of a line that goes on. */
  function Pending(parts: seq<Bytes>): seq<Poll>
    decreases |parts|
  {
    if parts == [] then [] else [Fragment(parts[0], true)] + Pending(parts[1..])
  }

  /** The passes that deliver one whole line split into `parts`: only the
      last fragment ends the line. */
  function LineSplit(parts: seq<Bytes>): seq<Poll>
    requires |parts| > 0
  {
    Pending(parts[..|parts| - 1]) + [Fragment(parts[|parts| - 1], false)]
  }

  /** Prefix fragments are appended to the accumulator and the call goes on. */
  lemma {:induction false} PendingAccumulates(buf: Bytes, parts: seq<Bytes>, tail: seq<Poll>)
    requires Ends(tail)
    ensures Ends(Pending(parts) + tail)
    ensures Run(buf, Pending(parts) + tail) == Run(buf + Flatten(parts), tail)
    decreases |parts|
  {
    if parts == [] {
      assert Pending(parts) + tail == tail;
      assert buf + Flatten(parts) == buf;
    } else {
      var polls := Pending(parts) + tail;
      assert polls[0] == Fragment(parts[0], true);
      assert polls[1..] == Pending(parts[1..]) + tail;
      PendingAccumulates(buf + parts[0], parts[1..], tail);
      assert buf + parts[0] + Flatten(parts[1..]) == buf + Flatten(parts);
    }
  }

  /** Framing correctness: however one line is split into fragments, the
      call returns the old accumulator followed by the whole line, empties
      the accumulator, and consumes exactly the line's passes. */
  lemma LineReassembled(buf: Bytes, parts: seq<Bytes>, tail: seq<Poll>)
    requires |parts| > 0
    ensures Ends(LineSplit(parts) + tail)
    ensures Run(buf, LineSplit(parts) + tail) == Outcome(Ok(buf + Flatten(parts)), [], tail)
  {
    var init, last := parts[..|parts| - 1], parts[|parts| - 1];
    var stop := [Fragment(last, false)] + tail;
    assert stop[1..] == tail;
    PendingAccumulates(buf, init, stop);
    assert LineSplit(parts) + tail == Pending(init) + stop;
    assert parts == init + [last];
    FlattenAppend(init, last);
    assert Run(buf + Flatten(init), stop) == Outcome(Ok(buf + Flatten(init) + last), [], tail);
    assert buf + Flatten(init) + last == buf + Flatten(parts);
  }

  /** Two splits of the same bytes produce the same call outcome. */
  lemma SplitIrrelevant(buf: Bytes, parts: seq<Bytes>, parts': seq<Bytes>, tail: seq<Poll>)
    requires |parts| > 0 && |parts'| > 0
    requires Flatten(parts) == Flatten(parts')
    ensures Ends(LineSplit(parts) + tail) && Ends(LineSplit(parts') + tail)
    ensures Run(buf, LineSplit(parts) + tail) == Run(buf, LineSplit(parts') + tail)
  {
    LineReassembled(buf, parts, tail);
    LineReassembled(buf, parts', tail);
  }

  /** A call that is cancelled, fails to arm its deadline or fails to read,
      after appending some prefix fragments, returns that error and leaves the
      fragments in the accumulator. */
  lemma InterruptedCallKeepsFragments(buf: Bytes, parts: seq<Bytes>, stop: Poll, tail: seq<Poll>)
    requires Finishes(stop) && !stop.Fragment?
    ensures Ends(Pending(parts) + [stop] + tail)
    ensures Run(buf, Pending(parts) + [stop] + tail)
         == Outcome(Err(ErrorOf(stop)), buf + Flatten(parts), tail)
  {
    var rest := [stop] + tail;
    assert rest[1..] == tail;
    PendingAccumulates(buf, parts, rest);
    assert Pending(parts) + [stop] + tail == Pending(parts) + rest;
  }

  /** The fragments an interrupted call left behind start the line that the
      next call returns. */
  lemma LeftoverStartsNextLine(buf: Bytes, parts: seq<Bytes>, stop: Poll, line: seq<Bytes>, tail: seq<Poll>)
    requires Finishes(stop) && !stop.Fragment?
    requires |line| > 0
    ensures Ends(Pending(parts) + [stop] + (LineSplit(line) + tail))
    ensures var first := Run(buf, Pending(parts) + [stop] + (LineSplit(line) + tail));
      && first.result == Err(ErrorOf(stop))
      && Ends(first.rest)
      && Run(first.buf, first.rest) == Outcome(Ok(buf + Flatten(parts) + Flatten(line)), [], tail)
  {
    InterruptedCallKeepsFragments(buf, parts, stop, LineSplit(line) + tail);
    LineReassembled(buf + Flatten(parts), line, tail);
  }

  /** The bytes `WriteLine` hands to the transport for `data`. */
  function Terminated(data: Bytes): (wire: Bytes)
    ensures |wire| == |data| + 1 && wire[..|data|] == data && wire[|data|] == LF
  {
    data + [LF]
  }

  /** Distinct payloads are written as distinct byte strings. */
  lemma TerminatedInjective(data: Bytes, data': Bytes)
    requires Terminated(data) == Terminated(data')
    ensures data == data'
  {
    assert data == Terminated(data)[..|data|];
    assert data' == Terminated(data')[..|data'|];
  }

  /** One connection: the accumulator, what its reader will deliver, and
      what has been handed to its transport. */
  class Conn {
    /** Fragments of the line being assembled. */
    var buf: Bytes
    /** The passes the context, the deadline and the reader will produce. */
    var incoming: seq<Poll>
    /** Every payload handed to the transport's Write, in order. */
    var sent: seq<Bytes>

    /** Wraps a transport; the accumulator starts empty. */
    constructor New(incoming: seq<Poll>)
      ensures buf == [] && this.incoming == incoming && sent == []
    {
      buf := [];
      this.incoming := incoming;
      sent := [];
    }

    /** Reads one line, retrying expired deadlines, and returns the
        cancellation, deadline or read error that stops it otherwise. */
    method ReadLine() returns (r: Result<Bytes>)
      requires Ends(incoming)
      modifies this
      ensures Outcome(r, buf, incoming) == Run(old(buf), old(incoming))
      ensures sent == old(sent)
    {
      while true
        invariant Ends(incoming)
        invariant Run(buf, incoming) == Run(old(buf), old(incoming))
        invariant sent == old(sent)
        decreases |incoming|
      {
        var poll := incoming[0];
        incoming := incoming[1..];
        match poll {
          case Done(cause) =>
            return Err(cause);
          case DeadlineFailed(err) =>
            return Err(err);
          case ReadFailed(err) =>
            if err == ReadDeadlineExceeded {
              continue;
            }
            return Err(err);
          case Fragment(line, isPrefix) =>
            buf := buf + line;
            if !isPrefix {
              var ret := buf;
              buf := [];
              return Ok(ret);
            }
        }
      }
    }

    /** Writes `data` followed by one terminator; `written` is what the
        transport's Write reports, returned unchanged. */
    method WriteLine(data: Bytes, written: Option<Error>) returns (err: Option<Error>)
      modifies this
      ensures sent == old(sent) + [Terminated(data)]
      ensures err == written
      ensures buf == old(buf) && incoming == old(incoming)
    {
      sent := sent + [Terminated(data)];
      err := written;
    }
  }
}
