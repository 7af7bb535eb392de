/**
 Feeding bytes to the machine of HttpMachine, and the log of callbacks it leaves.

 A log is kept in merged form: neighbouring data callbacks of one kind are one
 entry, because a caller cannot tell how their bytes were split over calls.
 */
module HttpFeed {
  import opened HttpMachine

  type Log = seq<Event>

  /** Adds one callback to a merged log. */
  function Add(log: Log, e: Event): Log {
    if e.Data? && log != [] && log[|log| - 1].Data? && log[|log| - 1].kind == e.kind then
      log[..|log| - 1] + [Data(e.kind, log[|log| - 1].bytes + e.bytes)]
    else log + [e]
  }

  function AddAll(log: Log, evs: seq<Event>): Log
    decreases evs
  {
    if evs == [] then log else AddAll(Add(log, evs[0]), evs[1..])
  }

  /** The merged form of a raw sequence of callbacks. */
  function Merged(calls: seq<Event>): Log { AddAll([], calls) }

  /** Adds bytes that were seen but possibly not yet handed to a callback. */
  function AddSpan(log: Log, k: DataKind, span: seq<char>): Log {
    if span == [] then log else Add(log, Data(k, span))
  }

  lemma AddMerges(log: Log, k: DataKind, a: seq<char>, b: seq<char>)
    ensures Add(Add(log, Data(k, a)), Data(k, b)) == Add(log, Data(k, a + b))
  {
    var l := Add(log, Data(k, a));
    if log != [] && log[|log| - 1].Data? && log[|log| - 1].kind == k {
      var x := log[|log| - 1].bytes;
      assert l[..|l| - 1] == log[..|log| - 1];
      assert x + a + b == x + (a + b);
    } else {
      assert l[..|l| - 1] == log;
    }
  }

  lemma AddSpanMerges(log: Log, k: DataKind, a: seq<char>, b: seq<char>)
    ensures AddSpan(AddSpan(log, k, a), k, b) == AddSpan(log, k, a + b)
    ensures Add(AddSpan(log, k, a), Data(k, b)) == Add(log, Data(k, a + b))
  {
    if a == [] {
      assert a + b == b;
    } else {
      AddMerges(log, k, a, b);
      assert b == [] ==> a + b == a;
    }
  }

  lemma {:induction false} AddAllSplit(log: Log, a: seq<Event>, b: seq<Event>)
    ensures AddAll(log, a + b) == AddAll(AddAll(log, a), b)
    decreases a
  {
    if a == [] {
      assert a + b == b;
    } else {
      assert (a + b)[1..] == a[1..] + b;
      AddAllSplit(Add(log, a[0]), a[1..], b);
    }
  }

  lemma AddAllOne(log: Log, e: Event)
    ensures AddAll(log, [e]) == Add(log, e)
  {
    assert AddAll(Add(log, e), []) == Add(log, e);
  }

  lemma AddAllTwo(log: Log, e: Event, f: Event)
    ensures AddAll(log, [e, f]) == Add(Add(log, e), f)
  {
    AddAllSplit(log, [e], [f]);
    assert [e] + [f] == [e, f];
    AddAllOne(log, e);
    AddAllOne(Add(log, e), f);
  }

  lemma MergedSnocTwo(calls: seq<Event>, e: Event, f: Event)
    ensures Merged(calls + [e, f]) == Add(Add(Merged(calls), e), f)
  {
    AddAllSplit([], calls, [e, f]);
    AddAllTwo(Merged(calls), e, f);
  }

  lemma MergedSnoc(calls: seq<Event>, e: Event)
    ensures Merged(calls + [e]) == Add(Merged(calls), e)
  {
    AddAllSplit([], calls, [e]);
    AddAllOne(Merged(calls), e);
  }

  /** A run in progress: parser, merged log, why it stopped, bytes consumed. */
  datatype Run = Run(ps: Parser, log: Log, stop: Stop, consumed: nat)

  function StepRun(r: Run, ch: char): Run {
    if !r.stop.Go? then r
    else
      var o := Step(r.ps, ch);
      Run(o.ps, AddAll(r.log, o.evs), o.stop,
          if o.stop.Go? || o.stop.Exited? then r.consumed + 1 else r.consumed)
  }

  /** The run after the first `n` bytes of `data`, one byte at a time. */
  function Feed(r: Run, data: seq<char>, n: nat): Run
    requires n <= |data|
  {
    if n == 0 then r else StepRun(Feed(r, data, n - 1), data[n - 1])
  }

  function FeedAll(r: Run, data: seq<char>): Run { Feed(r, data, |data|) }

  lemma FeedNone(r: Run, data: seq<char>)
    ensures Feed(r, data, 0) == r
  {
  }

  lemma {:induction false} FeedPrefix(r: Run, a: seq<char>, b: seq<char>, n: nat)
    requires n <= |a|
    ensures Feed(r, a + b, n) == Feed(r, a, n)
  {
    hide Step;
    if n > 0 {
      FeedPrefix(r, a, b, n - 1);
    }
  }

  lemma {:induction false} FeedConcatN(r: Run, a: seq<char>, b: seq<char>, n: nat)
    requires n <= |b|
    ensures Feed(r, a + b, |a| + n) == Feed(FeedAll(r, a), b, n)
  {
    hide Step;
    if n == 0 {
      FeedPrefix(r, a, b, |a|);
    } else {
      FeedConcatN(r, a, b, n - 1);
      assert (a + b)[|a| + n - 1] == b[n - 1];
    }
  }

  /** Feeding is a fold: a concatenation is fed piece by piece. */
  lemma FeedConcat(r: Run, a: seq<char>, b: seq<char>)
    ensures FeedAll(r, a + b) == FeedAll(FeedAll(r, a), b)
  {
    hide Step;
    FeedConcatN(r, a, b, |b|);
  }

  lemma {:induction false} FeedStopped(r: Run, data: seq<char>, n: nat)
    requires n <= |data| && !r.stop.Go?
    ensures Feed(r, data, n) == r
  {
    hide Step;
    if n > 0 { FeedStopped(r, data, n - 1); }
  }

  /** Once stopped, later bytes change nothing. */
  lemma {:induction false} FeedStays(r: Run, data: seq<char>, m: nat, n: nat)
    requires m <= n <= |data| && !Feed(r, data, m).stop.Go?
    ensures Feed(r, data, n) == Feed(r, data, m)
    decreases n
  {
    hide Step;
    if m < n { FeedStays(r, data, m, n - 1); }
  }

  lemma {:induction false} FeedCounts(r: Run, data: seq<char>, n: nat)
    requires n <= |data| && Feed(r, data, n).stop.Go?
    ensures r.stop.Go? && Feed(r, data, n).consumed == r.consumed + n
  {
    hide Step;
    if n > 0 { FeedCounts(r, data, n - 1); }
  }

  lemma {:induction false} FeedGrows(r: Run, data: seq<char>, m: nat, n: nat)
    requires m <= n <= |data|
    ensures Feed(r, data, m).consumed <= Feed(r, data, n).consumed
    decreases n
  {
    hide Step;
    if m < n { FeedGrows(r, data, m, n - 1); }
  }

  /** A rejected byte is not consumed. */
  lemma {:induction false} FailsInside(r: Run, data: seq<char>, n: nat)
    requires n <= |data| && r.stop.Go? && Feed(r, data, n).stop.Failed?
    ensures Feed(r, data, n).consumed < r.consumed + n
  {
    hide Step;
    if Feed(r, data, n - 1).stop.Go? { FeedCounts(r, data, n - 1); } else { FailsInside(r, data, n - 1); }
  }
}
