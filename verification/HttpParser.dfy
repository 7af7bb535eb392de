/**
 The parser object: one call, any number of calls, and what cutting the input
 into calls can and cannot change.
 */
module HttpParser {
  import opened HttpMachine
  import opened HttpFeed
  import opened HttpExecute
  import opened HttpCall
  import opened HttpInvariant
  import opened HttpCuts

  /** The outcome of a call equals the byte machine's run `r`, but for the header state of a rejected header value. */
  ghost predicate SameAs(r: Run, ps: Parser, log: Log, consumed: nat, stop: Stop) {
    Settled(ps) == Settled(r.ps) && log == r.log && consumed == r.consumed && stop == r.stop
  }

  /** Some byte before `n` is hidden from the character check by the memchr jump. */
  ghost predicate SkippedBefore(r0: Run, data: seq<char>, n: nat) { exists i | 0 <= i < n :: SkipsAt(r0, data, i) }

  lemma SkipsPiece(r0: Run, a: seq<char>, b: seq<char>, i: int)
    requires SkipsAt(Restart(FeedAll(r0, a)), b, i)
    ensures SkipsAt(r0, a + b, |a| + i)
  {
    hide Step, Feed, FeedAll, Restart, IsHeaderChar;
    PieceRun(r0, a, b, i - 1);
    PieceRun(r0, a, b, i);
  }

  lemma SkipsLonger(r0: Run, a: seq<char>, b: seq<char>, i: int)
    requires SkipsAt(r0, a, i)
    ensures SkipsAt(r0, a + b, i)
  {
    hide Step;
    FeedPrefix(r0, a, b, i - 1);
    FeedPrefix(r0, a, b, i);
  }

  /** The end of the connection: new parser, callbacks, returned count. */
  function AtEof(ps: Parser): (Parser, seq<Event>, nat) {
    if ps.state.BodyIdentityEof? then (ps, [Notify(MessageComplete)], 0)
    else if ps.state.Dead? || ps.state.StartReqOrRes? || ps.state.StartRes? || ps.state.StartReq? then (ps, [], 0)
    else (ps.(errno := InvalidEofState), [], 1)
  }

  /** The loop over the buffer. */
  method Loop(data: seq<char>, c0: Call, ghost r0: Run, ghost n0: nat) returns (c: Call, v: Verdict)
    requires Sound(r0, data, c0) && Entered(r0, data, c0) && c0.p == 0 < |data| <= MAX_CALL && c0.nread == n0
    requires Tally(r0, data, 0, n0) == n0 && Passes(r0, data, n0, 0, c0, Continue)
    ensures Outcome(r0, data, n0, c, v) && (v.Continue? ==> c.p == |data|)
    ensures v.Stopped? ==> Precise(r0, data, c)
    ensures NoSkip(r0, data, |data|) ==> v.Overflow? || Passes(r0, data, n0, 0, c, v)
  {
    hide Step, Feed, FeedAll, Merged, Pending, InStep, Tally, EntryState, Passes, Trips, Inner, Inv, MarkFits, Precise;
    c, v := c0, Continue;
    while v.Continue? && c.p < |data|
      invariant Outcome(r0, data, n0, c, v) && (v.Continue? ==> Entered(r0, data, c))
      invariant v.Stopped? ==> Precise(r0, data, c)
      invariant NoSkip(r0, data, |data|) ==> v.Overflow? || Passes(r0, data, n0, 0, c, v)
      decreases v.Continue?, |data| - c.p
    {
      ghost var before := c;
      c, v := NextBytes(data, c, r0, n0);
      if !v.Overflow? && NoSkip(r0, data, |data|) { PassesOn(r0, data, n0, before, c, v); }
    }
  }

  class LiveParser {
    var ps: Parser
    var nread: nat
    var calls: seq<Event>

    ghost predicate Valid()
      reads this
    {
      ps.errno.OK? ==> CountOk(ps.state, nread) && Inv(ps)
    }

    ghost function Now(): Run
      reads this
    {
      Run(ps, Merged(calls), Go, 0)
    }

    constructor (t: ParserType)
      ensures Valid() && ps == InitParser(t) && nread == 0 && calls == []
    {
      ps := InitParser(t);
      nread := 0;
      calls := [];
    }

    /**
     One call. Unless the header-size limit stops it, it does to the whole buffer what the byte machine
     does byte by byte, and `lost` holds the bytes seen but not handed over before an error. When the memchr
     jump hides a bad byte, the call runs past it instead. The limit stops the call exactly at a comparison that
     finds the header size at the limit. A call on a failed parser does nothing, and an empty buffer stands for
     the end of the connection.
     */
    method Execute(data: seq<char>) returns (consumed: nat, stop: Stop, lost: seq<Event>, overflow: bool)
      requires Valid() && |data| <= MAX_CALL
      modifies this
      ensures Valid() && !stop.Panicked?
      ensures !old(ps).errno.OK? ==> consumed == 0 && stop == Failed && ps == old(ps) && calls == old(calls)
      ensures old(ps).errno.OK? && data == [] ==>
                ps == AtEof(old(ps)).0 && calls == old(calls) + AtEof(old(ps)).1 && consumed == AtEof(old(ps)).2
      ensures stop.Go? || stop.Exited? ==> ps.errno.OK? && lost == []
      ensures stop.Go? && data != [] ==> consumed == |data| && nread <= old(nread) + |data| + 1
      ensures overflow ==> old(nread) + |data| >= HTTP_MAX_HEADER_SIZE && stop == Failed
                           && old(ps).errno.OK? && ps.errno == HeaderOverflow
      ensures old(ps).errno.OK? && data != [] && NoSkip(old(Now()), data, |data|) ==>
                (overflow <==> exists k: nat :: Trips(old(Now()), data, old(nread), k))
      ensures (stop.Go? || stop.Exited?) && data != [] && NoSkip(old(Now()), data, |data|) ==>
                Counts(old(Now()), data, old(nread), consumed, nread)
      ensures old(ps).errno.OK? && data != [] && !overflow ==>
                if NoSkip(old(Now()), data, |data|)
                then SameAs(FeedAll(old(Now()), data), ps, Merged(calls + lost), consumed, stop)
                else SkippedBefore(old(Now()), data, consumed)
      ensures old(ps).errno.OK? && data != [] && !overflow && NoSkip(old(Now()), data, |data|) ==>
                consumed <= |data| && ps == Ended(old(Now()), data, 0, FeedAll(old(Now()), data).ps, consumed)
    {
      hide Step, Feed, FeedAll, Merged, Pending, InStep, Tally, EntryState, Passes, Trips, Inner, Sound, Outcome,
           Entered, Precise, Inv, CountOk, Settled, SkipsAt;
      if !ps.errno.OK? { return 0, Failed, [], false; }
      if data == [] {
        var (q, evs, k) := AtEof(ps);
        EofValid(ps, nread);
        ps, calls := q, calls + evs;
        return k, if q.errno.OK? then Go else Failed, [], false;
      }
      ghost var r0, n0 := Now(), nread;
      var c := Call(ps, calls, EntryMark(ps.state), 0, nread);
      StartsSound(r0, data, c, nread);
      StartsEntered(r0, data, c);
      var v;
      c, v := Loop(data, c, r0, n0);
      ps, nread := c.q, c.nread;
      match v {
        case Overflow =>
          Overflows(r0, data, n0, c);
          calls := c.calls;
          return c.p, Failed, [], true;
        case Continue =>
          GoesOn(r0, data, n0, c);
          calls := c.calls + SpanAtEnd(data, c);
          return c.p, Go, [], false;
        case Stopped(s) =>
          Stops(r0, data, n0, c, s);
          calls := c.calls;
          return c.p, s, SpanLost(data, c), false;
      }
    }
  }

  lemma EofValid(ps: Parser, nread: nat)
    requires ps.errno.OK?
    ensures AtEof(ps).0 == ps || !AtEof(ps).0.errno.OK?
  {
  }

  /** What a call hands over when it comes to the end of its buffer inside a region. */
  function SpanAtEnd(data: seq<char>, c: Call): seq<Event>
    requires c.p <= |data| && MarkBelow(c.m, c.p)
  {
    if c.m.At? then [Data(c.m.kind, data[c.m.pos..c.p])] else []
  }

  /** What a call has seen but not handed over when it stops. */
  function SpanLost(data: seq<char>, c: Call): seq<Event>
    requires c.p <= |data| && MarkBelow(c.m, c.p)
  {
    if c.m.At? && c.m.pos < c.p then [Data(c.m.kind, data[c.m.pos..c.p])] else []
  }

  lemma Overflows(r0: Run, data: seq<char>, n0: nat, c: Call)
    requires Outcome(r0, data, n0, c, Overflow)
    ensures n0 + |data| >= HTTP_MAX_HEADER_SIZE && c.q.errno.HeaderOverflow?
    ensures NoSkip(r0, data, |data|) ==> exists k: nat :: Trips(r0, data, n0, k)
  {
    hide Trips, SkipsAt;
  }

  /** A call that came to the end of its buffer. */
  lemma GoesOn(r0: Run, data: seq<char>, n0: nat, c: Call)
    requires Outcome(r0, data, n0, c, Continue) && c.p == |data| > 0 && r0.consumed == 0
    requires NoSkip(r0, data, |data|) ==> Passes(r0, data, n0, 0, c, Continue)
    ensures MarkBelow(c.m, c.p) && c.q.errno.OK? && CountOk(c.q.state, c.nread) && Inv(c.q)
    ensures c.nread <= n0 + |data| + 1
    ensures if NoSkip(r0, data, |data|)
            then SameAs(FeedAll(r0, data), c.q, Merged(c.calls + SpanAtEnd(data, c) + []), |data|, Go)
                 && c.q == Ended(r0, data, 0, FeedAll(r0, data).ps, |data|)
                 && Counts(r0, data, n0, |data|, c.nread)
                 && forall k: nat :: !Trips(r0, data, n0, k)
            else SkippedBefore(r0, data, |data|)
  {
    hide Step, Feed, FeedAll, Merged, Pending, InStep, Tally, EntryState, Passes, Trips, Inner, Inv, Settled, SkipsAt;
    EndsSame(r0, data, c);
    LivesEnded(r0, data, c.q, c.p);
    if NoSkip(r0, data, |data|) {
      NeverTripped(r0, data, n0, c, Continue);
      LivesSame(FeedAll(r0, data), c.q);
    }
  }

  /** A call that stopped early. */
  lemma Stops(r0: Run, data: seq<char>, n0: nat, c: Call, stop: Stop)
    requires Outcome(r0, data, n0, c, Stopped(stop)) && r0.consumed == 0 && Precise(r0, data, c)
    requires NoSkip(r0, data, |data|) ==> Passes(r0, data, n0, 0, c, Stopped(stop))
    ensures c.p <= |data| && MarkBelow(c.m, c.p) && (stop.Failed? || stop.Exited?) && (stop.Failed? <==> !c.q.errno.OK?)
    ensures stop.Exited? ==> c.m.NoMark? && CountOk(c.q.state, c.nread) && Inv(c.q)
    ensures if NoSkip(r0, data, |data|)
            then SameAs(FeedAll(r0, data), c.q, Merged(c.calls + SpanLost(data, c)), c.p, stop)
                 && c.q == Ended(r0, data, 0, FeedAll(r0, data).ps, c.p)
                 && (stop.Exited? ==> Counts(r0, data, n0, c.p, c.nread))
                 && forall k: nat :: !Trips(r0, data, n0, k)
            else SkippedBefore(r0, data, c.p)
  {
    hide Step, Feed, FeedAll, Merged, Pending, InStep, Tally, EntryState, Passes, Trips, Inner, Inv, Settled, SkipsAt;
    HaltsSame(r0, data, c, stop);
    if NoSkip(r0, data, |data|) { NeverTripped(r0, data, n0, c, Stopped(stop)); }
  }

  lemma StartsEntered(r0: Run, data: seq<char>, c: Call)
    requires c.p == 0 && r0.ps == c.q
    ensures Entered(r0, data, c) && forall n0: nat :: data != [] ==> Passes(r0, data, n0, 0, c, Continue)
  {
    EntryHere(r0, data, 0, 0);
  }

  /** The comparisons up to the end of one more iteration. */
  lemma PassesOn(r0: Run, data: seq<char>, n0: nat, c: Call, c': Call, v: Verdict)
    requires c.p < |data| && c'.p <= |data| && Passes(r0, data, n0, 0, c, Continue) && Passes(r0, data, n0, c.p, c', v)
    requires !v.Overflow?
    ensures NoSkip(r0, data, |data|) ==> Passes(r0, data, n0, 0, c', v)
  {
    hide SkipsAt, Trips;
  }

  /** A call that ran to its end, or that stopped with the byte machine, passed every comparison. */
  lemma NeverTripped(r0: Run, data: seq<char>, n0: nat, c: Call, v: Verdict)
    requires NoSkip(r0, data, |data|) && r0.consumed == 0 && c.p <= |data| && Passes(r0, data, n0, 0, c, v)
    requires if v.Continue? then c.p == |data|
             else v.Stopped? && !v.stop.Go? && FeedAll(r0, data).stop == v.stop && FeedAll(r0, data).consumed == c.p
    ensures NoSkip(r0, data, c.p) && forall k: nat :: !Trips(r0, data, n0, k)
  {
    hide Step, Feed, Tally, Inner, SkipsAt, EndsText, ParsingHeader;
    forall k: nat | k <= |data| ensures !Trips(r0, data, n0, k) {
      if v.Stopped? && k > c.p && Feed(r0, data, k).stop.Go? {
        FeedCounts(r0, data, k);
        FeedGrows(r0, data, k, |data|);
        assert false;
      }
    }
  }

  lemma LivesEnded(r0: Run, data: seq<char>, q: Parser, n: nat)
    requires n <= |data| && q.errno.OK?
    ensures Ended(r0, data, 0, q, n) == q
  {
  }

  lemma StartsSound(r0: Run, data: seq<char>, c: Call, t0: nat)
    requires c.q.errno.OK? && CountOk(c.q.state, c.nread) && Inv(c.q) && data != []
    requires r0 == Run(c.q, Merged(c.calls), Go, 0) && c.p == 0 && c.m == EntryMark(c.q.state)
    ensures Sound(r0, data, c) && Tally(r0, data, 0, t0) == t0
  {
    hide Step;
    assert data[0..0] == [];
  }

  lemma EndsSame(r0: Run, data: seq<char>, c: Call)
    requires Sound(r0, data, c) && c.p == |data| > 0
    ensures if NoSkip(r0, data, |data|)
            then SameAs(FeedAll(r0, data), c.q, Merged(c.calls + SpanAtEnd(data, c) + []), |data|, Go)
            else SkippedBefore(r0, data, |data|)
  {
    hide Step;
    if c.m.At? {
      MergedSnoc(c.calls, Data(c.m.kind, data[c.m.pos..c.p]));
      assert c.calls + [Data(c.m.kind, data[c.m.pos..c.p])] + [] == c.calls + [Data(c.m.kind, data[c.m.pos..c.p])];
    } else {
      assert c.calls + [] + [] == c.calls;
    }
  }

  lemma HaltsSame(r0: Run, data: seq<char>, c: Call, stop: Stop)
    requires Halted(r0, data, c, stop) && r0.consumed == 0
    ensures if NoSkip(r0, data, |data|)
            then SameAs(FeedAll(r0, data), c.q, Merged(c.calls + SpanLost(data, c)), c.p, stop)
            else SkippedBefore(r0, data, c.p)
  {
    hide Step, Feed, FeedAll, Pending, Merged, SkipsAt, Settled;
    if NoSkip(r0, data, c.p) { HidesNoMore(r0, data, c.p); }
    HaltsLog(c, data);
  }

  /** Behind the offset where the byte machine stops nothing is hidden. */
  lemma HidesNoMore(r0: Run, data: seq<char>, p: nat)
    requires p <= |data| && NoSkip(r0, data, p) && !SkipsAt(r0, data, p) && r0.consumed == 0
    requires FeedAll(r0, data).consumed == p
    ensures NoSkip(r0, data, |data|)
  {
    hide Step, Feed;
    forall i | 0 <= i < |data| ensures !SkipsAt(r0, data, i) {
      if SkipsAt(r0, data, i) {
        FeedCounts(r0, data, i);
        FeedGrows(r0, data, i, |data|);
      }
    }
  }

  lemma HaltsLog(c: Call, data: seq<char>)
    requires c.p <= |data| && MarkBelow(c.m, c.p)
    ensures Merged(c.calls + SpanLost(data, c)) == Pending(Merged(c.calls), c.m, data, c.p)
  {
    if c.m.At? && c.m.pos < c.p {
      MergedSnoc(c.calls, Data(c.m.kind, data[c.m.pos..c.p]));
    } else {
      assert c.calls + [] == c.calls;
    }
  }

  // ---------------------------------------------------------------- cutting the input into calls

  /** A run over `a` that may go on, as the next call sees it. */
  lemma NextCall(r0: Run, a: seq<char>, b: seq<char>, ps: Parser, calls: seq<Event>)
    requires SameAs(FeedAll(r0, a), ps, Merged(calls), |a|, Go) && ps.errno.OK? && r0.consumed == 0
    ensures Run(ps, Merged(calls), Go, 0) == Restart(FeedAll(r0, a))
    ensures NoSkip(r0, a + b, |a + b|) ==> NoSkip(Restart(FeedAll(r0, a)), b, |b|)
    ensures var r := FeedAll(Restart(FeedAll(r0, a)), b);
            FeedAll(r0, a + b) == r.(consumed := |a| + r.consumed)
  {
    hide Step, Merged;
    var r1 := FeedAll(r0, a);
    FeedConcat(r0, a, b);
    FeedShift(r1, b, |b|);
    if !NoSkip(Restart(r1), b, |b|) {
      var i :| 0 <= i < |b| && SkipsAt(Restart(r1), b, i);
      SkipsPiece(r0, a, b, i);
    }
  }

  lemma PrefixNoSkip(r0: Run, a: seq<char>, b: seq<char>)
    requires NoSkip(r0, a + b, |a + b|)
    ensures NoSkip(r0, a, |a|)
  {
    hide Step, Feed;
    if !NoSkip(r0, a, |a|) {
      var i :| 0 <= i < |a| && SkipsAt(r0, a, i);
      SkipsLonger(r0, a, b, i);
    }
  }

  lemma StaysStopped(r0: Run, a: seq<char>, b: seq<char>)
    requires !FeedAll(r0, a).stop.Go?
    ensures FeedAll(r0, a + b) == FeedAll(r0, a)
  {
    hide Step, Feed;
    FeedConcat(r0, a, b);
    FeedStopped(FeedAll(r0, a), b, |b|);
  }

  lemma LivesSame(r: Run, ps: Parser)
    requires Settled(ps) == Settled(r.ps) && ps.errno.OK?
    ensures r.ps == ps
  {
  }

  lemma SameAsLive(r: Run, ps: Parser, log: Log, consumed: nat, stop: Stop)
    requires SameAs(r, ps, log, consumed, stop) && r.ps.errno.OK?
    ensures ps == r.ps && log == r.log && consumed == r.consumed && stop == r.stop
  {
  }

  /** One more piece after `done`, with `rest` still to come. */
  lemma PieceFits(r0: Run, done: seq<char>, piece: seq<char>, rest: seq<char>, ps0: Parser, calls0: seq<Event>)
    requires NoSkip(r0, done + piece + rest, |done + piece + rest|) && r0.consumed == 0
    requires SameAs(FeedAll(r0, done), ps0, Merged(calls0), |done|, Go) && ps0.errno.OK?
    ensures NoSkip(Run(ps0, Merged(calls0), Go, 0), piece, |piece|)
    ensures Run(ps0, Merged(calls0), Go, 0) == Restart(FeedAll(r0, done))
    ensures forall ps: Parser, log: Log, n: nat, stop: Stop
              | SameAs(FeedAll(Run(ps0, Merged(calls0), Go, 0), piece), ps, log, n, stop) ::
              if stop.Go? then SameAs(FeedAll(r0, done + piece), ps, log, |done| + n, stop)
              else SameAs(FeedAll(r0, done + piece + rest), ps, log, |done| + n, stop)
  {
    hide Step, Feed, Merged, Settled, NoSkip;
    PrefixNoSkip(r0, done + piece, rest);
    NextCall(r0, done, piece, ps0, calls0);
    if !FeedAll(r0, done + piece).stop.Go? {
      StaysStopped(r0, done + piece, rest);
    }
  }

  lemma {:induction false} PieceEntry(r0: Run, done: seq<char>, piece: seq<char>, rest: seq<char>, n: nat)
    requires n <= |piece|
    ensures EntryState(Restart(FeedAll(r0, done)), piece, 0, n)
            == EntryState(r0, done + piece + rest, |done|, |done| + n)
  {
    hide Step, Feed, FeedAll, Restart;
    PieceField(r0, done, piece, rest, n);
    if n > 0 {
      PieceField(r0, done, piece, rest, n - 1);
      PieceEntry(r0, done, piece, rest, n - 1);
    }
  }

  /** The fields left behind by a call on a piece. */
  lemma PieceEnded(r0: Run, done: seq<char>, piece: seq<char>, rest: seq<char>, n: nat)
    requires n <= |piece|
    ensures var r := Restart(FeedAll(r0, done));
            var whole := done + piece + rest;
            Ended(r, piece, 0, FeedAll(r, piece).ps, n)
            == Ended(r0, whole, |done|, FeedAll(r0, done + piece).ps, |done| + n)
  {
    hide Step, Feed, EntryState;
    PieceEntry(r0, done, piece, rest, n);
    FeedShift(FeedAll(r0, done), piece, |piece|);
    FeedConcat(r0, done, piece);
  }

  /** What the calls made so far have established about the whole input; the last one was made at offset `lo`. */
  ghost predicate Followed(r0: Run, done: seq<char>, rest: seq<char>, lo: nat, ps: Parser, calls: seq<Event>,
                           lost: seq<Event>, consumed: nat, stop: Stop) {
    var whole := done + rest;
    NoSkip(r0, whole, |whole|) ==>
      if stop.Go? then SameAs(FeedAll(r0, done), ps, Merged(calls + lost), consumed, Go) && ps == FeedAll(r0, done).ps
      else SameAs(FeedAll(r0, whole), ps, Merged(calls + lost), consumed, stop)
           && lo <= consumed <= |whole| && ps == Ended(r0, whole, lo, FeedAll(r0, whole).ps, consumed)
  }

  /**
   What the calls made so far have established about the header size: it is the one counted, and the limit has stopped
   none of them.
   */
  ghost predicate Accounted(r0: Run, done: seq<char>, rest: seq<char>, cuts: set<nat>, t0: nat, nread: nat) {
    var whole := done + rest;
    NoSkip(r0, whole, |whole|) ==>
      nread == Count(r0, whole, cuts, |done|, t0) && Within(r0, whole, cuts, t0, 0, Past(whole, |done|))
  }

  /** One call on the next piece. */
  method NextPiece(parser: LiveParser, piece: seq<char>, ghost r0: Run, ghost done: seq<char>, ghost rest: seq<char>,
                   ghost cuts: set<nat>, ghost t0: nat)
    returns (n: nat, stop: Stop, lost: seq<Event>, overflow: bool)
    requires parser.Valid() && parser.ps.errno.OK? && piece != [] && |piece| <= MAX_CALL && r0.consumed == 0
    requires OneCall(cuts, |done|, |done| + |piece|) && Accounted(r0, done, piece + rest, cuts, t0, parser.nread)
    requires NoSkip(r0, done + piece + rest, |done + piece + rest|) ==>
               SameAs(FeedAll(r0, done), parser.ps, Merged(parser.calls), |done|, Go)
    modifies parser
    ensures parser.Valid() && !stop.Panicked? && (overflow ==> stop.Failed?)
    ensures stop.Go? || stop.Exited? ==> lost == [] && parser.ps.errno.OK?
    ensures stop.Go? ==> n == |piece|
    ensures stop.Failed? && !overflow && NoSkip(r0, done + piece + rest, |done + piece + rest|) ==> n < |piece|
    ensures overflow && NoSkip(r0, done + piece + rest, |done + piece + rest|) ==>
              Refused(r0, done + piece + rest, cuts, t0)
    ensures !stop.Go? && !overflow && NoSkip(r0, done + piece + rest, |done + piece + rest|) ==>
              !Refused(r0, done + piece + rest, cuts, t0)
    ensures !overflow ==> Followed(r0, done + piece, rest, |done|, parser.ps, parser.calls, lost, |done| + n, stop)
    ensures stop.Go? ==> Accounted(r0, done + piece, rest, cuts, t0, parser.nread)
    ensures stop.Exited? && NoSkip(r0, done + piece + rest, |done + piece + rest|) ==>
              n <= |piece| && parser.nread == Count(r0, done + piece + rest, cuts, |done| + n, t0)
  {
    hide Step, Merged, Feed, FeedAll, Settled, NoSkip, Tally, Ended, SkippedBefore, Trips, OneCall, Within, Count,
         Refused, Inner;
    ghost var whole, r, n0 := done + piece + rest, parser.Now(), parser.nread;
    assert done + (piece + rest) == whole;
    if NoSkip(r0, whole, |whole|) {
      PieceFits(r0, done, piece, rest, parser.ps, parser.calls);
    }
    n, stop, lost, overflow := parser.Execute(piece);
    if NoSkip(r0, whole, |whole|) {
      if overflow {
        PieceRefused(r0, done, piece, rest, cuts, t0);
      } else if stop.Go? {
        assert SameAs(FeedAll(r0, done + piece), parser.ps, Merged(parser.calls + lost), |done| + n, Go);
        LivesSame(FeedAll(r0, done + piece), parser.ps);
        PieceTaken(r0, done, piece, rest, cuts, t0);
        PieceCount(r0, done, piece, rest, cuts, t0, |piece|);
      } else {
        StopsWhole(r0, done, piece, rest, n, parser.ps, stop);
        StoppedTaken(r0, done, piece, rest, cuts, t0);
        if stop.Failed? { FailsWithin(r, piece); } else { PieceCount(r0, done, piece, rest, cuts, t0, n); }
      }
    }
  }

  /** The limit stops the call on a piece: it stops the calls on the whole. */
  lemma PieceRefused(r0: Run, done: seq<char>, piece: seq<char>, rest: seq<char>, cuts: set<nat>, t0: nat)
    requires OneCall(cuts, |done|, |done| + |piece|)
    requires exists k: nat ::
               Trips(Restart(FeedAll(r0, done)), piece, Count(r0, done + piece + rest, cuts, |done|, t0), k)
    ensures Refused(r0, done + piece + rest, cuts, t0)
  {
    hide Feed, FeedAll, Restart, Count, Tally, Inner, Overruns, OneCall, EndsText, ParsingHeader;
    var k: nat :| Trips(Restart(FeedAll(r0, done)), piece, Count(r0, done + piece + rest, cuts, |done|, t0), k);
    PieceTrips(r0, done, piece, rest, cuts, t0, k);
  }

  /** The limit does not stop the call on a piece: it stops no call so far. */
  lemma PieceTaken(r0: Run, done: seq<char>, piece: seq<char>, rest: seq<char>, cuts: set<nat>, t0: nat)
    requires OneCall(cuts, |done|, |done| + |piece|)
    requires Within(r0, done + piece + rest, cuts, t0, 0, |done|)
    requires forall k: nat ::
               !Trips(Restart(FeedAll(r0, done)), piece, Count(r0, done + piece + rest, cuts, |done|, t0), k)
    ensures Within(r0, done + piece + rest, cuts, t0, 0, Past(done + piece + rest, |done + piece|))
  {
    hide Feed, FeedAll, Restart, Count, Tally, Inner, Overruns, OneCall, Trips;
    forall k: nat | k < Past(done + piece + rest, |done + piece|)
      ensures !Overruns(r0, done + piece + rest, cuts, t0, k)
    {
      if k >= |done| { PieceTrips(r0, done, piece, rest, cuts, t0, k - |done|); }
    }
  }

  /** Nor does it stop a later call, if the byte machine has stopped in the piece. */
  lemma StoppedTaken(r0: Run, done: seq<char>, piece: seq<char>, rest: seq<char>, cuts: set<nat>, t0: nat)
    requires OneCall(cuts, |done|, |done| + |piece|)
    requires Within(r0, done + piece + rest, cuts, t0, 0, |done|)
    requires forall k: nat ::
               !Trips(Restart(FeedAll(r0, done)), piece, Count(r0, done + piece + rest, cuts, |done|, t0), k)
    requires !FeedAll(Restart(FeedAll(r0, done)), piece).stop.Go?
    ensures !Refused(r0, done + piece + rest, cuts, t0)
  {
    hide Feed, Restart, Count, Tally, Inner, OneCall, Trips, EndsText, ParsingHeader;
    var whole := done + piece + rest;
    PieceTaken(r0, done, piece, rest, cuts, t0);
    PieceField(r0, done, piece, rest, |piece|);
    forall k: nat | k <= |whole| ensures !Overruns(r0, whole, cuts, t0, k) {
      if k >= |done + piece| { FeedStays(r0, whole, |done + piece|, k); }
    }
  }

  lemma FailsWithin(r: Run, data: seq<char>)
    requires r.stop.Go? && FeedAll(r, data).stop.Failed?
    ensures FeedAll(r, data).consumed < r.consumed + |data|
  {
    hide Step, Feed;
    FailsInside(r, data, |data|);
  }

  /** A call that stops inside a piece stops the whole. */
  lemma StopsWhole(r0: Run, done: seq<char>, piece: seq<char>, rest: seq<char>, n: nat, ps: Parser, stop: Stop)
    requires var r := Restart(FeedAll(r0, done));
             n <= |piece| && FeedAll(r, piece).stop == stop && !stop.Go?
             && ps == Ended(r, piece, 0, FeedAll(r, piece).ps, n)
    ensures var whole := done + piece + rest;
            |done| + n <= |whole| && ps == Ended(r0, whole, |done|, FeedAll(r0, whole).ps, |done| + n)
  {
    hide Step, Feed, EntryState, Ended;
    PieceEnded(r0, done, piece, rest, n);
    FeedShift(FeedAll(r0, done), piece, |piece|);
    FeedConcat(r0, done, piece);
    StaysStopped(r0, done + piece, rest);
  }

  lemma LivesFollowed(r0: Run, done: seq<char>, rest: seq<char>, lo: nat, ps: Parser, calls: seq<Event>,
                      lost: seq<Event>, consumed: nat)
    requires Followed(r0, done, rest, lo, ps, calls, lost, consumed, Go) && ps.errno.OK? && rest == []
    requires consumed == |done|
    ensures NoSkip(r0, done, |done|) ==>
              SameAs(FeedAll(r0, done), ps, Merged(calls + lost), consumed, Go)
              && ps == Ended(r0, done, |done|, FeedAll(r0, done).ps, consumed)
  {
    hide Step, Feed, FeedAll, NoSkip, EntryState;
    assert done + rest == done;
  }

  /**
   Feeds the pieces one call at a time, as long as the parser takes them, and ends exactly where one call over
   the whole input ends: same error position, same callbacks and same data, and the same fields but for the header state
   of a rejected header value, which is the one that the last call, on piece `last`, has stored.
   */
  method ExecutePieces(parser: LiveParser, pieces: seq<seq<char>>)
    returns (consumed: nat, stop: Stop, lost: seq<Event>, overflow: bool, ghost last: nat)
    requires parser.Valid() && parser.ps.errno.OK?
    requires forall k | 0 <= k < |pieces| :: pieces[k] != [] && |pieces[k]| <= MAX_CALL
    modifies parser
    ensures NoSkip(old(parser.Now()), Flatten(pieces), |Flatten(pieces)|) ==>
              (overflow <==> Refused(old(parser.Now()), Flatten(pieces), Ends(pieces), old(parser.nread)))
    ensures (stop.Go? || stop.Exited?) && NoSkip(old(parser.Now()), Flatten(pieces), |Flatten(pieces)|) ==>
              consumed <= |Flatten(pieces)|
              && parser.nread == Count(old(parser.Now()), Flatten(pieces), Ends(pieces), consumed, old(parser.nread))
    ensures parser.Valid() && !stop.Panicked? && (overflow ==> stop.Failed?) && last <= |pieces|
    ensures stop.Go? || stop.Exited? ==> lost == [] && parser.ps.errno.OK?
    ensures !overflow && NoSkip(old(parser.Now()), Flatten(pieces), |Flatten(pieces)|) ==>
              SameAs(FeedAll(old(parser.Now()), Flatten(pieces)), parser.ps, Merged(parser.calls + lost), consumed,
                     stop)
    ensures !overflow && NoSkip(old(parser.Now()), Flatten(pieces), |Flatten(pieces)|) ==>
              var r := FeedAll(old(parser.Now()), Flatten(pieces));
              consumed <= |Flatten(pieces)|
              && parser.ps == Ended(old(parser.Now()), Flatten(pieces), CutAt(pieces, last), r.ps, consumed)
    ensures !overflow && stop.Failed? && NoSkip(old(parser.Now()), Flatten(pieces), |Flatten(pieces)|) ==>
              last < |pieces| && CutAt(pieces, last) <= consumed < CutAt(pieces, last + 1)
  {
    hide Step, Merged, Feed, FeedAll, Settled, NoSkip, Tally, Ended, Ends, OneCall, Count, Within, Refused, Past;
    ghost var r0 := parser.Now();
    ghost var whole := Flatten(pieces);
    ghost var done: seq<char> := [];
    consumed, stop, lost, overflow, last := 0, Go, [], false, |pieces|;
    var k := 0;
    assert pieces[k..] == pieces && done + whole == whole && pieces[..k] == [];
    NothingYet(r0, whole, Ends(pieces), parser.nread);
    NothingTaken(r0, whole, Ends(pieces), parser.nread);
    assert parser.calls + lost == parser.calls;
    while k < |pieces|
      invariant k <= |pieces| && parser.Valid() && parser.ps.errno.OK? && stop == Go && lost == [] && !overflow
      invariant last == |pieces|
      invariant done + Flatten(pieces[k..]) == whole && |done| == consumed && done == Flatten(pieces[..k])
      invariant Accounted(r0, done, Flatten(pieces[k..]), Ends(pieces), old(parser.nread), parser.nread)
      invariant Followed(r0, done, Flatten(pieces[k..]), 0, parser.ps, parser.calls, lost, consumed, Go)
    {
      var piece := pieces[k];
      ghost var rest := Flatten(pieces[k + 1..]);
      assert pieces[k..][1..] == pieces[k + 1..];
      assert Flatten(pieces[k..]) == piece + rest;
      assert done + (piece + rest) == done + piece + rest;
      FlattenSnoc(pieces, k);
      PieceIsCall(pieces, k);
      assert parser.calls + lost == parser.calls;
      var n;
      n, stop, lost, overflow := NextPiece(parser, piece, r0, done, rest, Ends(pieces), old(parser.nread));
      consumed := consumed + n;
      if stop != Go {
        last := k;
        return;
      }
      done := done + piece;
      k := k + 1;
    }
    assert pieces[k..] == [] && pieces[..k] == pieces && done + [] == done;
    AllTaken(r0, done, Ends(pieces), old(parser.nread), parser.nread);
    LivesFollowed(r0, done, [], 0, parser.ps, parser.calls, lost, consumed);
  }

  lemma NothingTaken(r0: Run, data: seq<char>, cuts: set<nat>, t0: nat)
    ensures Within(r0, data, cuts, t0, 0, Past(data, 0))
  {
    hide Feed, Count;
  }

  lemma AllTaken(r0: Run, data: seq<char>, cuts: set<nat>, t0: nat, nread: nat)
    requires Accounted(r0, data, [], cuts, t0, nread)
    ensures NoSkip(r0, data, |data|) ==>
              nread == Count(r0, data, cuts, |data|, t0) && !Refused(r0, data, cuts, t0)
  {
    hide Feed, Count, NoSkip;
    assert data + [] == data;
  }

  /**
   Split invariance: two ways of cutting one input into calls cannot be told apart, but for the header state of a parser
   that has rejected a byte of a header value.
   */
  method TwoCuttings(x: LiveParser, y: LiveParser, cut1: seq<seq<char>>, cut2: seq<seq<char>>)
    returns (n1: nat, n2: nat, stop1: Stop, stop2: Stop, lost1: seq<Event>, lost2: seq<Event>, over1: bool, over2: bool,
             ghost last1: nat, ghost last2: nat)
    requires x != y && x.Valid() && y.Valid() && x.ps == y.ps && x.ps.errno.OK? && Merged(x.calls) == Merged(y.calls)
    requires forall k | 0 <= k < |cut1| :: cut1[k] != [] && |cut1[k]| <= MAX_CALL
    requires forall k | 0 <= k < |cut2| :: cut2[k] != [] && |cut2[k]| <= MAX_CALL
    requires Flatten(cut1) == Flatten(cut2) && NoSkip(x.Now(), Flatten(cut1), |Flatten(cut1)|)
    modifies x, y
    ensures over1 <==> Refused(old(x.Now()), Flatten(cut1), Ends(cut1), old(x.nread))
    ensures over2 <==> Refused(old(x.Now()), Flatten(cut1), Ends(cut2), old(y.nread))
    ensures !over1 && !over2 ==> n1 == n2 && stop1 == stop2 && Merged(x.calls + lost1) == Merged(y.calls + lost2)
    ensures !over1 && !over2 ==> Settled(x.ps) == Settled(y.ps) && (!RejectsValue(x.ps) ==> x.ps == y.ps)
    ensures !over1 && !over2 && stop1.Failed? ==>
              && last1 < |cut1| && CutAt(cut1, last1) <= n1 < CutAt(cut1, last1 + 1)
              && last2 < |cut2| && CutAt(cut2, last2) <= n1 < CutAt(cut2, last2 + 1)
    ensures !over1 && !over2 ==> last1 <= |cut1| && last2 <= |cut2| && n1 <= |Flatten(cut1)|
    ensures !over1 && !over2 && RejectsValue(x.ps) ==>
              && x.ps.headerState == EntryState(old(x.Now()), Flatten(cut1), CutAt(cut1, last1), n1)
              && y.ps.headerState == EntryState(old(x.Now()), Flatten(cut1), CutAt(cut2, last2), n1)
  {
    hide Step, Merged, Feed, FeedAll, NoSkip, Count, EntryState, CutAt, Refused, Ends;
    n1, stop1, lost1, over1, last1 := ExecutePieces(x, cut1);
    n2, stop2, lost2, over2, last2 := ExecutePieces(y, cut2);
  }

  // ---------------------------------------------------------------- when cutting does show

  /** At a hidden byte the byte machine rejects the value, so there is only one such byte. */
  lemma SkipStops(r0: Run, data: seq<char>, i: nat)
    requires SkipsAt(r0, data, i) && r0.consumed == 0
    ensures Feed(r0, data, i).stop.Go? && Feed(r0, data, i).consumed == i
    ensures var r := Feed(r0, data, i + 1); r.stop.Failed? && r.ps.errno == InvalidHeaderToken && r.consumed == i
    ensures NoSkip(r0, data, i)
  {
    hide Step;
    FeedCounts(r0, data, i);
    ValueState(Feed(r0, data, i).ps, data[i]);
    forall j | 0 <= j < i ensures !SkipsAt(r0, data, j) {
      if SkipsAt(r0, data, j) {
        ValueState(Feed(r0, data, j).ps, data[j]);
        FeedStays(r0, data, j + 1, i);
        assert false;
      }
    }
  }

  /** The piece in front of a hidden byte hides nothing itself. */
  lemma BeforeSkip(r0: Run, a: seq<char>, b: seq<char>)
    requires SkipsAt(r0, a + b, |a|) && r0.consumed == 0
    ensures NoSkip(r0, a, |a|) && FeedAll(r0, a).stop.Go?
    ensures var q := FeedAll(r0, a).ps; b != [] && q.state.HeaderValue? && !q.lenient && !IsHeaderChar(b[0])
  {
    hide Step;
    SkipStops(r0, a + b, |a|);
    FeedPrefix(r0, a, b, |a|);
    assert (a + b)[|a|] == b[0];
    forall j | 0 <= j < |a| ensures !SkipsAt(r0, a, j) {
      if SkipsAt(r0, a, j) { SkipsLonger(r0, a, b, j); }
    }
  }

  /** A call that starts on a bad byte of a header value rejects it. */
  lemma RejectsFirst(r1: Run, b: seq<char>)
    requires r1.stop.Go? && r1.consumed == 0 && b != []
    requires r1.ps.state.HeaderValue? && !r1.ps.lenient && !IsHeaderChar(b[0])
    ensures NoSkip(r1, b, |b|) && FeedAll(r1, b).stop.Failed? && FeedAll(r1, b).consumed == 0
            && FeedAll(r1, b).ps.errno == InvalidHeaderToken && FeedAll(r1, b).ps.state.HeaderValue?
  {
    hide Step;
    ValueState(r1.ps, b[0]);
    assert Feed(r1, b, 0) == r1;
    FeedStays(r1, b, 1, |b|);
    forall j | 0 <= j < |b| ensures !SkipsAt(r1, b, j) {
      if j > 1 { FeedStays(r1, b, 1, j); }
    }
  }

  /** The two pieces around a hidden byte hide nothing themselves. */
  lemma CutAtSkip(r0: Run, a: seq<char>, b: seq<char>)
    requires SkipsAt(r0, a + b, |a|) && r0.consumed == 0
    ensures NoSkip(r0, a, |a|) && FeedAll(r0, a).stop.Go?
    ensures var r1 := Restart(FeedAll(r0, a));
            NoSkip(r1, b, |b|) && FeedAll(r1, b).stop.Failed? && FeedAll(r1, b).consumed == 0
            && FeedAll(r1, b).ps.errno == InvalidHeaderToken && FeedAll(r1, b).ps.state.HeaderValue?
  {
    hide Step, Feed, FeedAll, SkipsAt, NoSkip, IsHeaderChar;
    BeforeSkip(r0, a, b);
    RejectsFirst(Restart(FeedAll(r0, a)), b);
  }

  /**
   The exact limit of split invariance: whenever the memchr jump hides byte |a| of an input, one call runs past
   that byte while two calls cut in front of it stop there with an invalid-header error.
   */
  method HiddenByteShows(x: LiveParser, y: LiveParser, a: seq<char>, b: seq<char>)
    returns (n1: nat, n2: nat, overflow: bool)
    requires x != y && x.Valid() && y.Valid() && x.ps == y.ps && x.ps.errno.OK? && Merged(x.calls) == Merged(y.calls)
    requires a != [] && b != [] && |a + b| <= MAX_CALL
    requires SkipsAt(x.Now(), a + b, |a|)
    modifies x, y
    ensures overflow ==>
              old(x.nread) + |a + b| >= HTTP_MAX_HEADER_SIZE || old(y.nread) + |a + b| + 2 > HTTP_MAX_HEADER_SIZE
    ensures !overflow ==> n2 == |a| < n1 && y.ps.errno == InvalidHeaderToken
  {
    hide Step, Feed, Merged, Tally, Trips, Inner, EntryState;
    ghost var r0 := x.Now();
    CutAtSkip(r0, a, b);
    SkipStops(r0, a + b, |a|);
    assert SkipsAt(r0, a + b, |a|);
    var s1, lost1, over1 := Go, [], false;
    n1, s1, lost1, over1 := x.Execute(a + b);
    if over1 { return n1, 0, true; }
    var s2, lost2, over2, k := Go, [], false, 0;
    n2, s2, lost2, over2 := y.Execute(a);
    if over2 { return n1, n2, true; }
    assert y.calls + lost2 == y.calls;
    assert y.Now() == Restart(FeedAll(r0, a));
    k, s2, lost2, over2 := y.Execute(b);
    return n1, n2 + k, over2;
  }
}
