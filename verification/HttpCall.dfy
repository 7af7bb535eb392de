/**
 The outer loop of `http_parser_execute`: header-size accounting, dispatch over
 the states, and why one mark is enough.
 */
module HttpCall {
  import opened HttpMachine
  import opened HttpFeed
  import opened HttpExecute
  import opened HttpInvariant

  const TWO_32: nat := 0x1_0000_0000

  /** Longest buffer for which the 32-bit header count cannot wrap round unnoticed. */
  const MAX_CALL: nat := TWO_32 - HTTP_MAX_HEADER_SIZE - 1

  /** The locals of a call in progress: parser, callbacks made, mark, cursor, header count. */
  datatype Call = Call(q: Parser, calls: seq<Event>, m: MarkAt, p: nat, nread: nat)

  datatype Verdict = Continue | Overflow | Stopped(stop: Stop)

  /** A live parser is within the header size, and the chunk-size state is only ever entered with a cleared count. */
  predicate CountOk(s: State, nread: nat) { nread <= HTTP_MAX_HEADER_SIZE && (s.ChunkSizeStart? ==> nread == 0) }

  ghost predicate Sound(r0: Run, data: seq<char>, c: Call) {
    && c.p <= |data| && MarkBelow(c.m, c.p)
    && c.q.errno.OK? && CountOk(c.q.state, c.nread) && Inv(c.q)
    && MarkFits(c.m, c.q.state, c.p, |data|)
    && (NoSkip(r0, data, c.p) ==> InStep(r0, data, c.p, c.q, c.calls, c.m))
    && (NoSkip(r0, data, c.p) && c.q.state.HeaderValue? ==> !SkipsAt(r0, data, c.p))
  }

  /** How a call that stops early stands to the byte machine's run over the whole buffer. */
  ghost predicate Halted(r0: Run, data: seq<char>, c: Call, stop: Stop) {
    && c.p <= |data| && MarkBelow(c.m, c.p) && (stop.Failed? || stop.Exited?)
    && (stop.Exited? ==> c.m.NoMark? && CountOk(c.q.state, c.nread) && Inv(c.q))
    && (stop.Failed? <==> !c.q.errno.OK?)
    && (NoSkip(r0, data, c.p) ==>
          var r := FeedAll(r0, data);
          !SkipsAt(r0, data, c.p) && Settled(r.ps) == Settled(c.q)
          && r == Run(r.ps, Pending(Merged(c.calls), c.m, data, c.p), stop, c.p))
  }

  /** The header count of a call at offset `p`: exact, and one more at the end of a buffer that cuts an inner loop. */
  ghost predicate Counts(r0: Run, data: seq<char>, n0: nat, p: nat, nread: nat) {
    p <= |data| && nread == Tally(r0, data, p, n0) + (if p == |data| then Extra(r0, data, p) else 0)
  }

  ghost predicate Outcome(r0: Run, data: seq<char>, n0: nat, c: Call, v: Verdict) {
    match v
    case Continue =>
      && Sound(r0, data, c) && c.nread <= n0 + c.p + (if c.p == |data| then 1 else 0)
      && (NoSkip(r0, data, c.p) ==> Counts(r0, data, n0, c.p, c.nread))
    case Stopped(stop) =>
      && Halted(r0, data, c, stop)
      && (stop.Exited? && NoSkip(r0, data, c.p) ==> Counts(r0, data, n0, c.p, c.nread))
    case Overflow =>
      && c.p <= |data| && n0 + |data| >= HTTP_MAX_HEADER_SIZE && c.q.errno == HeaderOverflow
      && (NoSkip(r0, data, |data|) ==> exists k: nat :: Trips(r0, data, n0, k))
  }

  /** Behind which offset the comparisons have been made when a call has come to offset `p`. */
  function Past(data: seq<char>, p: nat): nat { if p == |data| then p + 1 else p }

  /** The part of a call from `lo` on has passed all its comparisons. */
  ghost predicate Passes(r0: Run, data: seq<char>, n0: nat, lo: nat, c: Call, v: Verdict) {
    match v
    case Continue => NoSkip(r0, data, c.p) ==> Untripped(r0, data, n0, lo, Past(data, c.p))
    case Stopped(_) => NoSkip(r0, data, c.p) ==> Untripped(r0, data, n0, lo, c.p + 1)
    case Overflow => true
  }

  /** The header state stored in the parser is the one the call entered the header value with. */
  ghost predicate Entered(r0: Run, data: seq<char>, c: Call) {
    NoSkip(r0, data, c.p) && InText(c.q.state) && c.p < |data| ==>
      !Inner(r0, data, c.p) && (c.q.state.HeaderValue? ==> EntryState(r0, data, 0, c.p) == c.q.headerState)
  }

  /** Not even the header state of a parser that stopped is left open. */
  ghost predicate Precise(r0: Run, data: seq<char>, c: Call) {
    c.p <= |data| && (NoSkip(r0, data, c.p) ==> c.q == Ended(r0, data, 0, FeedAll(r0, data).ps, c.p))
  }

  lemma SettledIsPrecise(r0: Run, data: seq<char>, c: Call, stop: Stop)
    requires Halted(r0, data, c, stop)
    requires RejectsValue(c.q) && NoSkip(r0, data, c.p) ==> c.q.headerState == EntryState(r0, data, 0, c.p)
    ensures Precise(r0, data, c)
  {
    hide Feed, FeedAll, Merged, Pending, EntryState;
  }

  /** The header count after `v` more bytes, in 32-bit arithmetic. */
  function Counted(n: nat, v: nat): nat { (n + v) % TWO_32 }

  /** The byte machine stops at byte `p`, as the call does. */
  lemma HaltsHere(r0: Run, data: seq<char>, p: nat, c: Call, stop: Stop)
    requires p < |data| && c.p <= |data| && MarkBelow(c.m, c.p) && (stop.Failed? || stop.Exited?)
    requires stop.Exited? ==> c.m.NoMark? && CountOk(c.q.state, c.nread) && Inv(c.q)
    requires stop.Failed? <==> !c.q.errno.OK?
    requires NoSkip(r0, data, c.p) ==>
               var r := Feed(r0, data, p + 1);
               !SkipsAt(r0, data, c.p) && Settled(r.ps) == Settled(c.q)
               && r == Run(r.ps, Pending(Merged(c.calls), c.m, data, c.p), stop, c.p)
    ensures Halted(r0, data, c, stop)
  {
    hide Step, Pending;
    if NoSkip(r0, data, c.p) {
      FeedStays(r0, data, p + 1, |data|);
    }
  }

  predicate InHeaders(s: State) {
    s.HeaderFieldStart? || s.HeaderValueDiscardWs? || s.HeaderValueDiscardLws? || s.HeaderValueStart?
    || s.HeaderValueLws? || s.HeadersAlmostDone? || s.HeadersDone?
  }

  lemma PlainRejects(q: Parser, ch: char)
    requires q.errno.OK? && !Scanning(q.state)
    ensures !RejectsValue(PlainStep(q, ch).ps)
  {
    hide PlainStep, InHeaders;
    if InHeaders(q.state) { InHeadersRejects(q, ch); } else { OtherRejects(q, ch); }
  }

  lemma InHeadersRejects(q: Parser, ch: char)
    requires q.errno.OK? && InHeaders(q.state)
    ensures !RejectsValue(PlainStep(q, ch).ps)
  {
    hide HeaderFieldStartStep, DiscardWsStep, DiscardLwsStep, ValueStartStep, ValueLwsStep, HeadersAlmostDoneStep,
         HeadersDoneStep,
         StartStep, ResponseLineStep, RequestLineStep, UrlStep, ChunkStep, MessageDoneStep, HeaderAlmostDoneStep,
         Expect;
    HeaderRejects(q, ch);
    hide RejectsValue;
  }

  lemma OtherRejects(q: Parser, ch: char)
    requires q.errno.OK? && !Scanning(q.state) && !InHeaders(q.state)
    ensures !RejectsValue(PlainStep(q, ch).ps)
  {
    StartRejects(q, ch);
    RequestRejects(q, ch);
    ResponseRejects(q, ch);
    UrlRejects(q, ch);
    ChunkRejects(q, ch);
    hide StartStep, ResponseLineStep, RequestLineStep, UrlStep, ChunkStep, MessageDoneStep;
  }

  lemma StartRejects(q: Parser, ch: char)
    requires q.errno.OK?
    ensures !StartStep(q, ch).ps.errno.InvalidHeaderToken?
  {
  }

  lemma RequestRejects(q: Parser, ch: char)
    requires q.errno.OK?
    ensures !RequestLineStep(q, ch).ps.errno.InvalidHeaderToken?
  {
  }

  lemma ResponseRejects(q: Parser, ch: char)
    requires q.errno.OK?
    ensures !ResponseLineStep(q, ch).ps.errno.InvalidHeaderToken?
  {
  }

  lemma UrlRejects(q: Parser, ch: char)
    requires q.errno.OK?
    ensures !UrlStep(q, ch).ps.errno.InvalidHeaderToken?
  {
    hide ParseUrlChar;
  }

  lemma ChunkRejects(q: Parser, ch: char)
    requires q.errno.OK?
    ensures !ChunkStep(q, ch).ps.errno.InvalidHeaderToken? && !MessageDoneStep(q).ps.errno.InvalidHeaderToken?
  {
  }

  lemma DoneRejects(q: Parser, ch: char)
    requires q.errno.OK?
    ensures !HeadersAlmostDoneStep(q, ch).ps.errno.InvalidHeaderToken?
    ensures !HeadersDoneStep(q, ch).ps.errno.InvalidHeaderToken?
  {
  }

  lemma NameRejects(q: Parser, ch: char)
    requires q.errno.OK? && q.state.HeaderFieldStart?
    ensures !RejectsValue(HeaderFieldStartStep(q, ch).ps)
  {
    DoneRejects(q.(state := HeadersAlmostDone), ch);
    hide HeadersAlmostDoneStep;
  }

  lemma ValueRejects(q: Parser, ch: char)
    requires q.errno.OK?
    ensures !ValueStartStep(q, ch).ps.errno.InvalidHeaderToken?
  {
  }

  lemma HeaderRejects(q: Parser, ch: char)
    requires q.errno.OK?
    ensures q.state.HeaderFieldStart? ==> !RejectsValue(HeaderFieldStartStep(q, ch).ps)
    ensures !RejectsValue(DiscardWsStep(q, ch).ps) && !RejectsValue(DiscardLwsStep(q, ch).ps)
    ensures !RejectsValue(ValueStartStep(q, ch).ps) && !RejectsValue(ValueLwsStep(q, ch).ps)
    ensures !RejectsValue(HeadersAlmostDoneStep(q, ch).ps) && !RejectsValue(HeadersDoneStep(q, ch).ps)
  {
    assert NoteFlag(q).errno == q.errno;
    if q.state.HeaderFieldStart? { NameRejects(q, ch); }
    NameRejects(NoteFlag(q).(state := HeaderFieldStart), ch);
    ValueRejects(q, ch);
    ValueRejects(q.(state := HeaderValueStart), ch);
    DoneRejects(q, ch);
    hide HeaderFieldStartStep, ValueStartStep, HeadersAlmostDoneStep, HeadersDoneStep, NoteFlag;
  }

  /** The call behind a byte without a scan of its own, where `n` already counts the byte. */
  function PlainCall(data: seq<char>, c: Call, n: nat): Call
    requires c.p < |data| && MarkBelow(c.m, c.p) && !Scanning(c.q.state)
  {
    var o := PlainStep(c.q, data[c.p]);
    var (calls, m) := Perform(c.calls, c.m, o.acts, data, c.p);
    Call(o.ps, calls, m, if o.stop.Failed? || o.stop.Panicked? then c.p else c.p + 1, if o.reset then 0 else n)
  }

  /** One byte in a state without a scan of its own; `n` already counts it. */
  method PlainByte(data: seq<char>, c: Call, n: nat, ghost r0: Run, ghost n0: nat) returns (c': Call, v: Verdict)
    requires Sound(r0, data, c) && c.p < |data| && !Scanning(c.q.state)
    requires n <= HTTP_MAX_HEADER_SIZE && n <= n0 + c.p + 1
    requires NoSkip(r0, data, c.p) ==> n == Tally(r0, data, c.p, n0) + (if ParsingHeader(c.q.state) then 1 else 0)
    ensures Outcome(r0, data, n0, c', v) && !v.Overflow? && (v.Continue? ==> c'.p == c.p + 1)
    ensures !RejectsValue(c'.q) && (v.Continue? ==> Entered(r0, data, c')) && Passes(r0, data, n0, c.p, c', v)
  {
    hide Step, PlainStep, Feed, Merged, Tidy, AddSpan, Tally, EntryState, Passes, Inner, Outcome, Sound, Entered,
         Perform, Pending;
    SoundMark(r0, data, c);
    var o := PlainStep(c.q, data[c.p]);
    PlainRejects(c.q, data[c.p]);
    c' := PlainCall(data, c, n);
    if o.stop.Go? {
      PlainGoes(r0, data, c, n, n0);
      return c', Continue;
    }
    PlainStops(r0, data, c, n, n0);
    return c', Stopped(o.stop);
  }

  lemma SoundMark(r0: Run, data: seq<char>, c: Call)
    requires Sound(r0, data, c)
    ensures c.p <= |data| && MarkBelow(c.m, c.p) && c.q.errno.OK? && MarkFits(c.m, c.q.state, c.p, |data|) && Inv(c.q)
    ensures NoSkip(r0, data, c.p) ==> InStep(r0, data, c.p, c.q, c.calls, c.m)
  {
    hide InStep, Inv, SkipsAt, NoSkip;
  }

  lemma PlainGoes(r0: Run, data: seq<char>, c: Call, n: nat, n0: nat)
    requires Sound(r0, data, c) && c.p < |data| && !Scanning(c.q.state) && PlainStep(c.q, data[c.p]).stop.Go?
    requires n <= HTTP_MAX_HEADER_SIZE && n <= n0 + c.p + 1
    requires NoSkip(r0, data, c.p) ==> n == Tally(r0, data, c.p, n0) + (if ParsingHeader(c.q.state) then 1 else 0)
    ensures var c' := PlainCall(data, c, n);
            Outcome(r0, data, n0, c', Continue) && Entered(r0, data, c') && Passes(r0, data, n0, c.p, c', Continue)
  {
    hide Step, PlainStep, Feed, Merged, Tidy, AddSpan, Tally, EntryState, Passes, Inner, Perform, Pending, InStep, Inv,
         SkipsAt;
    var c' := PlainCall(data, c, n);
    MarkAfter(data, c.p, c.q, c.calls, c.m);
    PlainKeeps(c.q, data[c.p]);
    if NoSkip(r0, data, c.p) {
      PlainAdvance(r0, data, c.p, c.q, c.calls, c.m);
      TallyNext(r0, data, c.p, c.q, c.calls, c.m, n0);
      PlainInner(r0, data, c);
      PlainEntered(r0, data, c, c');
      PlainQuiet(r0, data, c);
    }
    PlainPasses(r0, data, n0, c, c', Continue);
  }

  lemma PlainStops(r0: Run, data: seq<char>, c: Call, n: nat, n0: nat)
    requires Sound(r0, data, c) && c.p < |data| && !Scanning(c.q.state) && !PlainStep(c.q, data[c.p]).stop.Go?
    requires n <= HTTP_MAX_HEADER_SIZE
    requires NoSkip(r0, data, c.p) ==> n == Tally(r0, data, c.p, n0) + (if ParsingHeader(c.q.state) then 1 else 0)
    ensures var (c', stop) := (PlainCall(data, c, n), PlainStep(c.q, data[c.p]).stop);
            Outcome(r0, data, n0, c', Stopped(stop)) && Passes(r0, data, n0, c.p, c', Stopped(stop))
  {
    hide Step, PlainStep, Feed, Merged, Tidy, AddSpan, Tally, EntryState, Passes, Inner, Perform, InStep, Inv, SkipsAt,
         Halted;
    var c' := PlainCall(data, c, n);
    MarkAfter(data, c.p, c.q, c.calls, c.m);
    PlainKeeps(c.q, data[c.p]);
    if NoSkip(r0, data, c.p) {
      PlainAdvance(r0, data, c.p, c.q, c.calls, c.m);
      TallyNext(r0, data, c.p, c.q, c.calls, c.m, n0);
      PlainInner(r0, data, c);
      PlainQuiet(r0, data, c);
    }
    HaltsHere(r0, data, c.p, c', PlainStep(c.q, data[c.p]).stop);
    PlainPasses(r0, data, n0, c, c', Stopped(PlainStep(c.q, data[c.p]).stop));
  }

  lemma PlainEntered(r0: Run, data: seq<char>, c: Call, c': Call)
    requires InStep(r0, data, c.p, c.q, c.calls, c.m) && c.p < |data| && !Scanning(c.q.state)
    requires c'.p == c.p + 1 && InStep(r0, data, c'.p, c'.q, c'.calls, c'.m)
    ensures Entered(r0, data, c')
  {
    hide Feed, Pending, Merged, EntryState, NoSkip;
    EntryHere(r0, data, 0, c.p + 1);
  }

  /** Around a byte without a scan of its own nothing is hidden. */
  lemma PlainQuiet(r0: Run, data: seq<char>, c: Call)
    requires InStep(r0, data, c.p, c.q, c.calls, c.m) && c.p < |data| && !Scanning(c.q.state)
    ensures !SkipsAt(r0, data, c.p) && !SkipsAt(r0, data, c.p + 1)
  {
    hide Feed, Pending, Merged;
  }

  lemma PlainInner(r0: Run, data: seq<char>, c: Call)
    requires InStep(r0, data, c.p, c.q, c.calls, c.m) && c.p < |data| && !Scanning(c.q.state)
    ensures !Inner(r0, data, c.p) && !Inner(r0, data, c.p + 1)
  {
    hide Feed, Pending, Merged;
  }

  /** The comparison in front of a byte without a scan of its own. */
  lemma PlainPasses(r0: Run, data: seq<char>, n0: nat, c: Call, c': Call, v: Verdict)
    requires c.p < |data| && (v.Continue? || v.Stopped?) && (c'.p == c.p + 1 || (v.Stopped? && c'.p == c.p))
    requires NoSkip(r0, data, c.p) ==>
               InStep(r0, data, c.p, c.q, c.calls, c.m) && !Scanning(c.q.state)
               && (ParsingHeader(c.q.state) ==> Tally(r0, data, c.p, n0) < HTTP_MAX_HEADER_SIZE)
    requires v.Stopped? && c'.p > c.p ==> NoSkip(r0, data, c.p) ==> !Feed(r0, data, c'.p).stop.Go?
    ensures Passes(r0, data, n0, c.p, c', v)
  {
    hide Feed, Pending, Merged, Tally, Inner, SkipsAt;
    if NoSkip(r0, data, c.p) { PlainInner(r0, data, c); }
  }

  /** The loop of the header-name case, from offset `p0` to the first non-token byte. */
  method ScanField(data: seq<char>, p0: nat, q0: Parser, ghost r0: Run, ghost calls: seq<Event>, ghost m: MarkAt,
                   ghost t0: nat)
    returns (q: Parser, p: nat)
    requires p0 < |data| && q0.state.HeaderField? && q0.errno.OK? && Inv(q0) && m.At? && m.kind == Field && m.pos <= p0
    requires NoSkip(r0, data, p0) ==> InStep(r0, data, p0, q0, calls, m)
    ensures p0 <= p <= |data| && q.state.HeaderField? && q.errno.OK? && Inv(q)
    ensures p == |data| || Token(data[p]) == '\0'
    ensures NoSkip(r0, data, p) ==>
              InStep(r0, data, p, q, calls, m) && Tally(r0, data, p, t0) == Tally(r0, data, p0, t0) + (p - p0)
    ensures NoSkip(r0, data, p) ==> Unchecked(r0, data, p0, p)
  {
    hide Step, Feed, Merged, Pending, FieldByte, InStep, Token, Tally, Unchecked;
    q, p := q0, p0;
    UncheckedNone(r0, data, p0);
    while p < |data| && Token(data[p]) != '\0'
      invariant p0 <= p <= |data| && q.state.HeaderField? && q.errno.OK? && Inv(q)
      invariant NoSkip(r0, data, p) ==>
                  InStep(r0, data, p, q, calls, m) && Tally(r0, data, p, t0) == Tally(r0, data, p0, t0) + (p - p0)
      invariant NoSkip(r0, data, p) ==> Unchecked(r0, data, p0, p)
    {
      var ch := data[p];
      FieldState(q, ch);
      FieldKeeps(q, Token(ch), ch);
      var w := FieldByte(q.headerState, q.index, Token(ch), ch);
      assert w.Progress?;
      var q' := q.(headerState := w.m.h, index := w.m.index);
      if NoSkip(r0, data, p) {
        ByteJoins(r0, data, p, q, calls, m, q');
        TallyScan(r0, data, p, q, calls, m, t0);
        UncheckedOn(r0, data, p0, p, q, calls, m, q', m);
      }
      q, p := q', p + 1;
    }
  }

  /** The header-name case: the scan, then the byte that ended it. */
  method FieldBytes(data: seq<char>, c: Call, n: nat, ghost r0: Run, ghost n0: nat) returns (c': Call, v: Verdict)
    requires Sound(r0, data, c) && c.p < |data| && c.q.state.HeaderField? && |data| <= MAX_CALL
    requires n <= HTTP_MAX_HEADER_SIZE && n <= n0 + c.p + 1 && Entered(r0, data, c)
    requires NoSkip(r0, data, c.p) ==> n == Tally(r0, data, c.p, n0) + 1
    ensures Outcome(r0, data, n0, c', v) && (v.Continue? ==> c'.p > c.p) && !c'.q.state.HeaderValue?
    ensures v.Continue? && c'.q.state.HeaderField? ==> c'.p == |data|
    ensures v.Overflow? || Passes(r0, data, n0, c.p, c', v)
  {
    hide Step, Feed, Merged, Pending, FieldByte, Settled, Token, Tally, Unchecked, Passes, Trips, InStep, SkipsAt, Inv,
         Inner, EntryState, Untripped;
    var q, p := ScanField(data, c.p, c.q, r0, c.calls, c.m, n0);
    var n' := Counted(n, p - c.p);
    if NoSkip(r0, data, p) { ScanChecks(r0, data, n0, c, q, p, n'); }
    if n' > HTTP_MAX_HEADER_SIZE {
      return Call(q.(errno := HeaderOverflow), c.calls, c.m, p, n'), Overflow;
    }
    if p == |data| {
      c', v := Call(q, c.calls, c.m, p, n'), Continue;
      EndPasses(r0, data, n0, c.p, c');
      return;
    }
    c', v := FieldEnds(data, Call(q, c.calls, c.m, p, n'), r0, n0);
    FieldPasses(r0, data, n0, c.p, p, c', v);
  }

  lemma EndPasses(r0: Run, data: seq<char>, n0: nat, lo: nat, c: Call)
    requires c.p == |data| && (NoSkip(r0, data, c.p) ==> Untripped(r0, data, n0, lo, c.p + 1))
    ensures Passes(r0, data, n0, lo, c, Continue)
  {
  }

  lemma FieldPasses(r0: Run, data: seq<char>, n0: nat, lo: nat, p: nat, c': Call, v: Verdict)
    requires p < |data| && lo <= p && (NoSkip(r0, data, p) ==> Untripped(r0, data, n0, lo, p + 1))
    requires if v.Continue? then c'.p == p + 1 && !InText(c'.q.state)
                                 && (NoSkip(r0, data, c'.p) ==> InStep(r0, data, c'.p, c'.q, c'.calls, c'.m))
             else v.Stopped? && c'.p == p
    ensures Passes(r0, data, n0, lo, c', v)
  {
    hide Feed, Pending, Merged, Tally, SkipsAt;
  }

  /** The comparisons of a scan from `c.p` to `p`: the first has been passed, and `n'` decides the one at its end. */
  lemma ScanChecks(r0: Run, data: seq<char>, n0: nat, c: Call, q: Parser, p: nat, n': nat)
    requires c.p <= p <= |data| && c.p < |data| && NoSkip(r0, data, p) && Entered(r0, data, c) && InText(c.q.state)
    requires InStep(r0, data, c.p, c.q, c.calls, c.m) && InStep(r0, data, p, q, c.calls, c.m) && q.state == c.q.state
    requires Unchecked(r0, data, c.p, p) && Tally(r0, data, p, n0) == Tally(r0, data, c.p, n0) + (p - c.p)
    requires Tally(r0, data, c.p, n0) < HTTP_MAX_HEADER_SIZE && n' == Tally(r0, data, p, n0) + 1
    requires p < |data| ==> EndsText(q.state, data[p])
    ensures Inner(r0, data, p) <==> p > c.p
    ensures n' > HTTP_MAX_HEADER_SIZE ==> Trips(r0, data, n0, p)
    ensures n' <= HTTP_MAX_HEADER_SIZE ==> Untripped(r0, data, n0, c.p, p + 1)
  {
    hide Step, Feed, Merged, Pending, Tally, EndsText;
  }

  lemma NoExtra(r0: Run, data: seq<char>, k: nat)
    requires k <= |data| && !InText(Feed(r0, data, k).ps.state)
    ensures Extra(r0, data, k) == 0 && (k == |data| ==> !Checked(r0, data, k))
  {
    hide Feed;
  }

  lemma FieldClosed(r0: Run, data: seq<char>, p: nat, q: Parser, calls: seq<Event>)
    requires InStep(r0, data, p, q, calls, NoMark) && !InText(q.state)
    ensures Extra(r0, data, p) == 0 && !SkipsAt(r0, data, p)
  {
    hide Feed, Pending, Merged;
    NoExtra(r0, data, p);
  }

  lemma FieldQuiet(r0: Run, data: seq<char>, p: nat, q: Parser, calls: seq<Event>, m: MarkAt)
    requires InStep(r0, data, p, q, calls, m) && q.state.HeaderField?
    ensures !SkipsAt(r0, data, p)
  {
    hide Feed, Pending, Merged;
  }

  /** The byte that ends a header name: a colon, or an error. */
  method FieldEnds(data: seq<char>, c: Call, ghost r0: Run, ghost n0: nat) returns (c': Call, v: Verdict)
    requires Sound(r0, data, c) && c.p < |data| && c.q.state.HeaderField? && c.nread <= n0 + c.p + 1
    requires NoSkip(r0, data, c.p) ==> c.nread == Tally(r0, data, c.p, n0) + 1
    requires Token(data[c.p]) == '\0'
    ensures Outcome(r0, data, n0, c', v) && !v.Overflow? && !c'.q.state.HeaderValue?
    ensures if v.Continue? then c'.p == c.p + 1 && !c'.q.state.HeaderField? else c'.p == c.p
  {
    hide Step, Feed, Merged, Pending, Token, Tally, InStep, SkipsAt, Inv, Extra;
    var q, p := c.q, c.p;
    FieldState(q, data[p]);
    CarefreeInv(q.(state := HeaderValueDiscardWs));
    if data[p] == ':' {
      if NoSkip(r0, data, p) {
        ByteCloses(r0, data, p, q, c.calls, c.m, q.(state := HeaderValueDiscardWs));
        TallyScan(r0, data, p, q, c.calls, c.m, n0);
        FieldClosed(r0, data, p + 1, q.(state := HeaderValueDiscardWs), c.calls + [Data(Field, data[c.m.pos..p])]);
      }
      c' := Call(q.(state := HeaderValueDiscardWs), c.calls + [Data(Field, data[c.m.pos..p])], NoMark, p + 1, c.nread);
      return c', Continue;
    }
    c' := Call(q.(errno := InvalidHeaderToken), c.calls, c.m, p, c.nread);
    if NoSkip(r0, data, p) {
      ByteFails(r0, data, p, q, c.calls, c.m, StepOut(c'.q, [], Failed));
      FieldQuiet(r0, data, p, q, c.calls, c.m);
    }
    HaltsHere(r0, data, p, c', Failed);
    return c', Stopped(Failed);
  }

  /**
   What an overflow at the end of the scan leaves behind: at a CR the line has ended and the value has been handed over;
   at an LF the line has ended but the header state is not stored and the value is not handed over.
   */
  ghost predicate OverflowsAt(data: seq<char>, c: Call, c': Call) {
    if c'.p < |data| && data[c'.p] == CR then
      c.m.At? && c.m.pos <= c'.p && c'.q.state.HeaderAlmostDone? && c'.m.NoMark?
      && c'.calls == c.calls + [Data(Value, data[c.m.pos..c'.p])]
    else if c'.p < |data| then
      data[c'.p] == LF && c'.q.state.HeaderAlmostDone? && c'.q.headerState == c.q.headerState && c'.m == c.m
      && c'.calls == c.calls
    else
      c'.q.state.HeaderValue? && c'.m == c.m && c'.calls == c.calls
  }

  /** The header-value case. */
  method ValueBytes(data: seq<char>, c: Call, n: nat, ghost r0: Run, ghost n0: nat) returns (c': Call, v: Verdict)
    requires Sound(r0, data, c) && c.p < |data| && c.q.state.HeaderValue? && |data| <= MAX_CALL && Entered(r0, data, c)
    requires n <= HTTP_MAX_HEADER_SIZE && n <= n0 + c.p + 1
    requires NoSkip(r0, data, c.p) ==> n == Tally(r0, data, c.p, n0) + 1
    ensures Outcome(r0, data, n0, c', v) && (v.Continue? ==> c'.p > c.p)
    ensures v.Overflow? || Passes(r0, data, n0, c.p, c', v)
    ensures v.Continue? && InText(c'.q.state) ==> c'.p == |data|
    ensures v.Stopped? && RejectsValue(c'.q) && NoSkip(r0, data, c'.p) ==>
              c'.q.headerState == EntryState(r0, data, 0, c'.p)
    ensures v.Overflow? ==> OverflowsAt(data, c, c')
  {
    hide Step, Feed, Merged, Pending, ValueByte, Settled, Tally, Inv, EntryState, Unchecked, Passes, Trips, Token,
         InStep, SkipsAt, Inner, Checked, Untripped;
    var q, p, end := ScanValue(data, c.p, c.q, r0, c.calls, c.m, n0);
    if end.BadByte? || end.BadValue? {
      c', v := Call(q, c.calls, c.m, p, n), Stopped(Failed);
      HaltsHere(r0, data, p, c', Failed);
      RejectPasses(r0, data, n0, c, c');
      return;
    }
    var n' := Counted(n, p - c.p);
    if !end.Leapt? && NoSkip(r0, data, p) { ScanChecks(r0, data, n0, c, q, p, n'); }
    if n' > HTTP_MAX_HEADER_SIZE {
      q := q.(errno := HeaderOverflow);
      if end.AtCR? {
        return Call(q.(state := HeaderAlmostDone), c.calls + [Data(Value, data[c.m.pos..p])], NoMark, p, n'), Overflow;
      }
      if end.AtLF? {
        return Call(q.(state := HeaderAlmostDone, headerState := c.q.headerState), c.calls, c.m, p, n'), Overflow;
      }
      return Call(q, c.calls, c.m, p, n'), Overflow;
    }
    if p == |data| {
      c', v := Call(q, c.calls, c.m, p, n'), Continue;
      EndPasses(r0, data, n0, c.p, c');
      return;
    }
    c', v := ValueEnds(data, Call(q, c.calls, c.m, p, n'), r0, n0);
    FieldPasses(r0, data, n0, c.p, p, c', v);
  }

  /** No comparison comes between the one in front of a scan and a byte that it rejects. */
  lemma RejectPasses(r0: Run, data: seq<char>, n0: nat, c: Call, c': Call)
    requires c.p <= c'.p < |data| && Entered(r0, data, c) && c.q.state.HeaderValue?
    requires NoSkip(r0, data, c.p) ==>
               InStep(r0, data, c.p, c.q, c.calls, c.m) && Tally(r0, data, c.p, n0) < HTTP_MAX_HEADER_SIZE
    requires NoSkip(r0, data, c'.p) ==>
               Unchecked(r0, data, c.p, c'.p) && (c.p < c'.p ==> !Checked(r0, data, c'.p))
    ensures Passes(r0, data, n0, c.p, c', Stopped(Failed))
  {
    hide Feed, Merged, Pending, Tally, SkipsAt, Checked, Inner;
  }

  /** The byte that ends a line of a header value. */
  method ValueEnds(data: seq<char>, c: Call, ghost r0: Run, ghost n0: nat) returns (c': Call, v: Verdict)
    requires c.p < |data| && c.q.state.HeaderValue? && c.q.errno.OK? && c.m.At? && c.m.kind == Value && c.m.pos <= c.p
    requires data[c.p] == CR || data[c.p] == LF
    requires c.nread <= HTTP_MAX_HEADER_SIZE && c.nread <= n0 + c.p + 1
    requires NoSkip(r0, data, c.p) ==>
               InStep(r0, data, c.p, c.q, c.calls, c.m) && c.nread == Tally(r0, data, c.p, n0) + 1
    ensures Outcome(r0, data, n0, c', v) && v.Continue? && c'.p == c.p + 1 && !InText(c'.q.state)
  {
    hide Step, Feed, Merged, Pending, ValueByte, Tally, Inv;
    var q, p := c.q, c.p;
    var next := if data[p] == CR then HeaderAlmostDone else HeaderValueLws;
    CarefreeInv(q.(state := next));
    if NoSkip(r0, data, p) {
      ValueState(q, data[p]);
      ByteCloses(r0, data, p, q, c.calls, c.m, q.(state := next));
      TallyScan(r0, data, p, q, c.calls, c.m, n0);
      NoExtra(r0, data, p + 1);
    }
    return Call(q.(state := next), c.calls + [Data(Value, data[c.m.pos..p])], NoMark, p + 1, c.nread), Continue;
  }

  /** Chunk data: jump over as many bytes as the chunk and the buffer both have. */
  method ChunkBytes(data: seq<char>, c: Call, ghost r0: Run, ghost n0: nat) returns (c': Call, v: Verdict)
    requires Sound(r0, data, c) && c.p < |data| && c.q.state.ChunkData? && c.nread <= n0 + c.p
    requires NoSkip(r0, data, c.p) ==> c.nread == Tally(r0, data, c.p, n0)
    ensures Outcome(r0, data, n0, c', v) && v.Continue? && c'.p > c.p && !InText(c'.q.state)
    ensures Passes(r0, data, n0, c.p, c', v)
  {
    hide Step, Feed, Merged, Pending, Tally, Outcome, Sound, Passes;
    var q, p := c.q, c.p;
    BodyReady(r0, data, c);
    assert 0 < q.contentLength < ULLONG_MAX && q.flags.chunked;
    var n := if q.contentLength < |data| - p then q.contentLength else |data| - p;
    var s := if n == q.contentLength then ChunkDataAlmostDone else ChunkData;
    c' := Call(q.(contentLength := q.contentLength - n, state := s), c.calls, At(Body, p), p + n, c.nread);
    v := Continue;
    ChunkBytesOk(data, c, n, r0, n0);
  }

  lemma BodyReady(r0: Run, data: seq<char>, c: Call)
    requires Sound(r0, data, c) && c.p < |data| && (c.q.state.ChunkData? || c.q.state.BodyIdentity?)
    ensures c.m.NoMark? && 0 < c.q.contentLength < ULLONG_MAX && (c.q.state.ChunkData? ==> c.q.flags.chunked)
  {
    hide InStep, SkipsAt, NoSkip;
    BodyKeeps(c.q, 0);
    hide Inv;
  }

  lemma ChunkBytesOk(data: seq<char>, c: Call, n: nat, r0: Run, n0: nat)
    requires Sound(r0, data, c) && c.p < |data| && c.q.state.ChunkData? && c.nread <= n0 + c.p
    requires NoSkip(r0, data, c.p) ==> c.nread == Tally(r0, data, c.p, n0)
    requires n == if c.q.contentLength < |data| - c.p then c.q.contentLength else |data| - c.p
    ensures var s := if n == c.q.contentLength then ChunkDataAlmostDone else ChunkData;
            var c' := Call(c.q.(contentLength := c.q.contentLength - n, state := s), c.calls, At(Body, c.p), c.p + n,
                           c.nread);
            Outcome(r0, data, n0, c', Continue) && Passes(r0, data, n0, c.p, c', Continue)
  {
    hide Step, Feed, FeedAll, Merged, Pending, Tally, InStep, Inv, SkipsAt, Halted, Settled, Extra, Trips;
    BodyReady(r0, data, c);
    BodyKeeps(c.q, n);
    var p' := c.p + n;
    if NoSkip(r0, data, p') {
      assert NoSkip(r0, data, c.p);
      ChunkJump(r0, data, c.p, c.q, c.calls, n);
      BodyTally(r0, data, c, n, n0);
      BodyPasses(r0, data, c, n, n0);
      BodyExtra(r0, data, p',
                c.q.(contentLength := c.q.contentLength - n,
                     state := if n == c.q.contentLength then ChunkDataAlmostDone else ChunkData),
                c.calls, At(Body, c.p));
    }
  }

  /** A Content-Length body: the same jump, and the end of the message when the body is complete. */
  method BodyBytes(data: seq<char>, c: Call, ghost r0: Run, ghost n0: nat) returns (c': Call, v: Verdict)
    requires Sound(r0, data, c) && c.p < |data| && c.q.state.BodyIdentity? && c.nread <= n0 + c.p
    requires NoSkip(r0, data, c.p) ==> c.nread == Tally(r0, data, c.p, n0)
    ensures Outcome(r0, data, n0, c', v) && !v.Overflow? && (v.Continue? ==> c'.p > c.p) && !InText(c'.q.state)
    ensures Passes(r0, data, n0, c.p, c', v)
  {
    hide Step, Feed, Merged, Pending, MessageDoneStep, Settled, InStep, Tally, Extra, Trips, SkipsAt, Inner;
    var q, p := c.q, c.p;
    assert c.m.NoMark?;
    BodyKeeps(q, 0);
    assert 0 < q.contentLength < ULLONG_MAX;
    if |data| - p < q.contentLength {
      var n := |data| - p;
      BodyKeeps(q, n);
      if NoSkip(r0, data, p + n) {
        BodyJump(r0, data, p, q, c.calls, n);
        BodyTally(r0, data, c, n, n0);
        BodyPasses(r0, data, c, n, n0);
        BodyExtra(r0, data, p + n, q.(contentLength := q.contentLength - n), c.calls, At(Body, p));
      }
      return Call(q.(contentLength := q.contentLength - n), c.calls, At(Body, p), p + n, c.nread), Continue;
    }
    c', v := BodyComplete(data, c, r0, n0);
  }

  /** The call behind the last byte of a Content-Length body. */
  function CompleteCall(data: seq<char>, c: Call): Call
    requires c.p + c.q.contentLength <= |data|
  {
    var e := c.p + c.q.contentLength;
    Call(MessageDoneStep(c.q.(contentLength := 0, state := MessageDone)).ps,
         c.calls + [Data(Body, data[c.p..e]), Notify(MessageComplete)], NoMark, e, c.nread)
  }

  method BodyComplete(data: seq<char>, c: Call, ghost r0: Run, ghost n0: nat) returns (c': Call, v: Verdict)
    requires Sound(r0, data, c) && c.p < |data| && c.q.state.BodyIdentity? && c.nread <= n0 + c.p
    requires NoSkip(r0, data, c.p) ==> c.nread == Tally(r0, data, c.p, n0)
    requires 0 < c.q.contentLength < ULLONG_MAX && c.p + c.q.contentLength <= |data|
    ensures Outcome(r0, data, n0, c', v) && !v.Overflow? && (v.Continue? ==> c'.p > c.p) && !InText(c'.q.state)
    ensures Passes(r0, data, n0, c.p, c', v)
  {
    hide Step, Feed, Merged, Pending, MessageDoneStep, Settled, Tally, Inv, Outcome, Sound, Passes;
    var o := MessageDoneStep(c.q.(contentLength := 0, state := MessageDone));
    MessageDoneShape(c.q.(contentLength := 0, state := MessageDone));
    c' := CompleteCall(data, c);
    CompletePasses(r0, data, c, n0);
    if o.stop.Exited? {
      CompleteStops(r0, data, c, n0);
      return c', Stopped(Exited);
    }
    CompleteGoes(r0, data, c, n0);
    return c', Continue;
  }

  lemma CompletePasses(r0: Run, data: seq<char>, c: Call, n0: nat)
    requires Sound(r0, data, c) && c.p < |data| && c.q.state.BodyIdentity?
    requires 0 < c.q.contentLength < ULLONG_MAX && c.p + c.q.contentLength <= |data|
    ensures var c' := CompleteCall(data, c);
            var stop := MessageDoneStep(c.q.(contentLength := 0, state := MessageDone)).stop;
            Passes(r0, data, n0, c.p, c', if stop.Go? then Continue else Stopped(stop))
  {
    hide Step, Feed, Merged, Pending, MessageDoneStep, Tally, Passes, Extra, Trips, SkipsAt;
    var o := MessageDoneStep(c.q.(contentLength := 0, state := MessageDone));
    var c' := CompleteCall(data, c);
    MessageDoneShape(c.q.(contentLength := 0, state := MessageDone));
    BodyReady(r0, data, c);
    hide Inv;
    if NoSkip(r0, data, c'.p) {
      BodyEnds(r0, data, c.p, c.q, c.calls);
      BodyPasses(r0, data, c, c.q.contentLength, n0);
      NoExtra(r0, data, c'.p);
    }
    DonePasses(r0, data, n0, c.p, c', o.stop);
  }

  lemma CompleteGoes(r0: Run, data: seq<char>, c: Call, n0: nat)
    requires Sound(r0, data, c) && c.p < |data| && c.q.state.BodyIdentity? && c.nread <= n0 + c.p
    requires NoSkip(r0, data, c.p) ==> c.nread == Tally(r0, data, c.p, n0)
    requires 0 < c.q.contentLength < ULLONG_MAX && c.p + c.q.contentLength <= |data|
    requires MessageDoneStep(c.q.(contentLength := 0, state := MessageDone)).stop.Go?
    ensures Outcome(r0, data, n0, CompleteCall(data, c), Continue)
  {
    hide Step, Feed, Merged, Pending, MessageDoneStep, Tally, Extra, SkipsAt;
    var c' := CompleteCall(data, c);
    MessageDoneShape(c.q.(contentLength := 0, state := MessageDone));
    BodyReady(r0, data, c);
    CarefreeInv(c'.q);
    hide Inv;
    if NoSkip(r0, data, c'.p) {
      BodyEnds(r0, data, c.p, c.q, c.calls);
      BodyTally(r0, data, c, c.q.contentLength, n0);
      PendingNone(Merged(c'.calls), data, c'.p);
      NoExtra(r0, data, c'.p);
    }
  }

  lemma CompleteStops(r0: Run, data: seq<char>, c: Call, n0: nat)
    requires Sound(r0, data, c) && c.p < |data| && c.q.state.BodyIdentity?
    requires NoSkip(r0, data, c.p) ==> c.nread == Tally(r0, data, c.p, n0)
    requires 0 < c.q.contentLength < ULLONG_MAX && c.p + c.q.contentLength <= |data|
    requires MessageDoneStep(c.q.(contentLength := 0, state := MessageDone)).stop.Exited?
    ensures Outcome(r0, data, n0, CompleteCall(data, c), Stopped(Exited))
  {
    hide Step, Feed, Merged, Pending, MessageDoneStep, Tally, SkipsAt, Halted, Extra;
    var c' := CompleteCall(data, c);
    MessageDoneShape(c.q.(contentLength := 0, state := MessageDone));
    BodyReady(r0, data, c);
    CarefreeInv(c'.q);
    hide Inv;
    if NoSkip(r0, data, c'.p) {
      BodyEnds(r0, data, c.p, c.q, c.calls);
      BodyTally(r0, data, c, c.q.contentLength, n0);
      NoExtra(r0, data, c'.p);
      PendingNone(Merged(c'.calls), data, c'.p);
      CompleteQuiet(r0, data, c'.p);
    }
    HaltsHere(r0, data, c'.p - 1, c', Exited);
  }

  lemma CompleteQuiet(r0: Run, data: seq<char>, p: nat)
    requires 0 < p <= |data| && !Feed(r0, data, p).ps.state.HeaderValue?
    ensures !SkipsAt(r0, data, p)
  {
    hide Feed;
  }

  lemma DonePasses(r0: Run, data: seq<char>, n0: nat, lo: nat, c': Call, stop: Stop)
    requires c'.p <= |data| && lo <= c'.p && (stop.Go? || stop.Exited?)
    requires NoSkip(r0, data, c'.p) ==>
               Untripped(r0, data, n0, lo, c'.p) && Feed(r0, data, c'.p).stop == stop
               && (c'.p == |data| ==> !Checked(r0, data, c'.p))
    ensures Passes(r0, data, n0, lo, c', if stop.Go? then Continue else Stopped(stop))
  {
    hide Feed, Tally, SkipsAt;
  }

  /** At the end of body bytes nothing is counted beside them. */
  lemma BodyExtra(r0: Run, data: seq<char>, p: nat, q: Parser, calls: seq<Event>, m: MarkAt)
    requires InStep(r0, data, p, q, calls, m) && !InText(q.state)
    ensures Extra(r0, data, p) == 0 && forall n0: nat :: p == |data| ==> !Trips(r0, data, n0, p)
  {
    hide Feed, Pending, Merged, Tally;
    NoExtra(r0, data, p);
  }

  /** No comparison is made in front of body bytes. */
  lemma BodyPasses(r0: Run, data: seq<char>, c: Call, n: nat, n0: nat)
    requires InStep(r0, data, c.p, c.q, c.calls, NoMark) && c.p + n <= |data| && Inv(c.q)
    requires c.q.state.BodyIdentityEof? || ((c.q.state.BodyIdentity? || c.q.state.ChunkData?) && n <= c.q.contentLength)
    ensures Untripped(r0, data, n0, c.p, c.p + n)
  {
    hide Step, Feed, Pending, Tally, InStep, Inv;
    forall k: nat | c.p <= k < c.p + n ensures !Checked(r0, data, k) { BodyQuiet(r0, data, c, k - c.p); }
  }

  lemma BodyQuiet(r0: Run, data: seq<char>, c: Call, i: nat)
    requires InStep(r0, data, c.p, c.q, c.calls, NoMark) && c.p + i < |data| && Inv(c.q)
    requires c.q.state.BodyIdentityEof? || ((c.q.state.BodyIdentity? || c.q.state.ChunkData?) && i < c.q.contentLength)
    ensures !ParsingHeader(Feed(r0, data, c.p + i).ps.state)
  {
    hide Step, Feed, Pending;
    BodyKeepsIf(c.q);
    if c.q.state.BodyIdentityEof? {
      EofJump(r0, data, c.p, c.q, c.calls, i);
    } else if c.q.state.BodyIdentity? {
      BodyJump(r0, data, c.p, c.q, c.calls, i);
    } else {
      ChunkJump(r0, data, c.p, c.q, c.calls, i);
    }
  }

  /** Body bytes are not counted. */
  lemma {:induction false} BodyTally(r0: Run, data: seq<char>, c: Call, n: nat, t0: nat)
    requires InStep(r0, data, c.p, c.q, c.calls, NoMark) && c.p + n <= |data| && Inv(c.q)
    requires c.q.state.BodyIdentityEof? || ((c.q.state.BodyIdentity? || c.q.state.ChunkData?) && n <= c.q.contentLength)
    ensures Tally(r0, data, c.p + n, t0) == Tally(r0, data, c.p, t0)
    decreases n
  {
    hide Step, Feed, Pending, InStep, Tally;
    if n > 0 {
      BodyTally(r0, data, c, n - 1, t0);
      BodyKeepsIf(c.q);
      if c.q.state.BodyIdentityEof? {
        EofJump(r0, data, c.p, c.q, c.calls, n - 1);
        TallyScan(r0, data, c.p + n - 1, c.q, c.calls, At(Body, c.p), t0);
      } else if c.q.state.BodyIdentity? {
        BodyJump(r0, data, c.p, c.q, c.calls, n - 1);
        TallyScan(r0, data, c.p + n - 1, c.q.(contentLength := c.q.contentLength - (n - 1)), c.calls, At(Body, c.p),
                  t0);
      } else {
        ChunkJump(r0, data, c.p, c.q, c.calls, n - 1);
        TallyScan(r0, data, c.p + n - 1, c.q.(contentLength := c.q.contentLength - (n - 1)), c.calls, At(Body, c.p),
                  t0);
      }
    }
  }

  lemma BodyKeepsIf(q: Parser)
    requires Inv(q)
    ensures q.state.BodyIdentity? || q.state.ChunkData? ==> 0 < q.contentLength < ULLONG_MAX
    ensures q.state.ChunkData? ==> q.flags.chunked
  {
  }

  lemma PendingNone(log: Log, data: seq<char>, p: nat)
    requires p <= |data|
    ensures Pending(log, NoMark, data, p) == log
  {
  }

  lemma MessageDoneShape(q: Parser)
    ensures var o := MessageDoneStep(q);
            && (o.stop.Go? || o.stop.Exited?) && o.ps.errno == q.errno
            && (o.ps.state.Dead? || o.ps.state.StartReq? || o.ps.state.StartRes?)
  {
  }

  /** One iteration of the loop over the buffer. */
  method NextBytes(data: seq<char>, c: Call, ghost r0: Run, ghost n0: nat) returns (c': Call, v: Verdict)
    requires Sound(r0, data, c) && c.p < |data| <= MAX_CALL && c.nread <= n0 + c.p
    requires NoSkip(r0, data, c.p) ==> c.nread == Tally(r0, data, c.p, n0)
    requires Entered(r0, data, c)
    ensures Outcome(r0, data, n0, c', v) && (v.Continue? ==> c'.p > c.p && Entered(r0, data, c'))
    ensures v.Stopped? ==> Precise(r0, data, c')
    ensures v.Overflow? || Passes(r0, data, n0, c.p, c', v)
  {
    hide Step, Feed, Merged, Pending, InStep, Tally, EntryState, Extra, Trips, Passes;
    var n := c.nread;
    if ParsingHeader(c.q.state) {
      n := Counted(n, 1);
      if n > HTTP_MAX_HEADER_SIZE {
        if NoSkip(r0, data, c.p) { TopTrips(r0, data, n0, c); }
        return c.(q := c.q.(errno := HeaderOverflow), nread := n), Overflow;
      }
    }
    if c.q.state.HeaderField? {
      c', v := FieldBytes(data, c, n, r0, n0);
    } else if c.q.state.HeaderValue? {
      c', v := ValueBytes(data, c, n, r0, n0);
    } else if c.q.state.BodyIdentity? {
      c', v := BodyBytes(data, c, r0, n0);
    } else if c.q.state.ChunkData? {
      c', v := ChunkBytes(data, c, r0, n0);
    } else if c.q.state.BodyIdentityEof? {
      c' := c.(m := At(Body, c.p), p := |data|);
      v := Continue;
      if NoSkip(r0, data, |data|) {
        RestIsBody(r0, data, c);
        BodyTally(r0, data, c, |data| - c.p, n0);
        BodyPasses(r0, data, c, |data| - c.p, n0);
        BodyExtra(r0, data, |data|, c.q, c.calls, At(Body, c.p));
      }
      RestPasses(r0, data, n0, c.p, c');
    } else {
      assert c.q.state.ChunkSizeStart? ==> n == 1;
      c', v := PlainByte(data, c, n, r0, n0);
    }
    if v.Stopped? { SettledIsPrecise(r0, data, c', v.stop); }
  }

  lemma RestPasses(r0: Run, data: seq<char>, n0: nat, lo: nat, c: Call)
    requires c.p == |data| && lo <= c.p
    requires NoSkip(r0, data, c.p) ==> Untripped(r0, data, n0, lo, c.p) && !Trips(r0, data, n0, c.p)
    ensures Passes(r0, data, n0, lo, c, Continue)
  {
    hide Feed, Trips, SkipsAt;
  }

  /** The comparison in front of a byte. */
  lemma TopTrips(r0: Run, data: seq<char>, n0: nat, c: Call)
    requires InStep(r0, data, c.p, c.q, c.calls, c.m) && c.p < |data| && ParsingHeader(c.q.state)
    requires NoSkip(r0, data, c.p) && Entered(r0, data, c) && Tally(r0, data, c.p, n0) >= HTTP_MAX_HEADER_SIZE
    ensures Trips(r0, data, n0, c.p)
  {
    hide Feed, Pending, Merged, Tally, SkipsAt;
  }

  lemma RestIsBody(r0: Run, data: seq<char>, c: Call)
    requires Sound(r0, data, c) && c.p < |data| && c.q.state.BodyIdentityEof? && NoSkip(r0, data, |data|)
    ensures InStep(r0, data, |data|, c.q, c.calls, At(Body, c.p)) && InStep(r0, data, c.p, c.q, c.calls, NoMark)
  {
    hide Step, Feed, Merged, Pending;
    EofJump(r0, data, c.p, c.q, c.calls, |data| - c.p);
  }

  // ---------------------------------------------------------------- at most one mark

  /** The five mark variables of `http_parser_execute`: those that are set, with their offsets. */
  type Marks = map<DataKind, nat>

  function MarksOf(m: MarkAt): Marks { if m.NoMark? then map[] else map[m.kind := m.pos] }

  ghost predicate MarksBelow(marks: Marks, p: nat) { forall k | k in marks :: marks[k] <= p }

  /** Carries out the marks and callbacks of one byte with five independent marks. */
  ghost function PerformAll(calls: seq<Event>, marks: Marks, acts: seq<Act>, data: seq<char>, p: nat)
    : (seq<Event>, Marks)
    requires p <= |data| && MarksBelow(marks, p)
    decreases acts
  {
    if acts == [] then (calls, marks)
    else
      match acts[0]
      case Mark(k) => PerformAll(calls, if k in marks then marks else marks[k := p], acts[1..], data, p)
      case Flush(k) =>
        if k in marks then PerformAll(calls + [Data(k, data[marks[k]..p])], marks - {k}, acts[1..], data, p)
        else PerformAll(calls, marks, acts[1..], data, p)
      case Tell(n) => PerformAll(calls + [Notify(n)], marks, acts[1..], data, p)
  }

  /** No mark is set while another one is. */
  predicate Single(r: Region, acts: seq<Act>)
    decreases acts
  {
    acts == [] ||
    match acts[0]
    case Mark(k) => (r.Closed? || r == Open(k)) && Single(Open(k), acts[1..])
    case Flush(k) => Single(if r == Open(k) then Closed else r, acts[1..])
    case Tell(n) => Single(r, acts[1..])
  }

  lemma {:induction false} TidyIsSingle(r: Region, acts: seq<Act>)
    requires Tidy(r, acts)
    ensures Single(r, acts)
    decreases acts
  {
    if acts != [] {
      match acts[0]
      case Mark(k) => TidyIsSingle(Open(k), acts[1..]);
      case Flush(k) => TidyIsSingle(Closed, acts[1..]);
      case Tell(n) => TidyIsSingle(r, acts[1..]);
    }
  }

  /** As long as no mark is set while another one is, the five marks are one. */
  lemma {:induction false} FiveMarks(calls: seq<Event>, m: MarkAt, acts: seq<Act>, data: seq<char>, p: nat)
    requires p <= |data| && MarkBelow(m, p) && Single(MarkRegion(m), acts)
    ensures PerformAll(calls, MarksOf(m), acts, data, p)
         == (Perform(calls, m, acts, data, p).0, MarksOf(Perform(calls, m, acts, data, p).1))
    decreases acts
  {
    if acts != [] {
      match acts[0]
      case Mark(k) => FiveMarks(calls, if m.NoMark? then At(k, p) else m, acts[1..], data, p);
      case Flush(k) =>
        if m.At? && m.kind == k {
          assert MarksOf(m) - {k} == MarksOf(NoMark);
          FiveMarks(calls + [Data(k, data[m.pos..p])], NoMark, acts[1..], data, p);
        } else {
          FiveMarks(calls, m, acts[1..], data, p);
        }
      case Tell(n) => FiveMarks(calls + [Notify(n)], m, acts[1..], data, p);
    }
  }

  /**
   At every byte of every call at most one mark is set: a byte without a scan of its own sets none while another is set,
   so the five marks of the source are the one mark of the model; a name or value is scanned under its own mark, and a
   body jump sets the body mark when no mark is set.
   */
  lemma OneMark(r0: Run, data: seq<char>, c: Call)
    requires Sound(r0, data, c) && c.p < |data|
    ensures !Scanning(c.q.state) ==>
              var o := PlainStep(c.q, data[c.p]);
              Single(MarkRegion(c.m), o.acts)
              && PerformAll(c.calls, MarksOf(c.m), o.acts, data, c.p)
                 == (Perform(c.calls, c.m, o.acts, data, c.p).0, MarksOf(Perform(c.calls, c.m, o.acts, data, c.p).1))
    ensures c.q.state.HeaderField? ==> c.m.At? && c.m.kind == Field
    ensures c.q.state.HeaderValue? ==> c.m.At? && c.m.kind == Value
    ensures c.q.state.BodyIdentity? || c.q.state.BodyIdentityEof? || c.q.state.ChunkData? ==> c.m.NoMark?
    ensures |MarksOf(c.m)| <= 1
  {
    hide Step, PlainStep, InStep, Perform, Tidy, Inv, SkipsAt, NoSkip;
    if !Scanning(c.q.state) {
      var acts := PlainStep(c.q, data[c.p]).acts;
      if c.q.state.ChunkDataAlmostDone? {
        ChunkEndActs(c.q, data[c.p]);
        assert Single(MarkRegion(c.m), acts);
      } else {
        PlainBytes(c.q, data[c.p]);
        TidyIsSingle(MarkRegion(c.m), acts);
      }
      FiveMarks(c.calls, c.m, acts, data, c.p);
    }
  }
}
