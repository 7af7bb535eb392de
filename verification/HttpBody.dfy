/**
 Message bodies: the 64-bit length arithmetic is exact, and a body that was
 framed by RFC 7230 (chunked, section 4.1, or Content-Length) comes back intact.
 */
module HttpBody {
  import opened HttpMachine
  import opened HttpFeed
  import opened HttpExecute
  import opened HttpCuts
  import opened HttpParser
  import opened HttpInvariant
  import HttpCall

  // ---------------------------------------------------------------- exact lengths

  predicate LengthText(v: seq<char>) { forall k | 0 <= k < |v| :: v[k] == ' ' || IsNum(v[k]) }

  /** Decimal value of `v` after `n` characters, spaces dropped, starting from `c`: no bound on its size. */
  function DecValue(c: nat, v: seq<char>, n: nat): nat
    requires n <= |v| && LengthText(v)
  {
    if n == 0 then c
    else if v[n - 1] == ' ' then DecValue(c, v, n - 1)
    else DecValue(c, v, n - 1) * 10 + Digit(v[n - 1])
  }

  /** The largest value the parser still multiplies by ten. */
  const DEC_LIMIT := (ULLONG_MAX - 10) / 10

  /** The first `n` characters keep within the limit before each digit. */
  predicate DecFits(c: nat, v: seq<char>, n: nat)
    requires n <= |v| && LengthText(v)
  {
    forall k | 0 <= k < n :: v[k] != ' ' ==> DecValue(c, v, k) <= DEC_LIMIT
  }

  predicate ReadsLength(r: Run) { r.stop.Go? && r.ps.state.HeaderValue? && r.ps.headerState.ContentLength? }

  lemma DigitRange(ch: char)
    ensures IsNum(ch) ==> 0 <= Digit(ch) <= 9
  {
  }

  lemma LengthByte(ps: Parser, ch: char)
    requires ps.state.HeaderValue? && ps.headerState.ContentLength? && (ch == ' ' || IsNum(ch))
    ensures Step(ps, ch) ==
            if ch == ' ' then StepOut(ps, [Data(Value, [ch])], Go)
            else if ps.contentLength <= DEC_LIMIT
            then StepOut(ps.(contentLength := ps.contentLength * 10 + Digit(ch)), [Data(Value, [ch])], Go)
            else StepOut(ps.(errno := InvalidContentLength), [], Failed)
  {
    hide Step;
    assert IsHeaderChar(ch) && ch != CR && ch != LF;
    ValueState(ps, ch);
  }

  /**
   A Content-Length value: the parser accepts exactly the texts that keep within the limit, then holds their
   exact decimal value, which never wraps and never equals the "no length" marker.
   */
  lemma {:induction false} LengthIsExact(r: Run, v: seq<char>, n: nat)
    requires ReadsLength(r) && r.ps.contentLength < ULLONG_MAX && LengthText(v) && n <= |v|
    ensures var s := Feed(r, v, n);
            if DecFits(r.ps.contentLength, v, n)
            then ReadsLength(s) && s.ps.contentLength == DecValue(r.ps.contentLength, v, n) < ULLONG_MAX
            else s.stop.Failed? && s.ps.errno == InvalidContentLength
  {
    hide Step, AddAll, Digit;
    if n > 0 {
      var c := r.ps.contentLength;
      LengthIsExact(r, v, n - 1);
      assert DecFits(c, v, n) <==> DecFits(c, v, n - 1) && (v[n - 1] != ' ' ==> DecValue(c, v, n - 1) <= DEC_LIMIT);
      var s := Feed(r, v, n - 1);
      if s.stop.Go? {
        DigitRange(v[n - 1]);
        LengthByte(s.ps, v[n - 1]);
      }
    }
  }

  predicate HexText(v: seq<char>) { forall k | 0 <= k < |v| :: Unhex(v[k]) >= 0 }

  function HexValue(c: nat, v: seq<char>, n: nat): nat
    requires n <= |v| && HexText(v)
  {
    if n == 0 then c else HexValue(c, v, n - 1) * 16 + Unhex(v[n - 1])
  }

  const HEX_LIMIT := (ULLONG_MAX - 16) / 16

  predicate HexFits(c: nat, v: seq<char>, n: nat)
    requires n <= |v| && HexText(v)
  {
    forall k | 0 <= k < n :: HexValue(c, v, k) <= HEX_LIMIT
  }

  predicate ReadsChunkSize(r: Run) { r.stop.Go? && r.ps.state.ChunkSize? && r.ps.flags.chunked }

  lemma ChunkSizeByte(ps: Parser, ch: char)
    requires ps.state.ChunkSize? && ps.flags.chunked && Unhex(ch) >= 0
    ensures Step(ps, ch) ==
            if ps.contentLength <= HEX_LIMIT
            then StepOut(ps.(contentLength := ps.contentLength * 16 + Unhex(ch)), [], Go)
            else StepOut(ps.(errno := InvalidContentLength), [], Failed)
  {
    assert Step(ps, ch) == Spell(Closed, ChunkStep(ps, ch), ch);
    hide Unhex;
  }

  /** A chunk size: accepted exactly within the limit, and then held exactly (per the parser's own hex table). */
  lemma {:induction false} ChunkSizeIsExact(r: Run, v: seq<char>, n: nat)
    requires ReadsChunkSize(r) && r.ps.contentLength < ULLONG_MAX && HexText(v) && n <= |v|
    ensures var s := Feed(r, v, n);
            if HexFits(r.ps.contentLength, v, n)
            then s == r.(ps := r.ps.(contentLength := s.ps.contentLength), consumed := r.consumed + n)
                 && s.ps.contentLength == HexValue(r.ps.contentLength, v, n) < ULLONG_MAX
            else s.stop.Failed? && s.ps.errno == InvalidContentLength
  {
    hide Step;
    if n > 0 {
      ChunkSizeIsExact(r, v, n - 1);
      var s := Feed(r, v, n - 1);
      if s.stop.Go? {
        ChunkSizeByte(s.ps, v[n - 1]);
      }
    }
  }

  // ---------------------------------------------------------------- chunked framing

  lemma FeedOne(r: Run, ch: char)
    ensures FeedAll(r, [ch]) == StepRun(r, ch)
  {
    hide Step;
    assert Feed(r, [ch], 0) == r;
  }

  lemma FeedTwo(r: Run, a: char, b: char)
    ensures FeedAll(r, [a, b]) == StepRun(StepRun(r, a), b)
  {
    hide Step;
    FeedConcat(r, [a], [b]);
    FeedOne(r, a);
    FeedOne(StepRun(r, a), b);
    assert [a] + [b] == [a, b];
  }

  function HexDigit(d: nat): char
    requires d < 16
  {
    if d < 10 then (d + '0' as int) as char else (d - 10 + 'a' as int) as char
  }

  /** The hexadecimal numeral of `n`, most significant digit first. */
  function Hex(n: nat): seq<char> {
    if n < 16 then [HexDigit(n)] else Hex(n / 16) + [HexDigit(n % 16)]
  }

  lemma UnhexDigit(d: nat)
    requires d < 16
    ensures Unhex(HexDigit(d)) == d
  {
  }

  /** No byte is read in header text and the header size, from `t`, stays within `bound`. */
  ghost predicate Smooth(r: Run, data: seq<char>, t: nat, bound: nat) {
    forall i | 0 <= i <= |data| :: !InText(Feed(r, data, i).ps.state) && Tally(r, data, i, t) <= bound
  }

  lemma SmoothConcat(r: Run, a: seq<char>, b: seq<char>, t: nat, bound: nat)
    requires Smooth(r, a, t, bound) && Smooth(FeedAll(r, a), b, Tally(r, a, |a|, t), bound)
    ensures Smooth(r, a + b, t, bound)
    ensures Tally(r, a + b, |a + b|, t) == Tally(FeedAll(r, a), b, |b|, Tally(r, a, |a|, t))
  {
    hide Step, Feed, FeedAll, Tally;
    forall i | 0 <= i <= |a + b|
      ensures !InText(Feed(r, a + b, i).ps.state) && Tally(r, a + b, i, t) <= bound
      ensures i >= |a| ==> Tally(r, a + b, i, t) == Tally(FeedAll(r, a), b, i - |a|, Tally(r, a, |a|, t))
    {
      if i < |a| {
        FeedPrefix(r, a, b, i);
        TallyPrefix(r, a, b, i, t);
      } else {
        FeedConcatN(r, a, b, i - |a|);
        TallyConcat(r, a, b, i - |a|, t);
        TallyShift(FeedAll(r, a), b, i - |a|, Tally(r, a, |a|, t));
      }
    }
  }

  lemma {:induction false} TallyShift(r: Run, data: seq<char>, n: nat, t: nat)
    requires n <= |data|
    ensures Tally(Restart(r), data, n, t) == Tally(r, data, n, t)
  {
    hide Step, Feed, Tick;
    if n > 0 {
      TallyShift(r, data, n - 1, t);
      FeedShift(r, data, n - 1);
    }
  }

  /** Each byte adds at most one. */
  lemma {:induction false} TallyMax(r: Run, data: seq<char>, n: nat, t: nat)
    requires n <= |data|
    ensures Tally(r, data, n, t) <= t + n
  {
    hide Step, Feed, PlainStep;
    if n > 0 { TallyMax(r, data, n - 1, t); }
  }

  lemma SmoothShort(r: Run, a: char, b: char, t: nat, bound: nat)
    requires r.stop.Go? && StepRun(r, a).stop.Go? && t <= bound
    requires !InText(r.ps.state) && !InText(StepRun(r, a).ps.state) && !InText(StepRun(StepRun(r, a), b).ps.state)
    requires Tick(r.ps, a, t) <= bound && Tick(StepRun(r, a).ps, b, Tick(r.ps, a, t)) <= bound
    ensures Smooth(r, [a, b], t, bound)
    ensures Tally(r, [a, b], 2, t) == Tick(StepRun(r, a).ps, b, Tick(r.ps, a, t))
  {
    hide Step, Tick;
    var d := [a, b];
    assert Feed(r, d, 0) == r && Feed(r, d, 1) == StepRun(Feed(r, d, 0), a)
           && Feed(r, d, 2) == StepRun(Feed(r, d, 1), b);
    assert Tally(r, d, 0, t) == t && Tally(r, d, 1, t) == Tick(r.ps, a, t);
  }

  lemma ChunkTicks(ps: Parser, t: nat)
    requires ps.flags.chunked
    ensures ps.state.ChunkSize? ==> Tick(ps, CR, t) == t + 1
    ensures ps.state.ChunkSizeAlmostDone? ==> Tick(ps, LF, t) == 0
    ensures ps.state.ChunkDataAlmostDone? && ps.contentLength == 0 ==> Tick(ps, CR, t) == t
    ensures ps.state.ChunkDataDone? ==> Tick(ps, LF, t) == 0
  {
  }

  predicate AtChunk(r: Run) { r.stop.Go? && r.ps.state.ChunkSizeStart? && r.ps.flags.chunked }

  lemma FirstHexDigit(ps: Parser, ch: char)
    requires ps.state.ChunkSizeStart? && ps.flags.chunked && Unhex(ch) >= 0
    ensures Step(ps, ch) == StepOut(ps.(contentLength := Unhex(ch), state := ChunkSize), [], Go)
  {
    assert Step(ps, ch) == Spell(Closed, ChunkStep(ps, ch), ch);
  }

  /** The largest chunk size the parser accepts. */
  const MAX_CHUNK := HEX_LIMIT * 16 + 15

  lemma {:induction false} SizeRun(r: Run, n: nat)
    requires AtChunk(r) && n <= MAX_CHUNK
    ensures FeedAll(r, Hex(n)) == Run(r.ps.(contentLength := n, state := ChunkSize), r.log, Go, r.consumed + |Hex(n)|)
    ensures forall i | 0 <= i <= |Hex(n)| :: !InText(Feed(r, Hex(n), i).ps.state)
    decreases n
  {
    hide Step, Feed;
    if n < 16 {
      UnhexDigit(n);
      FirstHexDigit(r.ps, HexDigit(n));
      FeedOne(r, HexDigit(n));
      FeedNone(r, Hex(n));
      assert Hex(n) == [HexDigit(n)];
    } else {
      var hi, lo := Hex(n / 16), [HexDigit(n % 16)];
      SizeRun(r, n / 16);
      var s := FeedAll(r, hi);
      UnhexDigit(n % 16);
      ChunkSizeByte(s.ps, lo[0]);
      FeedConcat(r, hi, lo);
      FeedOne(s, lo[0]);
      TextStays(r, hi, lo[0]);
    }
  }

  lemma TextStays(r: Run, a: seq<char>, ch: char)
    requires forall i | 0 <= i <= |a| :: !InText(Feed(r, a, i).ps.state)
    requires !InText(FeedAll(r, a + [ch]).ps.state)
    ensures forall i | 0 <= i <= |a + [ch]| :: !InText(Feed(r, a + [ch], i).ps.state)
  {
    hide Feed;
    forall i | 0 <= i <= |a + [ch]| ensures !InText(Feed(r, a + [ch], i).ps.state) {
      if i <= |a| { FeedPrefix(r, a, [ch], i); }
    }
  }

  lemma SizeLineEnd(ps: Parser)
    requires ps.flags.chunked
    ensures ps.state.ChunkSize? ==> Step(ps, CR) == StepOut(ps.(state := ChunkSizeAlmostDone), [], Go)
    ensures ps.state.ChunkSizeAlmostDone? && ps.contentLength > 0
            ==> Step(ps, LF) == StepOut(ps.(state := ChunkData), [Notify(ChunkHeader)], Go)
    ensures ps.state.ChunkSizeAlmostDone? && ps.contentLength == 0
            ==> var q := ps.(flags := ps.flags.(trailing := true), state := HeaderFieldStart);
                Step(ps, LF) == StepOut(q, [Notify(ChunkHeader)], Go)
  {
    assert [Tell(ChunkHeader)][1..] == [];
  }

  lemma DataLineEnd(ps: Parser)
    requires ps.flags.chunked && ps.contentLength == 0
    ensures ps.state.ChunkDataAlmostDone? ==> Step(ps, CR) == StepOut(ps.(state := ChunkDataDone), [], Go)
    ensures ps.state.ChunkDataDone? ==>
              Step(ps, LF) == StepOut(ps.(state := ChunkSizeStart), [Notify(ChunkComplete)], Go)
  {
    assert [Tell(ChunkComplete)][1..] == [];
    assert [Flush(Body)][1..] == [];
  }

  const CRLF: seq<char> := [CR, LF]

  lemma DataByte(ps: Parser, ch: char)
    requires ps.state.ChunkData? && ps.flags.chunked && 0 < ps.contentLength < ULLONG_MAX
    ensures Step(ps, ch) == StepOut(ps.(contentLength := ps.contentLength - 1,
                                        state := if ps.contentLength == 1 then ChunkDataAlmostDone else ChunkData),
                                    [Data(Body, [ch])], Go)
  {
    BodyState(ps, ch);
  }

  lemma {:induction false} DataRun(r: Run, b: seq<char>, n: nat)
    requires r.stop.Go? && r.ps.state.ChunkData? && r.ps.flags.chunked && |b| == r.ps.contentLength < ULLONG_MAX
    requires n <= |b| && b != []
    ensures Feed(r, b, n)
            == Run(r.ps.(contentLength := |b| - n, state := if n == |b| then ChunkDataAlmostDone else ChunkData),
                                 AddSpan(r.log, Body, b[..n]), Go, r.consumed + n)
  {
    hide Step, Add, AddAll;
    if n > 0 {
      DataRun(r, b, n - 1);
      var s := Feed(r, b, n - 1);
      DataByte(s.ps, b[n - 1]);
      AddAllOne(s.log, Data(Body, [b[n - 1]]));
      AddSpanMerges(r.log, Body, b[..n - 1], [b[n - 1]]);
      assert b[..n] == b[..n - 1] + [b[n - 1]];
    }
  }

  lemma {:induction false} DataTally(r: Run, b: seq<char>, n: nat, t: nat)
    requires r.stop.Go? && r.ps.state.ChunkData? && r.ps.flags.chunked && |b| == r.ps.contentLength < ULLONG_MAX
    requires n <= |b| && b != []
    ensures Tally(r, b, n, t) == t && !InText(Feed(r, b, n).ps.state)
  {
    hide Step, Feed, AddSpan;
    DataRun(r, b, n);
    if n > 0 {
      DataRun(r, b, n - 1);
      DataTally(r, b, n - 1, t);
    }
  }

  lemma DataSmooth(r: Run, b: seq<char>, t: nat, bound: nat)
    requires r.stop.Go? && r.ps.state.ChunkData? && r.ps.flags.chunked && |b| == r.ps.contentLength < ULLONG_MAX
    requires b != []
    requires t <= bound
    ensures Smooth(r, b, t, bound) && Tally(r, b, |b|, t) == t
  {
    hide Step, Feed, Tally;
    forall i | 0 <= i <= |b| ensures Tally(r, b, i, t) == t && !InText(Feed(r, b, i).ps.state) {
      DataTally(r, b, i, t);
    }
  }

  function Pow16(k: nat): nat { if k == 0 then 1 else 16 * Pow16(k - 1) }

  lemma {:induction false} HexLength(n: nat, k: nat)
    requires k > 0 && n < Pow16(k)
    ensures |Hex(n)| <= k
  {
    if n >= 16 {
      assert k > 1;
      HexLength(n / 16, k - 1);
    }
  }

  lemma Hex64(n: nat)
    requires n <= ULLONG_MAX
    ensures |Hex(n)| <= 16
  {
    assert Pow16(4) == 65536;
    assert Pow16(8) == 65536 * Pow16(4) by { assert Pow16(6) == 256 * Pow16(4); }
    assert Pow16(12) == 65536 * Pow16(8) by { assert Pow16(10) == 256 * Pow16(8); }
    assert Pow16(16) == 65536 * Pow16(12) by { assert Pow16(14) == 256 * Pow16(12); }
    HexLength(n, 16);
  }

  /** No size line, data line or trailer brings the header size above this. */
  const LINE_MAX := 20

  /** One block as a chunk. */
  function Chunk(b: seq<char>): seq<char> { Hex(|b|) + CRLF + b + CRLF }

  /** The parser behind a size line: data, or the trailers after the empty chunk. */
  function AfterSize(ps: Parser): Parser {
    if ps.contentLength > 0 then ps.(state := ChunkData)
    else ps.(flags := ps.flags.(trailing := true), state := HeaderFieldStart)
  }

  lemma SizeEndRun(s: Run, t: nat)
    requires s.stop.Go? && s.ps.state.ChunkSize? && s.ps.flags.chunked
    ensures FeedAll(s, CRLF) == Run(AfterSize(s.ps), Add(s.log, Notify(ChunkHeader)), Go, s.consumed + 2)
    ensures var u := s.(ps := s.ps.(state := ChunkSizeAlmostDone), consumed := s.consumed + 1);
            StepRun(s, CR) == u && StepRun(u, LF) == FeedAll(s, CRLF)
  {
    hide Step, Feed, FeedAll, Add, AddAll;
    SizeLineEnd(s.ps);
    SizeLineEnd(s.ps.(state := ChunkSizeAlmostDone));
    FeedTwo(s, CR, LF);
    NothingAdded(s.log);
    AddAllOne(s.log, Notify(ChunkHeader));
  }

  lemma SizeEndSmooth(s: Run, t: nat)
    requires s.stop.Go? && s.ps.state.ChunkSize? && s.ps.flags.chunked && t <= 16
    ensures Smooth(s, CRLF, t, LINE_MAX) && Tally(s, CRLF, 2, t) == 0
  {
    hide Step, StepRun, Feed, FeedAll, Add, AddAll, Tick, Tally, Smooth;
    SizeEndRun(s, t);
    ChunkTicks(s.ps, t);
    ChunkTicks(s.ps.(state := ChunkSizeAlmostDone), t + 1);
    SmoothShort(s, CR, LF, t, LINE_MAX);
  }

  lemma AfterSizeState(r: Run, n: nat)
    requires AtChunk(r) && n <= MAX_CHUNK
    ensures n <= ULLONG_MAX && r.ps.flags.chunked
    ensures AfterSize(r.ps.(contentLength := n, state := ChunkSize)) == AfterSize(r.ps.(contentLength := n))
  {
    hide Step, PlainStep;
  }

  lemma SizeLine(r: Run, n: nat)
    requires AtChunk(r) && n <= MAX_CHUNK
    ensures var d := Hex(n) + CRLF;
            FeedAll(r, d)
            == Run(AfterSize(r.ps.(contentLength := n)), Add(r.log, Notify(ChunkHeader)), Go, r.consumed + |d|)
            && Smooth(r, d, 0, LINE_MAX) && Tally(r, d, |d|, 0) == 0
  {
    hide Step, StepRun, Feed, FeedAll, Add, AddAll, Tally, Tick, Hex, Smooth, AfterSize, AtChunk;
    AfterSizeState(r, n);
    var s := Run(r.ps.(contentLength := n, state := ChunkSize), r.log, Go, r.consumed + |Hex(n)|);
    SizeRun(r, n);
    SizeSmooth(r, n);
    var t := Tally(r, Hex(n), |Hex(n)|, 0);
    SizeEndRun(s, t);
    SizeEndSmooth(s, t);
    FeedConcat(r, Hex(n), CRLF);
    SmoothConcat(r, Hex(n), CRLF, 0, LINE_MAX);
  }

  lemma SizeLineRun(r: Run, n: nat)
    requires AtChunk(r) && 0 < n <= MAX_CHUNK
    ensures var d := Hex(n) + CRLF;
            FeedAll(r, d)
            == Run(r.ps.(contentLength := n, state := ChunkData), Add(r.log, Notify(ChunkHeader)), Go, r.consumed + |d|)
            && Smooth(r, d, 0, LINE_MAX) && Tally(r, d, |d|, 0) == 0
  {
    hide Step, Feed, FeedAll, Add, Tally, Hex, Smooth;
    SizeLine(r, n);
  }

  lemma SizeSmooth(r: Run, n: nat)
    requires AtChunk(r) && n <= MAX_CHUNK
    ensures Smooth(r, Hex(n), 0, LINE_MAX) && Tally(r, Hex(n), |Hex(n)|, 0) <= 16
  {
    hide Step, Feed, FeedAll, Tally, Hex;
    SizeRun(r, n);
    Hex64(n);
    forall i | 0 <= i <= |Hex(n)| ensures Tally(r, Hex(n), i, 0) <= 16 { TallyMax(r, Hex(n), i, 0); }
  }

  lemma DataLineRun(r: Run, b: seq<char>)
    requires r.stop.Go? && r.ps.state.ChunkData? && r.ps.flags.chunked && |b| == r.ps.contentLength < ULLONG_MAX
    requires b != []
    ensures var d := b + CRLF;
            FeedAll(r, d) == Run(r.ps.(contentLength := 0, state := ChunkSizeStart),
                                 Add(Add(r.log, Data(Body, b)), Notify(ChunkComplete)), Go, r.consumed + |d|)
            && Smooth(r, d, 0, LINE_MAX) && Tally(r, d, |d|, 0) == 0
  {
    hide Step, Feed, Add, AddAll, Tick, Tally;
    DataRun(r, b, |b|);
    assert b[..|b|] == b;
    DataSmooth(r, b, 0, LINE_MAX);
    var s := FeedAll(r, b);
    DataLineEnd(s.ps);
    DataLineEnd(s.ps.(state := ChunkDataDone));
    FeedTwo(s, CR, LF);
    NothingAdded(s.log);
    AddAllOne(s.log, Notify(ChunkComplete));
    FeedConcat(r, b, CRLF);
    ChunkTicks(s.ps, 0);
    ChunkTicks(s.ps.(state := ChunkDataDone), 0);
    SmoothShort(s, CR, LF, 0, LINE_MAX);
    SmoothConcat(r, b, CRLF, 0, LINE_MAX);
  }

  /** The callbacks of one chunk. */
  function ChunkEvents(b: seq<char>): seq<Event> { [Notify(ChunkHeader), Data(Body, b), Notify(ChunkComplete)] }

  lemma AddAllThree(log: Log, e: Event, f: Event, g: Event)
    ensures AddAll(log, [e, f, g]) == Add(Add(Add(log, e), f), g)
  {
    AddAllSplit(log, [e, f], [g]);
    assert [e, f] + [g] == [e, f, g];
    AddAllTwo(log, e, f);
    AddAllOne(Add(Add(log, e), f), g);
  }

  lemma ChunkRun(r: Run, b: seq<char>)
    requires AtChunk(r) && 0 < |b| <= MAX_CHUNK
    ensures FeedAll(r, Chunk(b))
            == Run(r.ps.(contentLength := 0), AddAll(r.log, ChunkEvents(b)), Go, r.consumed + |Chunk(b)|)
    ensures Smooth(r, Chunk(b), 0, LINE_MAX) && Tally(r, Chunk(b), |Chunk(b)|, 0) == 0
  {
    hide Step, Feed, FeedAll, Smooth, Add, AddAll, Hex, Tally;
    var d1, d2 := Hex(|b|) + CRLF, b + CRLF;
    SizeLineRun(r, |b|);
    var s := FeedAll(r, d1);
    DataLineRun(s, b);
    FeedConcat(r, d1, d2);
    SmoothConcat(r, d1, d2, 0, LINE_MAX);
    assert d1 + d2 == Chunk(b);
    AddAllThree(r.log, Notify(ChunkHeader), Data(Body, b), Notify(ChunkComplete));
  }

  /** A body of blocks in chunked framing, with the final empty chunk and no trailers. */
  function Chunked(blocks: seq<seq<char>>): seq<char> {
    if blocks == [] then [HexDigit(0)] + CRLF + CRLF else Chunk(blocks[0]) + Chunked(blocks[1..])
  }

  function ChunkedEvents(blocks: seq<seq<char>>): seq<Event> {
    if blocks == [] then [Notify(ChunkHeader), Notify(ChunkComplete), Notify(MessageComplete)]
    else ChunkEvents(blocks[0]) + ChunkedEvents(blocks[1..])
  }

  predicate Blocks(blocks: seq<seq<char>>) { forall k | 0 <= k < |blocks| :: 0 < |blocks[k]| <= MAX_CHUNK }

  lemma TrailerEnd(ps: Parser)
    requires ps.flags.trailing
    ensures ps.state.HeaderFieldStart? ==> Step(ps, CR) == StepOut(ps.(state := HeadersAlmostDone), [], Go)
    ensures ps.state.HeadersAlmostDone? ==>
              var o := MessageDoneStep(ps.(state := MessageDone));
              Step(ps, LF) == StepOut(o.ps, [Notify(ChunkComplete), Notify(MessageComplete)], o.stop)
  {
    var acts: seq<Act> := [Tell(ChunkComplete), Tell(MessageComplete)];
    assert [Tell(ChunkComplete)] + [Tell(MessageComplete)] == acts;
    assert acts[1..] == [Tell(MessageComplete)] && acts[1..][1..] == [];
  }

  /** Where a chunked message ends: trailers done, next message or closed. */
  function AfterChunked(ps: Parser): Out {
    MessageDoneStep(ps.(contentLength := 0, flags := ps.flags.(trailing := true), state := MessageDone))
  }

  lemma ZeroSizeRun(r: Run)
    requires AtChunk(r)
    ensures var d := [HexDigit(0)] + CRLF;
            FeedAll(r, d)
            == Run(r.ps.(contentLength := 0, flags := r.ps.flags.(trailing := true), state := HeaderFieldStart),
                                 Add(r.log, Notify(ChunkHeader)), Go, r.consumed + 3)
            && Smooth(r, d, 0, LINE_MAX) && Tally(r, d, |d|, 0) == 0
  {
    assert Hex(0) == [HexDigit(0)];
    hide Step, Feed, FeedAll, Add, Tally, Hex, Smooth;
    SizeLine(r, 0);
  }

  lemma TickBound(ps: Parser, ch: char, t: nat)
    ensures Tick(ps, ch, t) <= t + 1
  {
    hide PlainStep;
  }

  lemma AfterTrailer(ps: Parser)
    ensures var o := MessageDoneStep(ps); (o.stop.Go? || o.stop.Exited?) && !InText(o.ps.state)
  {
  }

  lemma TrailerRun(t: Run)
    requires t.stop.Go? && t.ps.state.HeaderFieldStart? && t.ps.flags.trailing
    ensures var o := MessageDoneStep(t.ps.(state := MessageDone));
            FeedAll(t, CRLF)
            == Run(o.ps, Add(Add(t.log, Notify(ChunkComplete)), Notify(MessageComplete)), o.stop, t.consumed + 2)
            && Smooth(t, CRLF, 0, LINE_MAX)
  {
    hide Step, Feed, FeedAll, Smooth, Add, AddAll, MessageDoneStep, Tick;
    AfterTrailer(t.ps.(state := MessageDone));
    TrailerEnd(t.ps);
    TrailerEnd(t.ps.(state := HeadersAlmostDone));
    FeedTwo(t, CR, LF);
    NothingAdded(t.log);
    AddAllTwo(t.log, Notify(ChunkComplete), Notify(MessageComplete));
    TickBound(t.ps, CR, 0);
    TickBound(t.ps.(state := HeadersAlmostDone), LF, Tick(t.ps, CR, 0));
    SmoothShort(t, CR, LF, 0, LINE_MAX);
  }

  lemma LastChunk(r: Run)
    requires AtChunk(r)
    ensures var d := [HexDigit(0)] + CRLF + CRLF;
            var o := AfterChunked(r.ps);
            FeedAll(r, d) == Run(o.ps, AddAll(r.log, ChunkedEvents([])), o.stop, r.consumed + |d|)
            && Smooth(r, d, 0, LINE_MAX)
  {
    hide Step, Feed, FeedAll, Smooth, Add, AddAll, MessageDoneStep, Tally;
    var d := [HexDigit(0)] + CRLF;
    ZeroSizeRun(r);
    TrailerRun(FeedAll(r, d));
    AddAllThree(r.log, Notify(ChunkHeader), Notify(ChunkComplete), Notify(MessageComplete));
    FeedConcat(r, d, CRLF);
    SmoothConcat(r, d, CRLF, 0, LINE_MAX);
  }

  lemma NothingAdded(log: Log)
    ensures AddAll(log, []) == log
  {
  }

  /**
   Chunked round trip: the framing of any list of non-empty blocks is taken whole, hands over exactly those blocks
   in order, completes the message once, and hides no byte from any check.
   */
  lemma {:induction false} ChunkedRoundTrip(r: Run, blocks: seq<seq<char>>)
    requires AtChunk(r) && Blocks(blocks)
    ensures var d := Chunked(blocks);
            var o := AfterChunked(r.ps);
            FeedAll(r, d) == Run(o.ps, AddAll(r.log, ChunkedEvents(blocks)), o.stop, r.consumed + |d|)
            && Smooth(r, d, 0, LINE_MAX)
    decreases blocks
  {
    hide Step, Feed, FeedAll, Smooth, Add, AddAll, MessageDoneStep, Chunk, Tally;
    if blocks == [] {
      LastChunk(r);
    } else {
      var a, b := Chunk(blocks[0]), Chunked(blocks[1..]);
      ChunkRun(r, blocks[0]);
      var s := FeedAll(r, a);
      ChunkedRoundTrip(s, blocks[1..]);
      FeedConcat(r, a, b);
      SmoothConcat(r, a, b, 0, LINE_MAX);
      AddAllSplit(r.log, ChunkEvents(blocks[0]), ChunkedEvents(blocks[1..]));
    }
  }

  // ---------------------------------------------------------------- what the body callback saw

  /** Everything the body callback was given, in order. */
  function BodyOf(log: Log): seq<char> {
    if log == [] then []
    else
      var e := log[|log| - 1];
      BodyOf(log[..|log| - 1]) + (if e.Data? && e.kind.Body? then e.bytes else [])
  }

  /** How often the message-complete callback fired. */
  function Completions(log: Log): nat {
    if log == [] then 0
    else Completions(log[..|log| - 1]) + (if log[|log| - 1] == Notify(MessageComplete) then 1 else 0)
  }

  lemma Adding(log: Log, e: Event)
    ensures BodyOf(Add(log, e)) == BodyOf(log) + (if e.Data? && e.kind.Body? then e.bytes else [])
    ensures Completions(Add(log, e)) == Completions(log) + (if e == Notify(MessageComplete) then 1 else 0)
  {
    var l := Add(log, e);
    if e.Data? && log != [] && log[|log| - 1].Data? && log[|log| - 1].kind == e.kind {
      assert l[..|l| - 1] == log[..|log| - 1];
      var front, bytes := BodyOf(log[..|log| - 1]), log[|log| - 1].bytes;
      assert front + (bytes + e.bytes) == (front + bytes) + e.bytes;
    } else {
      assert l[..|l| - 1] == log;
    }
  }

  function Concat(blocks: seq<seq<char>>): seq<char> {
    if blocks == [] then [] else blocks[0] + Concat(blocks[1..])
  }

  /** The body callback receives exactly the concatenation of the blocks, and the message completes once. */
  lemma {:induction false} ChunkedBody(log: Log, blocks: seq<seq<char>>)
    ensures BodyOf(AddAll(log, ChunkedEvents(blocks))) == BodyOf(log) + Concat(blocks)
    ensures Completions(AddAll(log, ChunkedEvents(blocks))) == Completions(log) + 1
    decreases blocks
  {
    hide Add, AddAll, BodyOf, Completions;
    if blocks == [] {
      AddAllThree(log, Notify(ChunkHeader), Notify(ChunkComplete), Notify(MessageComplete));
      Adding(log, Notify(ChunkHeader));
      Adding(Add(log, Notify(ChunkHeader)), Notify(ChunkComplete));
      Adding(Add(Add(log, Notify(ChunkHeader)), Notify(ChunkComplete)), Notify(MessageComplete));
    } else {
      var b := blocks[0];
      AddAllSplit(log, ChunkEvents(b), ChunkedEvents(blocks[1..]));
      OneChunk(log, b);
      ChunkedBody(AddAll(log, ChunkEvents(b)), blocks[1..]);
      hide ChunkEvents, ChunkedEvents;
      assert BodyOf(log) + b + Concat(blocks[1..]) == BodyOf(log) + (b + Concat(blocks[1..]));
    }
  }

  lemma OneChunk(log: Log, b: seq<char>)
    ensures BodyOf(AddAll(log, ChunkEvents(b))) == BodyOf(log) + b
    ensures Completions(AddAll(log, ChunkEvents(b))) == Completions(log)
  {
    hide Add, AddAll, BodyOf, Completions;
    var l1 := Add(log, Notify(ChunkHeader));
    var l2 := Add(l1, Data(Body, b));
    AddAllThree(log, Notify(ChunkHeader), Data(Body, b), Notify(ChunkComplete));
    Adding(log, Notify(ChunkHeader));
    Adding(l1, Data(Body, b));
    Adding(l2, Notify(ChunkComplete));
  }

  // ---------------------------------------------------------------- Content-Length framing

  predicate AtSized(r: Run, body: seq<char>) {
    r.stop.Go? && r.ps.state.BodyIdentity? && 0 < |body| == r.ps.contentLength < ULLONG_MAX
  }

  lemma SizedByte(ps: Parser, ch: char)
    requires ps.state.BodyIdentity? && 1 < ps.contentLength < ULLONG_MAX
    ensures Step(ps, ch) == StepOut(ps.(contentLength := ps.contentLength - 1), [Data(Body, [ch])], Go)
  {
    hide Step;
    BodyState(ps, ch);
  }

  lemma {:induction false} SizedRun(r: Run, body: seq<char>, n: nat)
    requires AtSized(r, body) && n < |body|
    ensures Feed(r, body, n)
            == Run(r.ps.(contentLength := |body| - n), AddSpan(r.log, Body, body[..n]), Go, r.consumed + n)
  {
    hide Step, Add, AddAll;
    if n > 0 {
      SizedRun(r, body, n - 1);
      var s := Feed(r, body, n - 1);
      SizedByte(s.ps, body[n - 1]);
      AddAllOne(s.log, Data(Body, [body[n - 1]]));
      AddSpanMerges(r.log, Body, body[..n - 1], [body[n - 1]]);
      assert body[..n] == body[..n - 1] + [body[n - 1]];
    }
  }

  lemma {:induction false} SizedTally(r: Run, body: seq<char>, n: nat, t: nat)
    requires AtSized(r, body) && n <= |body|
    ensures Tally(r, body, n, t) == t && (n < |body| ==> !InText(Feed(r, body, n).ps.state))
  {
    hide Step, Feed, AddSpan;
    if n < |body| { SizedRun(r, body, n); }
    if n > 0 {
      SizedRun(r, body, n - 1);
      SizedTally(r, body, n - 1, t);
    }
  }

  /** Where a message with a Content-Length body ends. */
  function AfterSized(ps: Parser): Out { MessageDoneStep(ps.(contentLength := 0, state := MessageDone)) }

  lemma AfterSizedShape(ps: Parser)
    ensures var o := AfterSized(ps); (o.stop.Go? || o.stop.Exited?) && o.ps.errno == ps.errno && !InText(o.ps.state)
  {
  }

  lemma SizedEnd(log: Log, s: Run, a: seq<char>, b: char)
    requires s.stop.Go? && s.ps.state.BodyIdentity? && s.ps.contentLength == 1 && s.log == AddSpan(log, Body, a)
    ensures var o := AfterSized(s.ps);
            StepRun(s, b)
            == Run(o.ps, Add(Add(log, Data(Body, a + [b])), Notify(MessageComplete)), o.stop, s.consumed + 1)
  {
    hide Step, Add, AddAll, MessageDoneStep;
    AfterSizedShape(s.ps);
    LastBodyByte(s.ps, b);
    AddAllTwo(s.log, Data(Body, [b]), Notify(MessageComplete));
    AddSpanMerges(log, Body, a, [b]);
  }

  /** Content-Length round trip: exactly the announced bytes are handed over, then the message completes. */
  lemma SizedRoundTrip(r: Run, body: seq<char>, t: nat)
    requires AtSized(r, body)
    ensures var o := AfterSized(r.ps);
            FeedAll(r, body)
            == Run(o.ps, Add(Add(r.log, Data(Body, body)), Notify(MessageComplete)), o.stop, r.consumed + |body|)
            && Smooth(r, body, t, t)
  {
    hide Step, Add, MessageDoneStep, Tally, AddSpan, StepRun, Smooth;
    var n := |body| - 1;
    SizedRun(r, body, n);
    SizedEnd(r.log, Feed(r, body, n), body[..n], body[n]);
    assert body == body[..n] + [body[n]];
    AfterSizedShape(r.ps);
    SizedSmooth(r, body, t);
  }

  lemma SizedSmooth(r: Run, body: seq<char>, t: nat)
    requires AtSized(r, body) && !InText(FeedAll(r, body).ps.state)
    ensures Smooth(r, body, t, t)
  {
    hide Step, Feed, Tally;
    forall i | 0 <= i <= |body| ensures !InText(Feed(r, body, i).ps.state) && Tally(r, body, i, t) == t {
      SizedTally(r, body, i, t);
    }
  }

  // ---------------------------------------------------------------- bodies arriving in real calls

  /** Such an input hides nothing and is taken however it is cut. */
  lemma SmoothTaken(r: Run, data: seq<char>, cuts: set<nat>, t: nat, bound: nat)
    requires Smooth(r, data, t, bound) && bound < HTTP_MAX_HEADER_SIZE
    ensures NoSkip(r, data, |data|) && !Refused(r, data, cuts, t)
  {
    hide Feed, Tally, Refused;
    NeverRefused(r, data, cuts, t, bound, 0);
  }

  /**
   A chunked body of any length, cut into calls in any way: the body callback gets exactly the blocks, the message
   completes once, every byte is taken and the header-size limit never interferes.
   */
  method ReceiveChunked(parser: LiveParser, blocks: seq<seq<char>>, pieces: seq<seq<char>>)
    returns (consumed: nat, stop: Stop)
    requires parser.Valid() && parser.ps.errno.OK? && parser.ps.state.ChunkSizeStart? && parser.ps.flags.chunked
    requires Blocks(blocks) && Flatten(pieces) == Chunked(blocks)
    requires forall k | 0 <= k < |pieces| :: pieces[k] != [] && |pieces[k]| <= HttpCall.MAX_CALL
    modifies parser
    ensures consumed == |Chunked(blocks)| && (stop.Go? || stop.Exited?)
    ensures BodyOf(Merged(parser.calls)) == BodyOf(Merged(old(parser.calls))) + Concat(blocks)
    ensures Completions(Merged(parser.calls)) == Completions(Merged(old(parser.calls))) + 1
    ensures parser.ps == AfterChunked(old(parser.ps)).ps
  {
    ghost var o := AfterChunked(parser.ps);
    assert (o.stop.Go? || o.stop.Exited?) && o.ps.errno.OK?;
    hide Step, Feed, FeedAll, Merged, Add, AddAll, MessageDoneStep, Smooth, BodyOf, Completions, Tally, Inv, Refused,
         Ends, Count, NoSkip, SameAs, Ended, CutAt, Flatten, Settled;
    ghost var r := parser.Now();
    ChunkedRoundTrip(r, blocks);
    ChunkedBody(r.log, blocks);
    SmoothTaken(r, Flatten(pieces), Ends(pieces), 0, LINE_MAX);
    var lost, overflow;
    ghost var last;
    consumed, stop, lost, overflow, last := ExecutePieces(parser, pieces);
    SameAsLive(FeedAll(r, Chunked(blocks)), parser.ps, Merged(parser.calls + lost), consumed, stop);
    assert parser.calls + lost == parser.calls;
  }

  lemma SizedStart(ps: Parser)
    requires Inv(ps) && ps.state.BodyIdentity?
    ensures 0 < ps.contentLength < ULLONG_MAX
  {
  }

  lemma SizedBody(log: Log, body: seq<char>)
    ensures BodyOf(Add(Add(log, Data(Body, body)), Notify(MessageComplete))) == BodyOf(log) + body
    ensures Completions(Add(Add(log, Data(Body, body)), Notify(MessageComplete))) == Completions(log) + 1
  {
    Adding(log, Data(Body, body));
    Adding(Add(log, Data(Body, body)), Notify(MessageComplete));
  }

  /** A Content-Length body, cut into calls in any way. */
  method ReceiveSized(parser: LiveParser, body: seq<char>, pieces: seq<seq<char>>) returns (consumed: nat, stop: Stop)
    requires parser.Valid() && parser.ps.errno.OK? && parser.ps.state.BodyIdentity?
    requires 0 < |body| == parser.ps.contentLength
    requires parser.nread < HTTP_MAX_HEADER_SIZE && Flatten(pieces) == body
    requires forall k | 0 <= k < |pieces| :: pieces[k] != [] && |pieces[k]| <= HttpCall.MAX_CALL
    modifies parser
    ensures consumed == |body| && (stop.Go? || stop.Exited?)
    ensures BodyOf(Merged(parser.calls)) == BodyOf(Merged(old(parser.calls))) + body
    ensures Completions(Merged(parser.calls)) == Completions(Merged(old(parser.calls))) + 1
    ensures parser.ps == AfterSized(old(parser.ps)).ps
  {
    hide Step, Feed, FeedAll, Merged, AfterSized, BodyOf, Completions, Tally, Inv, Refused, Ends, Count, NoSkip, SameAs,
         Ended, CutAt, Flatten, Settled;
    ghost var r := parser.Now();
    LiveSized(parser);
    SizedOutcome(r, body, Ends(pieces), parser.nread);
    var lost, overflow;
    ghost var last;
    consumed, stop, lost, overflow, last := ExecutePieces(parser, pieces);
    SameAsLive(FeedAll(r, body), parser.ps, Merged(parser.calls + lost), consumed, stop);
    assert parser.calls + lost == parser.calls;
  }

  lemma LiveSized(parser: LiveParser)
    requires parser.Valid() && parser.ps.errno.OK? && parser.ps.state.BodyIdentity?
    ensures 0 < parser.ps.contentLength < ULLONG_MAX
  {
    SizedStart(parser.ps);
    hide Inv;
  }

  /** What becomes of a Content-Length body in whatever calls it arrives. */
  lemma SizedOutcome(r: Run, body: seq<char>, cuts: set<nat>, t: nat)
    requires AtSized(r, body) && t < HTTP_MAX_HEADER_SIZE && r.ps.errno.OK?
    ensures var e := FeedAll(r, body);
            && e.ps == AfterSized(r.ps).ps && e.ps.errno.OK? && (e.stop.Go? || e.stop.Exited?)
            && e.consumed == r.consumed + |body|
            && BodyOf(e.log) == BodyOf(r.log) + body && Completions(e.log) == Completions(r.log) + 1
    ensures NoSkip(r, body, |body|) && !Refused(r, body, cuts, t)
  {
    hide Step, Feed, FeedAll, Add, MessageDoneStep, AfterSized, AtSized, Smooth, BodyOf, Completions, Refused, NoSkip;
    AfterSizedShape(r.ps);
    SizedRoundTrip(r, body, t);
    SizedBody(r.log, body);
    SmoothTaken(r, body, cuts, t, t);
  }
}
