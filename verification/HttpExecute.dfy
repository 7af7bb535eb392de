/**
 `http_parser_execute` itself: one call over a buffer, with its marks, its two
 inner scanning loops, its memchr jump and its body jumps, proved to do what the
 byte machine of HttpMachine does to the same bytes.
 */
module HttpExecute {
  import opened HttpMachine
  import opened HttpFeed
  import opened HttpInvariant

  // ---------------------------------------------------------------- marks

  /** At most one mark is set at any time; `pos` is its offset in the buffer. */
  datatype MarkAt = NoMark | At(kind: DataKind, pos: nat)

  function EntryMark(s: State): MarkAt {
    match RegionOf(s)
    case Open(k) => At(k, 0)
    case Closed => NoMark
  }

  predicate MarkBelow(m: MarkAt, p: nat) { m.At? ==> m.pos <= p }

  /** The log once the bytes since the mark are counted in. */
  function Pending(log: Log, m: MarkAt, data: seq<char>, p: nat): Log
    requires p <= |data| && MarkBelow(m, p)
  {
    if m.NoMark? then log else AddSpan(log, m.kind, data[m.pos..p])
  }

  /** Carries out the marks and callbacks of one byte at offset `p`. */
  function Perform(calls: seq<Event>, m: MarkAt, acts: seq<Act>, data: seq<char>, p: nat): (r: (seq<Event>, MarkAt))
    requires p <= |data| && MarkBelow(m, p)
    ensures MarkBelow(r.1, p)
    decreases acts
  {
    if acts == [] then (calls, m)
    else
      match acts[0]
      case Mark(k) => Perform(calls, if m.NoMark? then At(k, p) else m, acts[1..], data, p)
      case Flush(k) =>
        if m.At? && m.kind == k then Perform(calls + [Data(k, data[m.pos..p])], NoMark, acts[1..], data, p)
        else Perform(calls, m, acts[1..], data, p)
      case Tell(n) => Perform(calls + [Notify(n)], m, acts[1..], data, p)
  }

  /** No callback fires while a region is open, and regions open and close in turn. */
  predicate Tidy(r: Region, acts: seq<Act>)
    decreases acts
  {
    acts == [] ||
    match acts[0]
    case Mark(k) => r.Closed? && Tidy(Open(k), acts[1..])
    case Flush(k) => r == Open(k) && Tidy(Closed, acts[1..])
    case Tell(n) => r.Closed? && Tidy(r, acts[1..])
  }

  function MarkRegion(m: MarkAt): Region { if m.NoMark? then Closed else Open(m.kind) }

  lemma {:induction false} PerformIsPlay(calls: seq<Event>, m: MarkAt, acts: seq<Act>, data: seq<char>, p: nat)
    requires p <= |data| && MarkBelow(m, p) && Tidy(MarkRegion(m), acts)
    ensures var (c', m') := Perform(calls, m, acts, data, p);
            var (evs, r') := Play(MarkRegion(m), acts);
            MarkRegion(m') == r' && Pending(Merged(c'), m', data, p) == AddAll(Pending(Merged(calls), m, data, p), evs)
    decreases acts
  {
    if acts != [] {
      var log := Merged(calls);
      match acts[0] {
        case Mark(k) =>
          assert data[p..p] == [];
          PerformIsPlay(calls, At(k, p), acts[1..], data, p);
        case Flush(k) =>
          var span := data[m.pos..p];
          var c1 := calls + [Data(k, span)];
          MergedSnoc(calls, Data(k, span));
          AddSpanMerges(log, k, span, []);
          assert span + [] == span;
          PerformIsPlay(c1, NoMark, acts[1..], data, p);
          var (evs, r') := Play(Closed, acts[1..]);
          AddAllSplit(AddSpan(log, k, span), [Data(k, [])], evs);
          AddAllOne(AddSpan(log, k, span), Data(k, []));
        case Tell(n) =>
          MergedSnoc(calls, Notify(n));
          PerformIsPlay(calls + [Notify(n)], m, acts[1..], data, p);
          var (evs, r') := Play(Closed, acts[1..]);
          AddAllSplit(log, [Notify(n)], evs);
          AddAllOne(log, Notify(n));
      }
    }
  }

  /**
   What every plain byte guarantees: it leaves marks in the region of its next state, clears the header count
   on the way to a chunk size, fails exactly when it sets an error, and never touches the lenient flag.
   */
  predicate PlainOk(ps: Parser, r: Region, o: Out) {
    && Tidy(r, o.acts)
    && (o.stop.Go? || o.stop.Exited? ==> Play(r, o.acts).1 == RegionOf(o.ps.state))
    && (o.stop.Exited? ==> RegionOf(o.ps.state).Closed? && !o.ps.state.ChunkSizeStart?)
    && (o.stop.Go? && o.ps.state.ChunkSizeStart? ==> o.reset)
    && (ps.errno.OK? ==> (o.stop.Failed? <==> !o.ps.errno.OK?))
    && o.ps.lenient == ps.lenient
  }

  lemma TidyNone(r: Region)
    ensures Tidy(r, []) && Play(r, []).1 == r
  {
  }

  lemma TidyTell(ps: Parser, n: Notice, o: Out)
    requires PlainOk(ps, Closed, o)
    ensures PlainOk(ps, Closed, Then([Tell(n)], o))
  {
    assert ([Tell(n)] + o.acts)[1..] == o.acts;
  }

  lemma TidyOne(a: Act)
    ensures Tidy(Closed, [a]) <==> !a.Flush?
    ensures a.Mark? ==> Play(Closed, [a]).1 == Open(a.kind)
    ensures a.Tell? ==> Play(Closed, [a]).1 == Closed
    ensures a.Flush? ==> Tidy(Open(a.kind), [a]) && Play(Open(a.kind), [a]).1 == Closed
  {
    assert [a][1..] == [];
  }

  lemma TidyPair(k: DataKind)
    ensures Tidy(Closed, [Mark(k), Flush(k)]) && Play(Closed, [Mark(k), Flush(k)]).1 == Closed
  {
    assert [Mark(k), Flush(k)][1..] == [Flush(k)];
    TidyOne(Flush(k));
  }

  lemma TidyMarkFlush(ps: Parser, k: DataKind, o: Out)
    requires PlainOk(ps, Closed, o)
    ensures PlainOk(ps, Closed, Then([Mark(k), Flush(k)], o))
  {
    var acts := [Mark(k), Flush(k)] + o.acts;
    assert acts[1..][1..] == o.acts;
  }

  lemma EndOk(ps: Parser, ch: char)
    ensures PlainOk(ps, Closed, MessageDoneStep(ps))
    ensures PlainOk(ps, Closed, HeadersDoneStep(ps, ch))
  {
    hide Tidy, Play;
    TidyNone(Closed);
    TidyOne(Tell(MessageComplete));
  }

  lemma HeadersOk(ps: Parser, ch: char)
    ensures PlainOk(ps, Closed, HeadersAlmostDoneStep(ps, ch))
  {
    hide Tidy, Play;
    TidyNone(Closed);
    forall q: Parser
      ensures PlainOk(q, Closed, Then([Tell(ChunkComplete)], MessageDoneStep(q)))
      ensures PlainOk(q, Closed, Then([Tell(HeadersComplete)], HeadersDoneStep(q, ch)))
    {
      EndOk(q, ch);
      TidyTell(q, ChunkComplete, MessageDoneStep(q));
      TidyTell(q, HeadersComplete, HeadersDoneStep(q, ch));
    }
  }

  lemma FieldStartOk(ps: Parser, ch: char)
    ensures PlainOk(ps, Closed, HeaderFieldStartStep(ps, ch))
  {
    hide Tidy, Play;
    TidyNone(Closed);
    TidyOne(Mark(Field));
    HeadersOk(ps.(state := HeadersAlmostDone), ch);
  }

  lemma ValueStartOk(ps: Parser, ch: char)
    ensures PlainOk(ps, Closed, ValueStartStep(ps, ch))
  {
    hide Tidy, Play;
    TidyOne(Mark(Value));
    assert [Mark(Value)] + [] == [Mark(Value)];
  }

  lemma DiscardWsOk(ps: Parser, ch: char)
    requires ps.state == HeaderValueDiscardWs
    ensures PlainOk(ps, Closed, DiscardWsStep(ps, ch))
  {
    hide Tidy, Play;
    TidyNone(Closed);
    ValueStartOk(ps, ch);
  }

  lemma DiscardLwsOk(ps: Parser, ch: char)
    ensures PlainOk(ps, Closed, DiscardLwsStep(ps, ch))
  {
    hide Tidy, Play;
    TidyNone(Closed);
    var o := HeaderFieldStartStep(NoteFlag(ps).(state := HeaderFieldStart), ch);
    FieldStartOk(NoteFlag(ps).(state := HeaderFieldStart), ch);
    TidyMarkFlush(ps, Value, o);
  }

  lemma ValueLwsOk(ps: Parser, ch: char)
    ensures PlainOk(ps, Closed, ValueLwsStep(ps, ch))
  {
    hide Tidy, Play;
    if ch == ' ' || ch == '\t' {
      ValueStartOk(ps.(state := HeaderValueStart), ch);
    } else {
      FieldStartOk(NoteFlag(ps).(state := HeaderFieldStart), ch);
    }
  }

  lemma AlmostDoneOk(ps: Parser, ch: char)
    requires RegionOf(ps.state) == Closed
    ensures PlainOk(ps, Closed, HeaderAlmostDoneStep(ps, ch))
  {
    hide Tidy, Play;
    TidyNone(Closed);
  }

  lemma StatusOk(ps: Parser, ch: char)
    ensures PlainOk(ps, Open(Status), ResStatusStep(ps.(state := ResStatus), ch))
  {
    hide Tidy, Play;
    TidyNone(Open(Status));
    TidyOne(Flush(Status));
  }

  lemma StatusStartOk(ps: Parser, ch: char)
    ensures PlainOk(ps, Closed, ResStatusStartStep(ps, ch))
  {
    hide Tidy, Play;
    TidyNone(Closed);
    TidyOne(Mark(Status));
    TidyPair(Status);
    assert [Mark(Status)] + [Flush(Status)] == [Mark(Status), Flush(Status)];
  }

  lemma StatusCodeOk(ps: Parser, ch: char)
    ensures PlainOk(ps, Closed, ResStatusCodeStep(ps.(state := ResStatusCode), ch))
  {
    hide Tidy, Play;
    TidyNone(Closed);
    TidyPair(Status);
    assert [Mark(Status)] + [Flush(Status)] == [Mark(Status), Flush(Status)];
  }

  /** A byte without marks or callbacks. */
  lemma SilentOk(ps: Parser, r: Region, o: Out)
    requires o.acts == [] && !o.stop.Exited? && o.ps.lenient == ps.lenient
    requires ps.errno.OK? ==> (o.stop.Failed? <==> !o.ps.errno.OK?)
    requires o.stop.Go? ==> RegionOf(o.ps.state) == r && !o.ps.state.ChunkSizeStart?
    ensures PlainOk(ps, r, o)
  {
    TidyNone(r);
  }

  lemma ExpectOk(ps: Parser, ch: char, want: char, next: State, e: Errno)
    requires RegionOf(next) == Closed && !next.ChunkSizeStart? && !e.OK?
    ensures PlainOk(ps, Closed, Expect(ps, ch, want, next, e))
  {
    hide PlainOk, RegionOf;
    var o := Expect(ps, ch, want, next, e);
    assert o.stop.Go? ==> o.ps.state == next;
    SilentOk(ps, Closed, o);
  }

  lemma StartResOk(ps: Parser, ch: char)
    requires ps.state.StartRes?
    ensures PlainOk(ps, Closed, ResponseLineStep(ps, ch))
  {
    hide Tidy, Play;
    TidyNone(Closed);
    TidyOne(Tell(MessageBegin));
  }

  lemma ResponseLineOk(ps: Parser, ch: char)
    requires ps.state in {StartRes, ResH, ResHT, ResHTT, ResHTTP, ResHttpMajor, ResHttpDot, ResHttpMinor, ResHttpEnd,
                          ResFirstStatusCode, ResStatusCode, ResStatusStart, ResStatus, ResLineAlmostDone}
    ensures PlainOk(ps, RegionOf(ps.state), ResponseLineStep(ps, ch))
  {
    hide PlainOk, Expect, ResStatusCodeStep, ResStatusStartStep, ResStatusStep;
    match ps.state
    case StartRes => StartResOk(ps, ch);
    case ResH => ExpectOk(ps, ch, 'T', ResHT, Strict);
    case ResHT => ExpectOk(ps, ch, 'T', ResHTT, Strict);
    case ResHTT => ExpectOk(ps, ch, 'P', ResHTTP, Strict);
    case ResHTTP => ExpectOk(ps, ch, '/', ResHttpMajor, Strict);
    case ResHttpDot => ExpectOk(ps, ch, '.', ResHttpMinor, InvalidVersion);
    case ResHttpEnd => ExpectOk(ps, ch, ' ', ResFirstStatusCode, InvalidVersion);
    case ResLineAlmostDone => ExpectOk(ps, ch, LF, HeaderFieldStart, Strict);
    case ResStatusCode => StatusCodeOk(ps, ch); assert ps == ps.(state := ResStatusCode);
    case ResStatusStart => StatusStartOk(ps, ch);
    case ResStatus => StatusOk(ps, ch); assert ps == ps.(state := ResStatus);
    case _ => ResponseDigitOk(ps, ch);
  }

  lemma ResponseDigitOk(ps: Parser, ch: char)
    requires ps.state.ResHttpMajor? || ps.state.ResHttpMinor? || ps.state.ResFirstStatusCode?
    ensures PlainOk(ps, Closed, ResponseLineStep(ps, ch))
  {
    hide PlainOk, Expect, ResStatusCodeStep, ResStatusStartStep, ResStatusStep;
    SilentOk(ps, Closed, ResponseLineStep(ps, ch));
  }

  lemma StartReqOk(ps: Parser, ch: char)
    ensures PlainOk(ps, Closed, StartReqStep(ps.(state := StartReq), ch))
  {
    hide Tidy, Play;
    TidyNone(Closed);
    TidyOne(Tell(MessageBegin));
  }

  lemma ReqMethodOk(ps: Parser, ch: char)
    ensures PlainOk(ps, Closed, ReqMethodStep(ps.(state := ReqMethod), ch))
  {
    hide PlainOk;
    SilentOk(ps, Closed, ReqMethodStep(ps.(state := ReqMethod), ch));
  }

  lemma RequestOk(ps: Parser, ch: char)
    requires RegionOf(ps.state) == Closed
    ensures PlainOk(ps, Closed, RequestLineStep(ps, ch))
  {
    hide PlainOk, Expect, StartReqStep, ReqMethodStep;
    match ps.state
    case StartReq => StartReqOk(ps, ch); assert ps == ps.(state := StartReq);
    case ReqMethod => ReqMethodOk(ps, ch); assert ps == ps.(state := ReqMethod);
    case ReqHttpH => ExpectOk(ps, ch, 'T', ReqHttpHT, Strict);
    case ReqHttpHT => ExpectOk(ps, ch, 'T', ReqHttpHTT, Strict);
    case ReqHttpHTT => ExpectOk(ps, ch, 'P', ReqHttpHTTP, Strict);
    case ReqHttpHTTP => ExpectOk(ps, ch, '/', ReqHttpMajor, Strict);
    case ReqHttpDot => ExpectOk(ps, ch, '.', ReqHttpMinor, InvalidVersion);
    case ReqLineAlmostDone => ExpectOk(ps, ch, LF, HeaderFieldStart, LfExpected);
    case _ => RequestOtherOk(ps, ch);
  }

  lemma RequestOtherOk(ps: Parser, ch: char)
    requires RegionOf(ps.state) == Closed && !ps.state.StartReq? && !ps.state.ReqMethod?
    requires !(ps.state.ReqHttpH? || ps.state.ReqHttpHT? || ps.state.ReqHttpHTT? || ps.state.ReqHttpHTTP?
               || ps.state.ReqHttpDot? || ps.state.ReqLineAlmostDone?)
    ensures PlainOk(ps, Closed, RequestLineStep(ps, ch))
  {
    hide PlainOk, Expect, StartReqStep, ReqMethodStep;
    SilentOk(ps, Closed, RequestLineStep(ps, ch));
  }

  lemma StartOk(ps: Parser, ch: char)
    requires ps.state in {Dead, StartReqOrRes, ResOrRespH}
    ensures PlainOk(ps, Closed, StartStep(ps, ch))
  {
    hide Tidy, Play;
    TidyNone(Closed);
    TidyOne(Tell(MessageBegin));
    StartReqOk(ps.(flags := NO_FLAGS, contentLength := ULLONG_MAX, kind := Request), ch);
  }

  lemma UrlByteOk(ps: Parser, from: State, r: Region, acts: seq<Act>, ch: char)
    requires RegionOf(from) == Open(Url) || from == ReqSpacesBeforeUrl
    requires Tidy(r, acts) && Play(r, acts).1 == Open(Url)
    ensures PlainOk(ps, r, UrlByte(ps, from, acts, ch))
  {
    hide Tidy, Play, ParseUrlChar;
    UrlCharShape(from, ch);
  }

  lemma UrlSpacesOk(ps: Parser, ch: char)
    requires ps.state.ReqSpacesBeforeUrl?
    ensures PlainOk(ps, Closed, UrlStep(ps, ch))
  {
    hide Tidy, Play, UrlByte;
    TidyNone(Closed);
    TidyOne(Mark(Url));
    UrlByteOk(ps, if ps.method_ == CONNECT then ReqServerStart else ReqSpacesBeforeUrl, Closed, [Mark(Url)], ch);
  }

  lemma UrlOk(ps: Parser, ch: char)
    requires RegionOf(ps.state) == Open(Url)
    ensures PlainOk(ps, Open(Url), UrlStep(ps, ch))
  {
    hide Tidy, Play, UrlByte;
    TidyNone(Open(Url));
    TidyOne(Flush(Url));
    UrlByteOk(ps, ps.state, Open(Url), [], ch);
  }

  lemma ChunkOk(ps: Parser, ch: char)
    requires ps.state != ChunkDataAlmostDone && RegionOf(ps.state) == Closed
    ensures PlainOk(ps, Closed, ChunkStep(ps, ch))
  {
    hide PlainOk, Unhex, ChunkStep;
    if ps.state.ChunkSizeAlmostDone? || ps.state.ChunkDataDone? { ChunkEndOk(ps, ch); } else { ChunkLineOk(ps, ch); }
  }

  lemma ChunkEndOk(ps: Parser, ch: char)
    requires ps.state.ChunkSizeAlmostDone? || ps.state.ChunkDataDone?
    ensures PlainOk(ps, Closed, ChunkStep(ps, ch))
  {
    hide Tidy, Play;
    TidyNone(Closed);
    TidyOne(Tell(ChunkHeader));
    TidyOne(Tell(ChunkComplete));
  }

  lemma ChunkLineOk(ps: Parser, ch: char)
    requires RegionOf(ps.state) == Closed
    requires !ps.state.ChunkDataAlmostDone? && !ps.state.ChunkSizeAlmostDone? && !ps.state.ChunkDataDone?
    ensures PlainOk(ps, Closed, ChunkStep(ps, ch))
  {
    hide PlainOk, Unhex;
    SilentOk(ps, Closed, ChunkStep(ps, ch));
  }

  lemma DiscardedOk(ps: Parser, ch: char)
    requires ps.state == HeaderValueDiscardWsAlmostDone
    ensures PlainOk(ps, Closed, PlainStep(ps, ch))
  {
    hide Tidy, Play;
    TidyNone(Closed);
  }

  /** Marks follow the state: what a plain byte opens and closes ends in the region of its next state. */
  lemma PlainBytes(ps: Parser, ch: char)
    requires !Scanning(ps.state) && ps.state != ChunkDataAlmostDone
    ensures PlainOk(ps, RegionOf(ps.state), PlainStep(ps, ch))
  {
    hide Tidy, Play, PlainOk, StartStep, ResponseLineStep, UrlStep, HeaderFieldStartStep, DiscardWsStep, DiscardLwsStep,
         ValueStartStep,
         ValueLwsStep, HeaderAlmostDoneStep, HeadersAlmostDoneStep, HeadersDoneStep, MessageDoneStep, ChunkStep,
         RequestLineStep;
    match ps.state
    case StartRes | ResH | ResHT | ResHTT | ResHTTP | ResHttpMajor | ResHttpDot | ResHttpMinor | ResHttpEnd
       | ResFirstStatusCode | ResStatusCode | ResStatusStart | ResStatus | ResLineAlmostDone => ResponseLineOk(ps, ch);
    case ReqSpacesBeforeUrl => UrlSpacesOk(ps, ch);
    case ReqSchema | ReqSchemaSlash | ReqSchemaSlashSlash | ReqServerStart | ReqServer
       | ReqServerWithAt | ReqPath | ReqQueryStringStart | ReqQueryString | ReqFragmentStart | ReqFragment =>
      UrlOk(ps, ch);
    case HeaderFieldStart => FieldStartOk(ps, ch);
    case HeaderValueDiscardWsAlmostDone => DiscardedOk(ps, ch);
    case HeaderValueStart => ValueStartOk(ps, ch);
    case HeaderValueDiscardWs => DiscardWsOk(ps, ch);
    case HeaderValueDiscardLws => DiscardLwsOk(ps, ch);
    case HeaderValueLws => ValueLwsOk(ps, ch);
    case HeaderAlmostDone => AlmostDoneOk(ps, ch);
    case HeadersAlmostDone => HeadersOk(ps, ch);
    case HeadersDone | MessageDone => EndOk(ps, ch);
    case ChunkSizeStart | ChunkSize | ChunkParameters | ChunkSizeAlmostDone | ChunkDataDone => ChunkOk(ps, ch);
    case Dead | StartReqOrRes | ResOrRespH => StartOk(ps, ch);
    case _ => RequestOk(ps, ch);
  }

  // ---------------------------------------------------------------- one call

  /** After `p` bytes of the call the parser `q`, its callbacks and its mark are those of the byte machine. */
  ghost predicate InStep(r0: Run, data: seq<char>, p: nat, q: Parser, calls: seq<Event>, m: MarkAt) {
    p <= |data| && MarkBelow(m, p) && Feed(r0, data, p) == Run(q, Pending(Merged(calls), m, data, p), Go, p)
  }

  /** The mark a call holds in state `s` at offset `p` of `len`: the body mark alone may outlive its region. */
  predicate MarkFits(m: MarkAt, s: State, p: nat, len: nat) {
    match RegionOf(s)
    case Open(k) => m.At? && m.kind == k && (m.pos < p || p == 0)
    case Closed => m.NoMark? || (m.kind == Body && m.pos < p && (s.ChunkDataAlmostDone? || p == len))
  }

  lemma SpanGrows(log: Log, m: MarkAt, data: seq<char>, p: nat)
    requires p < |data| && m.At? && m.pos <= p
    ensures Pending(log, m, data, p + 1) == Add(Pending(log, m, data, p), Data(m.kind, [data[p]]))
  {
    AddSpanMerges(log, m.kind, data[m.pos..p], [data[p]]);
    assert data[m.pos..p + 1] == data[m.pos..p] + [data[p]];
  }

  /** What performing the acts of `o` at offset `p` must achieve. */
  ghost predicate Advances(r0: Run, data: seq<char>, p: nat, calls: seq<Event>, m: MarkAt, o: Out)
    requires p < |data| && MarkBelow(m, p)
  {
    var (c', m') := Perform(calls, m, o.acts, data, p);
    if o.stop.Go? then InStep(r0, data, p + 1, o.ps, c', m') && MarkFits(m', o.ps.state, p + 1, |data|)
    else if o.stop.Exited? then m'.NoMark? && Feed(r0, data, p + 1) == Run(o.ps, Merged(c'), Exited, p + 1)
    else Feed(r0, data, p + 1) == Run(o.ps, Pending(Merged(c'), m', data, p), o.stop, p)
  }

  lemma PlainIsSpelled(q: Parser, ch: char)
    requires !Scanning(q.state)
    ensures Step(q, ch) == Spell(RegionOf(q.state), PlainStep(q, ch), ch)
  {
    hide PlainStep;
  }

  lemma TidyAdvance(r0: Run, data: seq<char>, p: nat, q: Parser, calls: seq<Event>, m: MarkAt, o: Out)
    requires InStep(r0, data, p, q, calls, m) && p < |data|
    requires Step(q, data[p]) == Spell(MarkRegion(m), o, data[p]) && PlainOk(q, MarkRegion(m), o)
    ensures Advances(r0, data, p, calls, m, o)
  {
    hide Step, Perform, Play, Tidy, Add, AddAll, AddSpan;
    var (c', m') := Perform(calls, m, o.acts, data, p);
    PerformIsPlay(calls, m, o.acts, data, p);
    var log := Pending(Merged(calls), m, data, p);
    var (evs, r') := Play(MarkRegion(m), o.acts);
    if o.stop.Go? && m'.At? {
      SpanGrows(Merged(c'), m', data, p);
      AddAllSplit(log, evs, [Data(m'.kind, [data[p]])]);
      AddAllOne(AddAll(log, evs), Data(m'.kind, [data[p]]));
    }
  }

  /** The byte after a chunk's data: the body mark, if this call set it, is handed over. */
  lemma BodyMarkAdvance(r0: Run, data: seq<char>, p: nat, q: Parser, calls: seq<Event>, m: MarkAt, o: Out)
    requires InStep(r0, data, p, q, calls, m) && p < |data|
    requires m.At? && m.kind == Body && m.pos < p
    requires Step(q, data[p]) == Spell(Closed, o, data[p])
    requires if o.stop.Go? then o.acts == [Flush(Body)] && RegionOf(o.ps.state) == Closed
             else o.acts == [] && !o.stop.Exited?
    ensures Advances(r0, data, p, calls, m, o)
  {
    hide Step;
    var acts: seq<Act> := [Flush(Body)];
    assert acts[1..] == [];
    assert Play(Closed, acts) == ([], Closed);
    MergedSnoc(calls, Data(Body, data[m.pos..p]));
  }

  lemma ChunkEndActs(q: Parser, ch: char)
    requires q.state == ChunkDataAlmostDone
    ensures var o := PlainStep(q, ch);
            && (if o.stop.Go? then o.acts == [Flush(Body)] && o.ps.state.ChunkDataDone?
                else o.acts == [] && !o.stop.Exited?)
            && (q.errno.OK? ==> (o.stop.Failed? <==> !o.ps.errno.OK?))
  {
  }

  /** The mark after a plain byte fits the next state, whatever the call has seen before. */
  lemma MarkAfter(data: seq<char>, p: nat, q: Parser, calls: seq<Event>, m: MarkAt)
    requires p < |data| && MarkBelow(m, p) && MarkFits(m, q.state, p, |data|) && !Scanning(q.state) && q.errno.OK?
    ensures var o := PlainStep(q, data[p]);
            var m' := Perform(calls, m, o.acts, data, p).1;
            && (o.stop.Go? ==> MarkFits(m', o.ps.state, p + 1, |data|) && (o.ps.state.ChunkSizeStart? ==> o.reset))
            && (o.stop.Exited? ==> m'.NoMark? && !o.ps.state.ChunkSizeStart?)
            && (o.stop.Failed? <==> !o.ps.errno.OK?)
  {
    hide PlainStep, Merged, Pending;
    var o := PlainStep(q, data[p]);
    if q.state.ChunkDataAlmostDone? {
      ChunkEndActs(q, data[p]);
      var acts: seq<Act> := [Flush(Body)];
      assert acts[1..] == [];
    } else {
      PlainBytes(q, data[p]);
      hide Tidy, Play;
      PerformIsPlay(calls, m, o.acts, data, p);
    }
  }

  /** Without a body mark the flush of the chunk's end does nothing. */
  lemma NoMarkAdvance(r0: Run, data: seq<char>, p: nat, q: Parser, calls: seq<Event>, o: Out)
    requires InStep(r0, data, p, q, calls, NoMark) && p < |data|
    requires Step(q, data[p]) == Spell(Closed, o, data[p])
    requires if o.stop.Go? then o.acts == [Flush(Body)] && RegionOf(o.ps.state) == Closed
             else o.acts == [] && !o.stop.Exited?
    ensures Advances(r0, data, p, calls, NoMark, o)
  {
    hide Step;
    var acts: seq<Act> := [Flush(Body)];
    assert acts[1..] == [];
    assert Play(Closed, acts) == ([], Closed);
  }

  /** A plain byte: performing its acts keeps the call in step with the byte machine. */
  lemma PlainAdvance(r0: Run, data: seq<char>, p: nat, q: Parser, calls: seq<Event>, m: MarkAt)
    requires InStep(r0, data, p, q, calls, m) && p < |data| && MarkFits(m, q.state, p, |data|)
    requires !Scanning(q.state)
    ensures Advances(r0, data, p, calls, m, PlainStep(q, data[p]))
  {
    hide PlainStep;
    hide Step;
    var o := PlainStep(q, data[p]);
    PlainIsSpelled(q, data[p]);
    if q.state == ChunkDataAlmostDone {
      ChunkEndActs(q, data[p]);
      if m.At? {
        BodyMarkAdvance(r0, data, p, q, calls, m, o);
      } else {
        NoMarkAdvance(r0, data, p, q, calls, o);
      }
    } else {
      PlainBytes(q, data[p]);
      TidyAdvance(r0, data, p, q, calls, m, o);
    }
  }

  // ---------------------------------------------------------------- scanned bytes

  lemma FieldState(q: Parser, ch: char)
    requires q.state == HeaderField
    ensures Step(q, ch) == FieldStep(q, ch)
  {
    hide PlainStep;
  }

  lemma ValueState(q: Parser, ch: char)
    requires q.state == HeaderValue
    ensures Step(q, ch) == ValueStep(q, ch)
  {
    hide PlainStep;
  }

  /** The three body states, away from the end of the body. */
  lemma BodyState(q: Parser, ch: char)
    ensures q.state == BodyIdentity && 1 < q.contentLength < ULLONG_MAX
            ==> Step(q, ch) == StepOut(q.(contentLength := q.contentLength - 1), [Data(Body, [ch])], Go)
    ensures q.state == BodyIdentityEof ==> Step(q, ch) == StepOut(q, [Data(Body, [ch])], Go)
    ensures q.state == ChunkData && q.flags.chunked && 0 < q.contentLength < ULLONG_MAX
            ==> Step(q, ch) == StepOut(q.(contentLength := q.contentLength - 1,
                                          state := if q.contentLength == 1 then ChunkDataAlmostDone else ChunkData),
                                       [Data(Body, [ch])], Go)
  {
    hide PlainStep;
  }

  /** A byte that belongs to the marked region. */
  lemma ByteJoins(r0: Run, data: seq<char>, p: nat, q: Parser, calls: seq<Event>, m: MarkAt, q': Parser)
    requires InStep(r0, data, p, q, calls, m) && p < |data| && m.At?
    requires Step(q, data[p]) == StepOut(q', [Data(m.kind, [data[p]])], Go)
    ensures InStep(r0, data, p + 1, q', calls, m)
  {
    hide Step;
    SpanGrows(Merged(calls), m, data, p);
    AddAllOne(Pending(Merged(calls), m, data, p), Data(m.kind, [data[p]]));
  }

  /** A byte that ends the marked region. */
  lemma ByteCloses(r0: Run, data: seq<char>, p: nat, q: Parser, calls: seq<Event>, m: MarkAt, q': Parser)
    requires InStep(r0, data, p, q, calls, m) && p < |data| && m.At?
    requires Step(q, data[p]) == StepOut(q', [Data(m.kind, [])], Go)
    ensures InStep(r0, data, p + 1, q', calls + [Data(m.kind, data[m.pos..p])], NoMark)
  {
    hide Step;
    var span := data[m.pos..p];
    MergedSnoc(calls, Data(m.kind, span));
    AddSpanMerges(Merged(calls), m.kind, span, []);
    assert span + [] == span;
    AddAllOne(Pending(Merged(calls), m, data, p), Data(m.kind, []));
  }

  /** A byte the machine rejects. */
  lemma ByteFails(r0: Run, data: seq<char>, p: nat, q: Parser, calls: seq<Event>, m: MarkAt, o: StepOut)
    requires InStep(r0, data, p, q, calls, m) && p < |data|
    requires Step(q, data[p]) == o && o.evs == [] && (o.stop.Failed? || o.stop.Panicked?)
    ensures Feed(r0, data, p + 1) == Run(o.ps, Pending(Merged(calls), m, data, p), o.stop, p)
  {
    hide Step;
  }

  // ---------------------------------------------------------------- body jumps

  lemma OpenBody(r0: Run, data: seq<char>, p: nat, q: Parser, calls: seq<Event>)
    requires InStep(r0, data, p, q, calls, NoMark)
    ensures InStep(r0, data, p, q, calls, At(Body, p))
  {
    hide Feed;
    assert data[p..p] == [];
  }

  lemma BodyOn(r0: Run, data: seq<char>, p: nat, q: Parser, calls: seq<Event>, m: MarkAt)
    requires InStep(r0, data, p, q, calls, m) && p < |data| && m.At? && m.kind == Body
    requires q.state == BodyIdentity && 1 < q.contentLength < ULLONG_MAX
    ensures InStep(r0, data, p + 1, q.(contentLength := q.contentLength - 1), calls, m)
  {
    hide Step, InStep;
    BodyState(q, data[p]);
    ByteJoins(r0, data, p, q, calls, m, q.(contentLength := q.contentLength - 1));
  }

  /** `n` bytes of a Content-Length body, short of its end. */
  lemma {:induction false} BodyJump(r0: Run, data: seq<char>, p: nat, q: Parser, calls: seq<Event>, n: nat)
    requires InStep(r0, data, p, q, calls, NoMark) && p + n <= |data|
    requires q.state == BodyIdentity && n < q.contentLength != ULLONG_MAX
    ensures InStep(r0, data, p + n, q.(contentLength := q.contentLength - n), calls, At(Body, p))
  {
    hide Step, InStep;
    if n == 0 {
      OpenBody(r0, data, p, q, calls);
    } else {
      BodyJump(r0, data, p, q, calls, n - 1);
      BodyOn(r0, data, p + n - 1, q.(contentLength := q.contentLength - (n - 1)), calls, At(Body, p));
    }
  }

  /** `n` bytes of a chunk. */
  lemma {:induction false} ChunkJump(r0: Run, data: seq<char>, p: nat, q: Parser, calls: seq<Event>, n: nat)
    requires InStep(r0, data, p, q, calls, NoMark) && p + n <= |data|
    requires q.state == ChunkData && q.flags.chunked && n <= q.contentLength && 0 < q.contentLength < ULLONG_MAX
    ensures InStep(r0, data, p + n,
                   q.(contentLength := q.contentLength - n,
                      state := if n == q.contentLength then ChunkDataAlmostDone else ChunkData),
                   calls, At(Body, p))
  {
    hide Step, InStep;
    if n == 0 {
      OpenBody(r0, data, p, q, calls);
    } else {
      ChunkJump(r0, data, p, q, calls, n - 1);
      var q1 := q.(contentLength := q.contentLength - (n - 1));
      BodyState(q1, data[p + n - 1]);
      ByteJoins(r0, data, p + n - 1, q1, calls, At(Body, p),
                q1.(contentLength := q1.contentLength - 1,
                    state := if q1.contentLength == 1 then ChunkDataAlmostDone else ChunkData));
    }
  }

  /** `n` bytes of a body that ends with the connection. */
  lemma {:induction false} EofJump(r0: Run, data: seq<char>, p: nat, q: Parser, calls: seq<Event>, n: nat)
    requires InStep(r0, data, p, q, calls, NoMark) && p + n <= |data|
    requires q.state == BodyIdentityEof
    ensures InStep(r0, data, p + n, q, calls, At(Body, p))
  {
    hide Step, InStep;
    if n == 0 {
      OpenBody(r0, data, p, q, calls);
    } else {
      EofJump(r0, data, p, q, calls, n - 1);
      BodyState(q, data[p + n - 1]);
      ByteJoins(r0, data, p + n - 1, q, calls, At(Body, p), q);
    }
  }

  /** One byte that hands over the marked span and completes the message. */
  lemma ByteCompletes(r0: Run, data: seq<char>, p: nat, q: Parser, calls: seq<Event>, m: MarkAt, q': Parser, stop: Stop)
    requires InStep(r0, data, p, q, calls, m) && p < |data| && m.At? && m.pos <= p && (stop.Go? || stop.Exited?)
    requires Step(q, data[p]) == StepOut(q', [Data(m.kind, [data[p]]), Notify(MessageComplete)], stop)
    ensures Feed(r0, data, p + 1)
            == Run(q', Merged(calls + [Data(m.kind, data[m.pos..p + 1]), Notify(MessageComplete)]), stop, p + 1)
  {
    hide Step, Add, AddAll;
    var log, b := Merged(calls), data[p];
    AddAllTwo(Pending(log, m, data, p), Data(m.kind, [b]), Notify(MessageComplete));
    AddSpanMerges(log, m.kind, data[m.pos..p], [b]);
    assert data[m.pos..p + 1] == data[m.pos..p] + [b];
    MergedSnocTwo(calls, Data(m.kind, data[m.pos..p + 1]), Notify(MessageComplete));
  }

  /** The last byte of a Content-Length body: the body is handed over, then the message completes. */
  lemma BodyEnds(r0: Run, data: seq<char>, p: nat, q: Parser, calls: seq<Event>)
    requires InStep(r0, data, p, q, calls, NoMark)
    requires q.state == BodyIdentity && 0 < q.contentLength < ULLONG_MAX && p + q.contentLength <= |data|
    ensures var e := p + q.contentLength;
            var o := MessageDoneStep(q.(contentLength := 0, state := MessageDone));
            Feed(r0, data, e) == Run(o.ps, Merged(calls + [Data(Body, data[p..e]), Notify(MessageComplete)]), o.stop, e)
  {
    hide Step, StepRun, PlainStep, MessageDoneStep, InStep, Feed, Merged, Add, AddAll;
    var o := MessageDoneStep(q.(contentLength := 0, state := MessageDone));
    DoneGoesOn(q.(contentLength := 0, state := MessageDone));
    var e := p + q.contentLength;
    BodyJump(r0, data, p, q, calls, q.contentLength - 1);
    var q1 := q.(contentLength := 1);
    LastBodyByte(q1, data[e - 1]);
    ByteCompletes(r0, data, e - 1, q1, calls, At(Body, p), o.ps, o.stop);
  }

  lemma DoneGoesOn(q: Parser)
    ensures MessageDoneStep(q).stop.Go? || MessageDoneStep(q).stop.Exited?
  {
  }

  lemma LastBodyByte(q: Parser, ch: char)
    requires q.state == BodyIdentity && q.contentLength == 1
    ensures var o := MessageDoneStep(q.(contentLength := 0, state := MessageDone));
            Step(q, ch) == StepOut(o.ps, [Data(Body, [ch]), Notify(MessageComplete)], o.stop)
  {
    hide PlainStep;
  }

  // ---------------------------------------------------------------- the header size

  function Tick(ps: Parser, ch: char, t: nat): nat {
    if !Scanning(ps.state) && PlainStep(ps, ch).reset then 0 else if ParsingHeader(ps.state) then t + 1 else t
  }

  /**
   The exact header size after `n` bytes, starting from `t0`: one per header byte, cleared where the parser clears it.
   */
  function Tally(r0: Run, data: seq<char>, n: nat, t0: nat): nat
    requires n <= |data|
  {
    if n == 0 then t0
    else
      var r := Feed(r0, data, n - 1);
      if r.stop.Go? then Tick(r.ps, data[n - 1], Tally(r0, data, n - 1, t0)) else Tally(r0, data, n - 1, t0)
  }

  predicate InText(s: State) { s.HeaderField? || s.HeaderValue? }

  /** The byte in front of offset `k` was read by the inner loop over a header name or value, which goes on at `k`. */
  ghost predicate Inner(r0: Run, data: seq<char>, k: nat) {
    && 0 < k <= |data| && InText(Feed(r0, data, k).ps.state)
    && Feed(r0, data, k - 1).ps.state == Feed(r0, data, k).ps.state
  }

  /** What a call that ends at offset `k` inside a name or value counts beside its bytes. */
  ghost function Extra(r0: Run, data: seq<char>, k: nat): nat { if Inner(r0, data, k) then 1 else 0 }

  /** The byte that ends a header name or a line of a header value. */
  predicate EndsText(s: State, ch: char) { if s.HeaderField? then Token(ch) == '\0' else ch == CR || ch == LF }

  /**
   A call over `data` compares the header size with the limit at offset `k`: before each byte of a header, but inside a
   name or value only where the inner loop ends, be it at the end of the buffer.
   */
  ghost predicate Checked(r0: Run, data: seq<char>, k: nat) {
    && k <= |data| && Feed(r0, data, k).stop.Go? && ParsingHeader(Feed(r0, data, k).ps.state)
    && if Inner(r0, data, k) then k == |data| || EndsText(Feed(r0, data, k).ps.state, data[k]) else k < |data|
  }

  /** The comparison at offset `k` stops the call. */
  ghost predicate Trips(r0: Run, data: seq<char>, t0: nat, k: nat) {
    Checked(r0, data, k) && Tally(r0, data, k, t0) >= HTTP_MAX_HEADER_SIZE
  }

  /** No comparison at an offset from `lo` up to `hi` stops the call. */
  ghost predicate Untripped(r0: Run, data: seq<char>, t0: nat, lo: nat, hi: nat) {
    forall k: nat | lo <= k < hi :: !Trips(r0, data, t0, k)
  }

  lemma TallyNext(r0: Run, data: seq<char>, p: nat, q: Parser, calls: seq<Event>, m: MarkAt, t0: nat)
    requires InStep(r0, data, p, q, calls, m) && p < |data|
    ensures Tally(r0, data, p + 1, t0) == Tick(q, data[p], Tally(r0, data, p, t0))
  {
    hide Step, PlainStep, Pending;
  }

  lemma TallyScan(r0: Run, data: seq<char>, p: nat, q: Parser, calls: seq<Event>, m: MarkAt, t0: nat)
    requires InStep(r0, data, p, q, calls, m) && p < |data| && Scanning(q.state)
    ensures Tally(r0, data, p + 1, t0) == Tally(r0, data, p, t0) + (if ParsingHeader(q.state) then 1 else 0)
  {
    hide Step, PlainStep, Pending;
  }

  // ---------------------------------------------------------------- the header-value scan

  predicate InGeneral(r: Run) { r.stop.Go? && r.ps.state == HeaderValue && r.ps.headerState == General }

  /** Byte `i` is one the memchr jump runs over and the character check would have rejected. */
  ghost predicate SkipsAt(r0: Run, data: seq<char>, i: int) {
    1 <= i < |data| && InGeneral(Feed(r0, data, i - 1)) && InGeneral(Feed(r0, data, i))
    && !Feed(r0, data, i).ps.lenient && !IsHeaderChar(data[i])
  }

  ghost predicate NoSkip(r0: Run, data: seq<char>, n: nat) { forall i | 0 <= i < n :: !SkipsAt(r0, data, i) }

  /**
   When the byte machine takes a byte that no header value may hold: as the first byte of the value, unless the value is
   a content length, and nowhere else.
   */
  lemma BadByteTaken(ps: Parser, ch: char)
    requires Inv(ps) && ps.errno.OK? && !ps.lenient && !IsHeaderChar(ch)
    requires ps.state.HeaderValueDiscardWs? || ps.state.HeaderValueStart? || ps.state.HeaderValue?
    ensures var o := Step(ps, ch);
            if ps.state.HeaderValue? then o == StepOut(ps.(errno := InvalidHeaderToken), [], Failed)
            else if ps.headerState.ContentLength? then o.stop.Failed? && o.ps.errno.InvalidContentLength?
            else o.stop.Go? && o.evs == [Data(Value, [ch])] && o.ps.state.HeaderValue?
  {
    if ps.state.HeaderValue? {
      ValueState(ps, ch);
      hide Step;
    } else {
      PlainIsSpelled(ps, ch);
      hide Step;
      assert PlainStep(ps, ch) == ValueStartStep(ps, ch);
      hide PlainStep;
      assert [Mark(Value)][1..] == [];
    }
  }

  lemma ValueJoins(r0: Run, data: seq<char>, p: nat, q: Parser, calls: seq<Event>, m: MarkAt)
    requires InStep(r0, data, p, q, calls, m) && p < |data| && m.At? && m.kind == Value && q.state == HeaderValue
    requires data[p] != CR && data[p] != LF && (q.lenient || IsHeaderChar(data[p]))
    ensures var o := ValueByte(q, data[p]);
            if o.stop.Go? then InStep(r0, data, p + 1, o.ps, calls, m) && o.ps.state == HeaderValue
            else !o.stop.Exited? && Feed(r0, data, p + 1) == Run(o.ps, Pending(Merged(calls), m, data, p), o.stop, p)
  {
    hide Step;
    ValueState(q, data[p]);
    var o := ValueByte(q, data[p]);
    ValueByteKeeps(q, data[p]);
    hide ValueByte, InStep;
    if o.stop.Go? {
      ByteJoins(r0, data, p, q, calls, m, o.ps);
    } else {
      ByteFails(r0, data, p, q, calls, m, StepOut(o.ps, [], o.stop));
    }
  }

  lemma ValueByteKeeps(q: Parser, ch: char)
    ensures var o := ValueByte(q, ch);
            !o.stop.Exited? && o.ps.state == q.state && o.ps.lenient == q.lenient
            && (q.errno.OK? ==> !o.ps.errno.InvalidHeaderToken?)
            && (q.errno.OK? ==> (o.stop.Failed? <==> !o.ps.errno.OK?))
  {
  }

  /** The memchr jump from `p`: every byte up to `e` is part of the value unless the jump hid a bad one. */
  lemma {:induction false} GeneralJump(r0: Run, data: seq<char>, p: nat, q: Parser, calls: seq<Event>, m: MarkAt,
                                       e: nat)
    requires InStep(r0, data, p, q, calls, m) && p < e <= |data| && m.At? && m.kind == Value
    requires q.state == HeaderValue && q.headerState == General && (q.lenient || IsHeaderChar(data[p]))
    requires forall i | p <= i < e :: data[i] != CR && data[i] != LF
    requires NoSkip(r0, data, e)
    ensures InStep(r0, data, e, q, calls, m)
    decreases e
  {
    hide Step, Pending;
    if e > p + 1 {
      GeneralJump(r0, data, p, q, calls, m, e - 1);
      if e - 1 > p + 1 {
        GeneralJump(r0, data, p, q, calls, m, e - 2);
      }
      assert !SkipsAt(r0, data, e - 1);
      ValueJoins(r0, data, e - 1, q, calls, m);
    } else {
      ValueJoins(r0, data, p, q, calls, m);
    }
  }

  lemma {:induction false} GeneralTally(r0: Run, data: seq<char>, p: nat, q: Parser, calls: seq<Event>, m: MarkAt,
                                        e: nat, t0: nat)
    requires InStep(r0, data, p, q, calls, m) && p < e <= |data| && m.At? && m.kind == Value
    requires q.state == HeaderValue && q.headerState == General && (q.lenient || IsHeaderChar(data[p]))
    requires forall i | p <= i < e :: data[i] != CR && data[i] != LF
    requires NoSkip(r0, data, e)
    ensures Tally(r0, data, e, t0) == Tally(r0, data, p, t0) + (e - p)
    decreases e
  {
    hide Step, Feed, Pending, InStep, Tally;
    if e > p + 1 {
      GeneralTally(r0, data, p, q, calls, m, e - 1, t0);
      GeneralJump(r0, data, p, q, calls, m, e - 1);
      TallyScan(r0, data, e - 1, q, calls, m, t0);
    } else {
      TallyScan(r0, data, p, q, calls, m, t0);
    }
  }

  datatype Found = Nowhere | FoundAt(pos: nat)

  /** memchr: the first `c` among the `limit` bytes from `from`. */
  method MemChr(data: seq<char>, from: nat, limit: nat, c: char) returns (r: Found)
    requires from + limit <= |data|
    ensures r.FoundAt? ==> from <= r.pos < from + limit && data[r.pos] == c && c !in data[from..r.pos]
    ensures r.Nowhere? ==> c !in data[from..from + limit]
  {
    var i := from;
    while i < from + limit
      invariant from <= i <= from + limit
      invariant c !in data[from..i]
    {
      if data[i] == c { return FoundAt(i); }
      i := i + 1;
    }
    return Nowhere;
  }

  /** Where the memchr jump from `p` lands; `leapt` when it ran past its search limit. */
  method JumpTarget(data: seq<char>, p: nat) returns (to: nat, leapt: bool)
    requires p < |data| && data[p] != CR && data[p] != LF
    ensures p < to <= |data|
    ensures leapt ==> to == |data| && |data| - p > HTTP_MAX_HEADER_SIZE
                      && forall i | p <= i < p + HTTP_MAX_HEADER_SIZE :: data[i] != CR && data[i] != LF
    ensures !leapt ==> (forall i | p <= i < to :: data[i] != CR && data[i] != LF)
                       && (to < |data| ==> data[to] == CR || data[to] == LF)
  {
    var limit := if |data| - p < HTTP_MAX_HEADER_SIZE then |data| - p else HTTP_MAX_HEADER_SIZE;
    var cr := MemChr(data, p, limit, CR);
    var lf := MemChr(data, p, limit, LF);
    to := if cr.FoundAt? then (if lf.FoundAt? && cr.pos >= lf.pos then lf.pos else cr.pos)
          else if lf.FoundAt? then lf.pos
          else |data|;
    leapt := cr.Nowhere? && lf.Nowhere? && limit < |data| - p;
    if leapt {
      forall i | p <= i < p + limit ensures data[i] in data[p..p + limit] {
        assert data[i] == data[p..p + limit][i - p];
      }
    } else {
      assert data[p..to] <= data[p..p + limit];
      assert CR !in data[p..to] && LF !in data[p..to];
      forall i | p <= i < to ensures data[i] in data[p..to] { assert data[i] == data[p..to][i - p]; }
    }
  }

  lemma LineEndNotSkipped(r0: Run, data: seq<char>, i: nat)
    requires i < |data| ==> data[i] == CR || data[i] == LF
    ensures !SkipsAt(r0, data, i)
  {
    hide Feed;
  }

  lemma NotGeneralBefore(r0: Run, data: seq<char>, p: nat, q: Parser, calls: seq<Event>, m: MarkAt)
    requires InStep(r0, data, p, q, calls, m) && !(q.state.HeaderValue? && q.headerState == General)
    ensures !SkipsAt(r0, data, p + 1) && !SkipsAt(r0, data, p)
  {
    hide Step, Pending, Merged;
  }

  /** No comparison is made between offsets `lo` and `hi`, and the inner loop goes on at `hi`. */
  ghost predicate Unchecked(r0: Run, data: seq<char>, lo: nat, hi: nat) {
    (lo < hi ==> Inner(r0, data, hi)) && forall k: nat | lo < k < hi :: !Checked(r0, data, k)
  }

  lemma UncheckedNone(r0: Run, data: seq<char>, p: nat)
    ensures Unchecked(r0, data, p, p)
  {
  }

  /** One more byte of a name or value. */
  lemma UncheckedOn(r0: Run, data: seq<char>, lo: nat, p: nat, q: Parser, calls: seq<Event>, m: MarkAt, q': Parser,
                    m': MarkAt)
    requires Unchecked(r0, data, lo, p) && lo <= p < |data| && InText(q.state) && q'.state == q.state
    requires InStep(r0, data, p, q, calls, m) && InStep(r0, data, p + 1, q', calls, m') && !EndsText(q.state, data[p])
    ensures Unchecked(r0, data, lo, p + 1)
  {
    hide Step, Feed, Pending, Merged, EndsText;
  }

  /** At a byte that a scan rejects no comparison is made, unless the scan began there. */
  lemma UncheckedHere(r0: Run, data: seq<char>, lo: nat, p: nat, q: Parser, calls: seq<Event>, m: MarkAt)
    requires Unchecked(r0, data, lo, p) && InStep(r0, data, p, q, calls, m) && p < |data| && q.state.HeaderValue?
    requires data[p] != CR && data[p] != LF
    ensures lo < p ==> !Checked(r0, data, p)
  {
    hide Step, Feed, Pending, Merged, Token;
  }

  /** A jump inside a value. */
  lemma {:induction false} UncheckedJump(r0: Run, data: seq<char>, lo: nat, p: nat, q: Parser, calls: seq<Event>,
                                         m: MarkAt, e: nat)
    requires Unchecked(r0, data, lo, p) && lo <= p
    requires InStep(r0, data, p, q, calls, m) && p < e <= |data| && m.At? && m.kind == Value
    requires q.state == HeaderValue && q.headerState == General && (q.lenient || IsHeaderChar(data[p]))
    requires forall i | p <= i < e :: data[i] != CR && data[i] != LF
    requires NoSkip(r0, data, e)
    ensures Unchecked(r0, data, lo, e)
    decreases e
  {
    hide Step, Feed, Pending, InStep, Unchecked;
    if e > p + 1 {
      UncheckedJump(r0, data, lo, p, q, calls, m, e - 1);
      GeneralJump(r0, data, p, q, calls, m, e - 1);
    }
    GeneralJump(r0, data, p, q, calls, m, e);
    UncheckedOn(r0, data, lo, e - 1, q, calls, m, q, m);
  }

  /** Where a line of a value ends. */
  lemma {:induction false} LineEnd(data: seq<char>, p: nat, from: nat) returns (e: nat)
    requires p <= from <= |data| && forall i | p <= i < from :: data[i] != CR && data[i] != LF
    ensures from <= e <= |data| && (forall i | p <= i < e :: data[i] != CR && data[i] != LF)
    ensures e < |data| ==> data[e] == CR || data[e] == LF
    decreases |data| - from
  {
    if from == |data| || data[from] == CR || data[from] == LF { e := from; } else { e := LineEnd(data, p, from + 1); }
  }

  /** The jump that runs past its search limit passes a comparison that stops the call. */
  lemma LeapTrips(r0: Run, data: seq<char>, p: nat, q: Parser, calls: seq<Event>, m: MarkAt, t0: nat) returns (e: nat)
    requires InStep(r0, data, p, q, calls, m) && p + HTTP_MAX_HEADER_SIZE <= |data| && m.At? && m.kind == Value
    requires q.state == HeaderValue && q.headerState == General && (q.lenient || IsHeaderChar(data[p]))
    requires forall i | p <= i < p + HTTP_MAX_HEADER_SIZE :: data[i] != CR && data[i] != LF
    requires NoSkip(r0, data, |data|)
    ensures Trips(r0, data, t0, e)
  {
    hide Step, Feed, Pending, InStep, Tally;
    e := LineEnd(data, p, p + HTTP_MAX_HEADER_SIZE);
    GeneralTally(r0, data, p, q, calls, m, e, t0);
    GeneralJump(r0, data, p, q, calls, m, e);
    GeneralJump(r0, data, p, q, calls, m, e - 1);
    TripsAt(r0, data, e, q, calls, m, t0);
  }

  lemma TripsAt(r0: Run, data: seq<char>, e: nat, q: Parser, calls: seq<Event>, m: MarkAt, t0: nat)
    requires 0 < e <= |data| && InStep(r0, data, e - 1, q, calls, m) && InStep(r0, data, e, q, calls, m)
    requires q.state.HeaderValue? && (e < |data| ==> data[e] == CR || data[e] == LF)
    requires Tally(r0, data, e, t0) >= HTTP_MAX_HEADER_SIZE
    ensures Trips(r0, data, t0, e)
  {
    hide Step, Feed, Pending, Merged, Tally;
  }

  datatype ValueEnd = RanOut | AtCR | AtLF | BadByte | BadValue | Leapt

  /** A parser that died on a byte of a header value keeps the header state its call started with. */
  function Settled(q: Parser): Parser {
    if q.errno == InvalidHeaderToken && q.state == HeaderValue then q.(headerState := General) else q
  }

  /**
   The header state that the call starting at offset `lo` has stored at offset `n`: while it scans a header value it
   keeps the one it found when the scan began.
   */
  function EntryState(r0: Run, data: seq<char>, lo: nat, n: nat): HeaderState
    requires n <= |data|
  {
    if n <= lo || !Feed(r0, data, n - 1).ps.state.HeaderValue? then Feed(r0, data, n).ps.headerState
    else EntryState(r0, data, lo, n - 1)
  }

  /** A parser that has just rejected a byte of a header value. */
  predicate RejectsValue(q: Parser) { q.errno.InvalidHeaderToken? && q.state.HeaderValue? }

  /** The fields a call that started at `lo` leaves behind when the byte machine ends at offset `n` with fields `q`. */
  function Ended(r0: Run, data: seq<char>, lo: nat, q: Parser, n: nat): Parser
    requires n <= |data|
  {
    if RejectsValue(q) then q.(headerState := EntryState(r0, data, lo, n)) else q
  }

  lemma EntryHere(r0: Run, data: seq<char>, lo: nat, n: nat)
    requires n <= |data| && (n <= lo || !Feed(r0, data, n - 1).ps.state.HeaderValue?)
    ensures EntryState(r0, data, lo, n) == Feed(r0, data, n).ps.headerState
  {
  }

  lemma EntryScan(r0: Run, data: seq<char>, lo: nat, p: nat, q: Parser, calls: seq<Event>, m: MarkAt)
    requires InStep(r0, data, p, q, calls, m) && lo <= p < |data| && q.state.HeaderValue?
    ensures EntryState(r0, data, lo, p + 1) == EntryState(r0, data, lo, p)
  {
    hide Step, Feed, Pending;
  }

  lemma {:induction false} GeneralEntry(r0: Run, data: seq<char>, p: nat, q: Parser, calls: seq<Event>, m: MarkAt,
                                        e: nat)
    requires InStep(r0, data, p, q, calls, m) && p < e <= |data| && m.At? && m.kind == Value
    requires q.state == HeaderValue && q.headerState == General && (q.lenient || IsHeaderChar(data[p]))
    requires forall i | p <= i < e :: data[i] != CR && data[i] != LF
    requires NoSkip(r0, data, e)
    ensures EntryState(r0, data, 0, e) == EntryState(r0, data, 0, p)
    decreases e
  {
    hide Step, Feed, Pending, InStep, EntryState;
    if e > p + 1 {
      GeneralEntry(r0, data, p, q, calls, m, e - 1);
      GeneralJump(r0, data, p, q, calls, m, e - 1);
      EntryScan(r0, data, 0, e - 1, q, calls, m);
    } else {
      EntryScan(r0, data, 0, p, q, calls, m);
    }
  }

  /** What the loop over a header value has established at offset `p`. */
  ghost predicate Scanned(r0: Run, data: seq<char>, p0: nat, p: nat, q: Parser, calls: seq<Event>, m: MarkAt, t0: nat) {
    p0 <= p <= |data|
    && (NoSkip(r0, data, p) ==>
          InStep(r0, data, p, q, calls, m) && !SkipsAt(r0, data, p)
          && Tally(r0, data, p, t0) == Tally(r0, data, p0, t0) + (p - p0)
          && EntryState(r0, data, 0, p) == EntryState(r0, data, 0, p0) && Unchecked(r0, data, p0, p))
  }

  lemma ScannedNone(r0: Run, data: seq<char>, p: nat, q: Parser, calls: seq<Event>, m: MarkAt, t0: nat)
    requires p <= |data| && (NoSkip(r0, data, p) ==> InStep(r0, data, p, q, calls, m) && !SkipsAt(r0, data, p))
    ensures Scanned(r0, data, p, p, q, calls, m, t0)
  {
    hide InStep, SkipsAt, Tally, EntryState, NoSkip, Checked;
    UncheckedNone(r0, data, p);
  }

  /** A jump inside the value. */
  lemma ScannedJump(r0: Run, data: seq<char>, p0: nat, p: nat, q: Parser, calls: seq<Event>, m: MarkAt, t0: nat,
                    to: nat)
    requires Scanned(r0, data, p0, p, q, calls, m, t0) && p < to <= |data| && m.At? && m.kind == Value
    requires q.state == HeaderValue && q.headerState == General && (q.lenient || IsHeaderChar(data[p]))
    requires forall i | p <= i < to :: data[i] != CR && data[i] != LF
    requires to < |data| ==> data[to] == CR || data[to] == LF
    ensures Scanned(r0, data, p0, to, q, calls, m, t0)
  {
    hide InStep, SkipsAt, Tally, EntryState, Unchecked;
    if NoSkip(r0, data, to) {
      GeneralJump(r0, data, p, q, calls, m, to);
      GeneralTally(r0, data, p, q, calls, m, to, t0);
      GeneralEntry(r0, data, p, q, calls, m, to);
      UncheckedJump(r0, data, p0, p, q, calls, m, to);
      LineEndNotSkipped(r0, data, to);
    }
  }

  /** One byte of the value outside the jump. */
  lemma ScannedByte(r0: Run, data: seq<char>, p0: nat, p: nat, q: Parser, calls: seq<Event>, m: MarkAt, t0: nat)
    requires Scanned(r0, data, p0, p, q, calls, m, t0) && p < |data| && m.At? && m.kind == Value && Inv(q)
    requires q.state == HeaderValue && q.headerState != General && (q.lenient || IsHeaderChar(data[p]))
    requires data[p] != CR && data[p] != LF
    ensures var o := ValueByte(q, data[p]);
            if o.stop.Go? then Scanned(r0, data, p0, p + 1, o.ps, calls, m, t0)
            else !o.stop.Panicked?
                 && (NoSkip(r0, data, p) ==>
                       Feed(r0, data, p + 1) == Run(o.ps, Pending(Merged(calls), m, data, p), Failed, p)
                       && (p0 < p ==> !Checked(r0, data, p)))
  {
    hide Feed, InStep, SkipsAt, Tally, EntryState, Unchecked, Checked, ValueByte, Merged, Pending;
    ValueByteKeeps(q, data[p]);
    ValueKeeps(q, data[p]);
    hide Inv;
    if NoSkip(r0, data, p) {
      ValueJoins(r0, data, p, q, calls, m);
      TallyScan(r0, data, p, q, calls, m, t0);
      EntryScan(r0, data, 0, p, q, calls, m);
      NotGeneralBefore(r0, data, p, q, calls, m);
      UncheckedHere(r0, data, p0, p, q, calls, m);
      if ValueByte(q, data[p]).stop.Go? { UncheckedOn(r0, data, p0, p, q, calls, m, ValueByte(q, data[p]).ps, m); }
    }
  }

  /** A byte that no header value may hold. */
  lemma ScannedBad(r0: Run, data: seq<char>, p0: nat, p: nat, q: Parser, calls: seq<Event>, m: MarkAt, t0: nat)
    requires Scanned(r0, data, p0, p, q, calls, m, t0) && p < |data| && q.state == HeaderValue
    requires !q.lenient && !IsHeaderChar(data[p]) && data[p] != CR && data[p] != LF && NoSkip(r0, data, p)
    ensures Feed(r0, data, p + 1)
            == Run(q.(errno := InvalidHeaderToken), Pending(Merged(calls), m, data, p), Failed, p)
    ensures p0 < p ==> !Checked(r0, data, p)
  {
    hide Feed, InStep, SkipsAt, Tally, EntryState, Unchecked, Checked, Merged, Pending, Step;
    ValueState(q, data[p]);
    ByteFails(r0, data, p, q, calls, m, StepOut(q.(errno := InvalidHeaderToken), [], Failed));
    UncheckedHere(r0, data, p0, p, q, calls, m);
  }

  /** The loop of the header-value case, from offset `p0` to where it leaves. */
  method ScanValue(data: seq<char>, p0: nat, q0: Parser, ghost r0: Run, ghost calls: seq<Event>, ghost m: MarkAt,
                   ghost t0: nat)
    returns (q: Parser, p: nat, end: ValueEnd)
    requires p0 < |data| && q0.state == HeaderValue && q0.errno.OK? && Inv(q0) && m.At? && m.kind == Value
    requires m.pos <= p0
    requires NoSkip(r0, data, p0) ==> InStep(r0, data, p0, q0, calls, m) && !SkipsAt(r0, data, p0)
    ensures p0 <= p <= |data| && q.state == HeaderValue && (q.errno.OK? ==> Inv(q))
    ensures NoSkip(r0, data, p) ==> !SkipsAt(r0, data, p)
    ensures end.BadByte? || end.BadValue? <==> !q.errno.OK?
    ensures end.RanOut? || end.Leapt? <==> p == |data|
    ensures end.Leapt? ==> p - p0 > HTTP_MAX_HEADER_SIZE
    ensures NoSkip(r0, data, p) && !end.Leapt? ==> Tally(r0, data, p, t0) == Tally(r0, data, p0, t0) + (p - p0)
    ensures end.AtCR? ==> data[p] == CR
    ensures end.AtLF? ==> data[p] == LF
    ensures NoSkip(r0, data, p) && (end.AtCR? || end.AtLF? || end.RanOut?) ==> InStep(r0, data, p, q, calls, m)
    ensures NoSkip(r0, data, p) && end.BadByte? ==>
              var r := Feed(r0, data, p + 1);
              q.errno == InvalidHeaderToken && Settled(r.ps) == Settled(q)
              && r == Run(r.ps, Pending(Merged(calls), m, data, p), Failed, p)
    ensures NoSkip(r0, data, p) && end.BadValue? ==>
              Feed(r0, data, p + 1) == Run(q, Pending(Merged(calls), m, data, p), Failed, p)
    ensures RejectsValue(q) ==> q.headerState == q0.headerState
    ensures RejectsValue(q) && NoSkip(r0, data, p) ==> EntryState(r0, data, 0, p) == EntryState(r0, data, 0, p0)
    ensures !end.Leapt? && NoSkip(r0, data, p) ==> Unchecked(r0, data, p0, p)
    ensures (end.BadByte? || end.BadValue?) && NoSkip(r0, data, p) && p0 < p ==> !Checked(r0, data, p)
    ensures end.Leapt? && NoSkip(r0, data, |data|) ==> exists k: nat :: Trips(r0, data, t0, k)
  {
    hide Step, ValueByte, Pending, InStep, Feed, Tally, EntryState, Unchecked, Trips, Checked, Inv, Scanned;
    p := p0;
    q := q0;
    var h := q0.headerState;
    ScannedNone(r0, data, p, q, calls, m, t0);
    while p < |data|
      invariant p0 <= p <= |data| && q.state == HeaderValue && q.errno.OK? && q.headerState == q0.headerState
      invariant Inv(q.(headerState := h)) && Scanned(r0, data, p0, p, q.(headerState := h), calls, m, t0)
    {
      var ch := data[p];
      if ch == CR {
        ScannedMeans(r0, data, p0, p, q.(headerState := h), calls, m, t0);
        return q.(headerState := h), p, AtCR;
      }
      if ch == LF {
        ScannedMeans(r0, data, p0, p, q.(headerState := h), calls, m, t0);
        return q.(headerState := h), p, AtLF;
      }
      ghost var qh := q.(headerState := h);
      if !q.lenient && !IsHeaderChar(ch) {
        ScannedMeans(r0, data, p0, p, qh, calls, m, t0);
        if NoSkip(r0, data, p) { ScannedBad(r0, data, p0, p, qh, calls, m, t0); }
        return q.(errno := InvalidHeaderToken), p, BadByte;
      }
      if h == General {
        var to, leapt := JumpTarget(data, p);
        if leapt {
          if NoSkip(r0, data, |data|) {
            ScannedMeans(r0, data, p0, p, qh, calls, m, t0);
            var e := LeapTrips(r0, data, p, qh, calls, m, t0);
          }
          return q.(headerState := h), |data|, Leapt;
        }
        ScannedJump(r0, data, p0, p, qh, calls, m, t0, to);
        p := to;
      } else {
        var o := ValueByte(q.(headerState := h), ch);
        ValueByteKeeps(qh, ch);
        ValueKeeps(qh, ch);
        ScannedByte(r0, data, p0, p, qh, calls, m, t0);
        if o.stop.Failed? {
          ScannedMeans(r0, data, p0, p, qh, calls, m, t0);
          return o.ps, p, BadValue;
        }
        h := o.ps.headerState;
        q := o.ps.(headerState := q.headerState);
        p := p + 1;
      }
    }
    ScannedMeans(r0, data, p0, p, q.(headerState := h), calls, m, t0);
    return q.(headerState := h), p, RanOut;
  }

  lemma ScannedMeans(r0: Run, data: seq<char>, p0: nat, p: nat, q: Parser, calls: seq<Event>, m: MarkAt, t0: nat)
    requires Scanned(r0, data, p0, p, q, calls, m, t0)
    ensures p0 <= p <= |data|
    ensures NoSkip(r0, data, p) ==>
              InStep(r0, data, p, q, calls, m) && !SkipsAt(r0, data, p)
              && Tally(r0, data, p, t0) == Tally(r0, data, p0, t0) + (p - p0)
              && EntryState(r0, data, 0, p) == EntryState(r0, data, 0, p0) && Unchecked(r0, data, p0, p)
  {
  }
}
