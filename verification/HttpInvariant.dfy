/**
 What every reachable parser satisfies, and hence why no internal assertion of
 the parser fails and no keyword or method table is read out of bounds.
 */
module HttpInvariant {
  import opened HttpMachine

  /** Header states that can occur while a header name is read. */
  predicate NameState(h: HeaderState) {
    h.General? || h.HC? || h.HCO? || h.HCON? || h.MatchingConnection? || h.MatchingProxyConnection?
    || h.MatchingContentLength? || h.MatchingTransferEncoding? || h.MatchingUpgrade?
    || h.Connection? || h.ContentLength? || h.TransferEncoding? || h.Upgrade?
  }

  predicate InChunk(s: State) {
    s.ChunkSizeStart? || s.ChunkSize? || s.ChunkParameters? || s.ChunkSizeAlmostDone?
    || s.ChunkData? || s.ChunkDataAlmostDone? || s.ChunkDataDone?
  }

  predicate Inv(ps: Parser) {
    && (ps.state.HeaderField? ==> NameState(ps.headerState))
    && (ps.state.HeaderValue? ==> !ps.headerState.Connection? && !ps.headerState.TransferEncoding?)
    && (ps.state.ReqMethod? ==> ps.index <= |MethodString(ps.method_)|)
    && (InChunk(ps.state) ==> ps.flags.chunked)
    && (ps.state.ChunkSize? || ps.state.ChunkParameters? || ps.state.ChunkSizeAlmostDone? ==>
          ps.contentLength < ULLONG_MAX)
    && (ps.state.ChunkData? || ps.state.BodyIdentity? ==> 0 < ps.contentLength < ULLONG_MAX)
    && (ps.state.ChunkDataAlmostDone? ==> ps.contentLength == 0)
  }

  /** A state about which the invariant says nothing. */
  predicate Carefree(s: State) {
    !(s.HeaderField? || s.HeaderValue? || s.ReqMethod? || InChunk(s) || s.BodyIdentity?)
  }

  /** A byte that starts in the invariant trips no assertion and ends in the invariant. */
  predicate Keeps(o: Out) { !o.stop.Panicked? && (!o.stop.Failed? ==> Inv(o.ps)) }

  lemma CarefreeInv(q: Parser)
    requires Carefree(q.state)
    ensures Inv(q)
  {
  }

  lemma CarefreeKeeps(o: Out)
    requires !o.stop.Panicked? && Carefree(o.ps.state)
    ensures Keeps(o)
  {
  }

  lemma InitInv(t: ParserType)
    ensures Inv(InitParser(t))
  {
  }

  lemma EndKeeps(ps: Parser, ch: char)
    ensures Keeps(MessageDoneStep(ps))
    ensures Keeps(HeadersDoneStep(ps, ch))
  {
  }

  lemma HeadersKeep(ps: Parser, ch: char)
    ensures Keeps(HeadersAlmostDoneStep(ps, ch))
  {
    hide MessageDoneStep, HeadersDoneStep;
    forall q: Parser ensures Keeps(MessageDoneStep(q)) && Keeps(HeadersDoneStep(q, ch)) { EndKeeps(q, ch); }
  }

  lemma FieldStartKeeps(ps: Parser, ch: char)
    ensures Keeps(HeaderFieldStartStep(ps, ch))
  {
    hide HeadersAlmostDoneStep;
    HeadersKeep(ps.(state := HeadersAlmostDone), ch);
  }

  lemma ValueStartKeeps(ps: Parser, ch: char)
    ensures Keeps(ValueStartStep(ps, ch))
  {
  }

  lemma LineKeeps(ps: Parser, ch: char)
    requires Inv(ps)
    ensures ps.state.HeaderValueDiscardWs? ==> Keeps(DiscardWsStep(ps, ch))
    ensures Keeps(DiscardLwsStep(ps, ch))
    ensures Keeps(ValueLwsStep(ps, ch))
    ensures Keeps(HeaderAlmostDoneStep(ps, ch))
  {
    hide HeaderFieldStartStep, ValueStartStep;
    ValueStartKeeps(ps, ch);
    ValueStartKeeps(ps.(state := HeaderValueStart), ch);
    FieldStartKeeps(NoteFlag(ps).(state := HeaderFieldStart), ch);
  }

  lemma ReviseFits(m: Method, i: nat, ch: char)
    ensures Revise(m, i, ch).Guess? ==> i < |MethodString(Revise(m, i, ch).m)|
  {
    ReviseEarly(m, i, ch);
    if Revise(m, i, ch).Guess? { MethodLength(Revise(m, i, ch).m); }
    hide Revise, MethodString;
  }

  lemma ReviseEarly(m: Method, i: nat, ch: char)
    ensures var r := Revise(m, i, ch);
            r.Guess? ==> i < 3 || (i < 5 && (r.m.MKCALENDAR? || r.m.UNLINK? || r.m.PROPPATCH?))
  {
  }

  lemma MethodLength(m: Method)
    ensures |MethodString(m)| >= 3 && (m.MKCALENDAR? || m.UNLINK? || m.PROPPATCH? ==> |MethodString(m)| >= 5)
  {
  }

  lemma RequestKeeps(ps: Parser, ch: char)
    requires Inv(ps)
    ensures ps.state.ReqMethod? ==> Keeps(ReqMethodStep(ps, ch))
    ensures Keeps(StartReqStep(ps.(state := StartReq), ch))
  {
    ReviseFits(ps.method_, ps.index, ch);
    hide Revise;
  }

  lemma ChunkKeeps(ps: Parser, ch: char)
    requires Inv(ps) && InChunk(ps.state) && !ps.state.ChunkData?
    ensures Keeps(ChunkStep(ps, ch))
  {
    UnhexRange(ch);
    hide Unhex;
  }

  lemma UnhexRange(ch: char)
    ensures -1 <= Unhex(ch) < 16
  {
  }

  lemma ExpectKeeps(ps: Parser, ch: char, want: char, next: State, e: Errno)
    requires Carefree(ps.state) && Carefree(next)
    ensures Keeps(Expect(ps, ch, want, next, e))
  {
    hide Keeps, Carefree, Inv;
    var o := Expect(ps, ch, want, next, e);
    assert o.ps.state == next || o.ps.state == ps.state;
    CarefreeKeeps(o);
  }

  lemma StatusKeeps(ps: Parser, ch: char)
    requires ps.state.ResStatusCode? || ps.state.ResStatusStart? || ps.state.ResStatus?
    ensures Keeps(ResponseLineStep(ps, ch))
  {
    hide Keeps, Expect;
    CarefreeKeeps(ResponseLineStep(ps, ch));
  }

  lemma ResponseKeeps(ps: Parser, ch: char)
    requires ps.state.StartRes? || ps.state.ResH? || ps.state.ResHT? || ps.state.ResHTT? || ps.state.ResHTTP?
             || ps.state.ResHttpMajor? || ps.state.ResHttpDot? || ps.state.ResHttpMinor? || ps.state.ResHttpEnd?
             || ps.state.ResFirstStatusCode? || ps.state.ResStatusCode? || ps.state.ResStatusStart?
             || ps.state.ResStatus? || ps.state.ResLineAlmostDone?
    ensures Keeps(ResponseLineStep(ps, ch))
  {
    hide Keeps, Expect, ResStatusCodeStep, ResStatusStartStep, ResStatusStep, Digit;
    match ps.state
    case ResStatusCode | ResStatusStart | ResStatus => StatusKeeps(ps, ch);
    case ResH => ExpectKeeps(ps, ch, 'T', ResHT, Strict);
    case ResHT => ExpectKeeps(ps, ch, 'T', ResHTT, Strict);
    case ResHTT => ExpectKeeps(ps, ch, 'P', ResHTTP, Strict);
    case ResHTTP => ExpectKeeps(ps, ch, '/', ResHttpMajor, Strict);
    case ResHttpDot => ExpectKeeps(ps, ch, '.', ResHttpMinor, InvalidVersion);
    case ResHttpEnd => ExpectKeeps(ps, ch, ' ', ResFirstStatusCode, InvalidVersion);
    case ResLineAlmostDone => ExpectKeeps(ps, ch, LF, HeaderFieldStart, Strict);
    case _ => CarefreeKeeps(ResponseLineStep(ps, ch));
  }

  lemma UrlCharShape(s: State, ch: char)
    requires s.ReqSpacesBeforeUrl? || InUrl(s)
    ensures var s' := ParseUrlChar(s, ch); s'.Dead? || InUrl(s')
  {
  }

  lemma UrlByteKeeps(ps: Parser, from: State, acts: seq<Act>, ch: char)
    requires from.ReqSpacesBeforeUrl? || InUrl(from)
    ensures Keeps(UrlByte(ps, from, acts, ch))
  {
    hide Keeps, ParseUrlChar;
    UrlCharShape(from, ch);
    CarefreeKeeps(UrlByte(ps, from, acts, ch));
  }

  lemma UrlKeeps(ps: Parser, ch: char)
    requires ps.state.ReqSpacesBeforeUrl? || InUrl(ps.state)
    ensures Keeps(UrlStep(ps, ch))
  {
    hide Keeps, UrlByte;
    if ps.state.ReqSpacesBeforeUrl? {
      if ch == ' ' {
        CarefreeKeeps(UrlStep(ps, ch));
      } else {
        UrlByteKeeps(ps, if ps.method_ == CONNECT then ReqServerStart else ReqSpacesBeforeUrl, [Mark(Url)], ch);
      }
    } else if ch == ' ' || ch == CR || ch == LF {
      CarefreeKeeps(UrlStep(ps, ch));
    } else {
      UrlByteKeeps(ps, ps.state, [], ch);
    }
  }

  lemma VersionKeeps(ps: Parser, ch: char)
    requires ps.state.ReqHttpStart? || ps.state.ReqHttpH? || ps.state.ReqHttpHT? || ps.state.ReqHttpHTT?
             || ps.state.ReqHttpHTTP? || ps.state.ReqHttpMajor? || ps.state.ReqHttpDot? || ps.state.ReqHttpMinor?
             || ps.state.ReqHttpEnd? || ps.state.ReqLineAlmostDone?
    ensures Keeps(RequestLineStep(ps, ch))
  {
    hide Keeps, StartReqStep, ReqMethodStep;
    CarefreeKeeps(RequestLineStep(ps, ch));
  }

  lemma StartKeeps(ps: Parser, ch: char)
    requires Inv(ps) && (ps.state.Dead? || ps.state.StartReqOrRes? || ps.state.ResOrRespH?)
    ensures Keeps(StartStep(ps, ch))
  {
    hide StartReqStep;
    RequestKeeps(ps.(flags := NO_FLAGS, contentLength := ULLONG_MAX, kind := Request), ch);
  }

  /** Every plain byte keeps the invariant and trips no assertion. */
  lemma PlainKeeps(ps: Parser, ch: char)
    requires Inv(ps) && !Scanning(ps.state)
    ensures Keeps(PlainStep(ps, ch))
  {
    hide Keeps, StartStep, ResponseLineStep, RequestLineStep, UrlStep, HeaderFieldStartStep, DiscardWsStep,
         DiscardLwsStep, ValueStartStep, ValueLwsStep, HeaderAlmostDoneStep, HeadersAlmostDoneStep, HeadersDoneStep,
         MessageDoneStep, ChunkStep;
    match ps.state
    case Dead | StartReqOrRes | ResOrRespH => StartKeeps(ps, ch);
    case StartRes | ResH | ResHT | ResHTT | ResHTTP | ResHttpMajor | ResHttpDot | ResHttpMinor | ResHttpEnd
       | ResFirstStatusCode | ResStatusCode | ResStatusStart | ResStatus | ResLineAlmostDone => ResponseKeeps(ps, ch);
    case StartReq => RequestKeeps(ps, ch); MethodLine(ps, ch);
    case ReqMethod => RequestKeeps(ps, ch); MethodLine(ps, ch);
    case ReqHttpStart | ReqHttpH | ReqHttpHT | ReqHttpHTT | ReqHttpHTTP | ReqHttpMajor
       | ReqHttpDot | ReqHttpMinor | ReqHttpEnd | ReqLineAlmostDone => VersionKeeps(ps, ch);
    case ReqSpacesBeforeUrl | ReqSchema | ReqSchemaSlash | ReqSchemaSlashSlash | ReqServerStart | ReqServer
       | ReqServerWithAt | ReqPath | ReqQueryStringStart | ReqQueryString | ReqFragmentStart | ReqFragment =>
      UrlKeeps(ps, ch);
    case HeaderFieldStart => FieldStartKeeps(ps, ch);
    case HeaderValueDiscardWs => LineKeeps(ps, ch);
    case HeaderValueDiscardWsAlmostDone => CarefreeKeeps(PlainStep(ps, ch));
    case HeaderValueDiscardLws => LineKeeps(ps, ch);
    case HeaderValueStart => ValueStartKeeps(ps, ch);
    case HeaderValueLws => LineKeeps(ps, ch);
    case HeaderAlmostDone => LineKeeps(ps, ch);
    case HeadersAlmostDone => HeadersKeep(ps, ch);
    case HeadersDone => EndKeeps(ps, ch);
    case MessageDone => EndKeeps(ps, ch);
    case _ => ChunkKeeps(ps, ch);
  }

  lemma MethodLine(ps: Parser, ch: char)
    ensures ps.state.StartReq? ==> RequestLineStep(ps, ch) == StartReqStep(ps.(state := StartReq), ch)
    ensures ps.state.ReqMethod? ==> RequestLineStep(ps, ch) == ReqMethodStep(ps, ch)
  {
    assert ps.state.StartReq? ==> ps == ps.(state := StartReq);
  }

  /** Header names never leave their header states. */
  lemma FieldKeeps(ps: Parser, c: char, ch: char)
    requires Inv(ps) && ps.state.HeaderField?
    ensures var r := FieldByte(ps.headerState, ps.index, c, ch); r.Progress? && NameState(r.m.h)
  {
  }

  lemma MatchWordShape(word: string, i: nat, c: char, on: HeaderState, matched: HeaderState, missed: HeaderState)
    ensures var h := MatchWord(word, i, c, on, matched, missed).h; h == on || h == matched || h == missed
  {
  }

  /** Header values never fall back into the two states the source rules out. */
  lemma ValueKeeps(ps: Parser, ch: char)
    requires Inv(ps) && ps.state.HeaderValue?
    ensures Keeps(ValueByte(ps, ch))
  {
    hide MatchWord, Token, Lower, Digit;
    if ps.headerState.MatchingTransferEncodingChunked? || ps.headerState.MatchingConnectionKeepAlive?
       || ps.headerState.MatchingConnectionClose? || ps.headerState.MatchingConnectionUpgrade? {
      WordKeeps(ps, ch);
    }
  }

  lemma WordKeeps(ps: Parser, ch: char)
    requires ps.state.HeaderValue?
    requires ps.headerState.MatchingTransferEncodingChunked? || ps.headerState.MatchingConnectionKeepAlive?
             || ps.headerState.MatchingConnectionClose? || ps.headerState.MatchingConnectionUpgrade?
    ensures Keeps(ValueByte(ps, ch))
  {
    hide MatchWord, Token, Lower, Digit;
    var c, i, h := Lower(ch), ps.index, ps.headerState;
    MatchWordShape(CHUNKED, i, c, h, TransferEncodingChunked, General);
    MatchWordShape(KEEP_ALIVE, i, c, h, ConnectionKeepAlive, MatchingConnectionToken);
    MatchWordShape(CLOSE, i, c, h, ConnectionClose, MatchingConnectionToken);
    MatchWordShape(UPGRADE, i, c, h, ConnectionUpgrade, MatchingConnectionToken);
  }

  /** The three body states keep the invariant. */
  lemma BodyKeeps(ps: Parser, n: nat)
    requires Inv(ps) && (ps.state.BodyIdentity? || ps.state.ChunkData?) && n <= ps.contentLength
    ensures 0 < ps.contentLength < ULLONG_MAX && (ps.state.ChunkData? ==> ps.flags.chunked)
    ensures n < ps.contentLength ==> Inv(ps.(contentLength := ps.contentLength - n))
    ensures ps.state.ChunkData? ==>
              Inv(ps.(contentLength := ps.contentLength - n,
                      state := if n == ps.contentLength then ChunkDataAlmostDone else ChunkData))
    ensures Keeps(MessageDoneStep(ps.(contentLength := 0, state := MessageDone)))
  {
    EndKeeps(ps.(contentLength := 0, state := MessageDone), LF);
  }

  /** In the byte machine: no reachable byte trips an assertion. */
  lemma StepKeeps(ps: Parser, ch: char)
    requires Inv(ps)
    ensures var o := Step(ps, ch); !o.stop.Panicked? && (!o.stop.Failed? ==> Inv(o.ps))
  {
    hide PlainStep, ValueByte, FieldByte, MessageDoneStep;
    if !Scanning(ps.state) {
      PlainKeeps(ps, ch);
    } else if ps.state.HeaderField? {
      FieldKeeps(ps, Token(ch), ch);
    } else if ps.state.HeaderValue? {
      ValueKeeps(ps, ch);
    } else if !ps.state.BodyIdentityEof? {
      BodyKeeps(ps, 1);
    }
  }
}
