/**
 The header lines that announce a body: "Content-Length: N" and "Transfer-Encoding: chunked", in any letter case.
 */
module HttpHeaders {
  import opened HttpMachine
  import opened HttpFeed
  import opened HttpExecute
  import opened HttpInvariant
  import opened HttpParser
  import opened HttpBody
  import opened HttpMessage

  // ---------------------------------------------------------------- runs that leave the body alone

  predicate Mute(evs: seq<Event>) { forall e | e in evs :: !(e.Data? && e.kind.Body?) && e != Notify(MessageComplete) }

  predicate SameBody(a: Log, b: Log) { BodyOf(a) == BodyOf(b) && Completions(a) == Completions(b) }

  lemma {:induction false} MuteAdds(log: Log, evs: seq<Event>)
    requires Mute(evs)
    ensures SameBody(log, AddAll(log, evs))
    decreases evs
  {
    if evs != [] {
      Adding(log, evs[0]);
      MuteAdds(Add(log, evs[0]), evs[1..]);
    }
  }

  /**
   After `n` bytes the machine runs on with fields `q` and has neither body bytes nor the end of a message to report.
   */
  ghost predicate Reads(r: Run, data: seq<char>, n: nat, q: Parser) {
    n <= |data| && Feed(r, data, n).stop.Go? && Feed(r, data, n).ps == q && SameBody(r.log, Feed(r, data, n).log)
  }

  lemma ReadsOn(r: Run, data: seq<char>, n: nat, q: Parser, q': Parser, evs: seq<Event>)
    requires Reads(r, data, n, q) && n < |data| && Step(q, data[n]) == StepOut(q', evs, Go) && Mute(evs)
    ensures Reads(r, data, n + 1, q')
  {
    hide Step, AddAll, BodyOf, Completions;
    MuteAdds(Feed(r, data, n).log, evs);
  }

  // ---------------------------------------------------------------- names

  datatype Keyword = Length | Encoding | Connect

  function Word(k: Keyword): seq<char> {
    match k case Length => CONTENT_LENGTH case Encoding => TRANSFER_ENCODING case Connect => CONNECTION
  }

  /** `text` is the keyword, in any letter case. */
  predicate Spelled(k: Keyword, text: seq<char>) {
    |text| == |Word(k)| && forall j | 0 <= j < |text| :: Token(text[j]) == Word(k)[j]
  }

  /** The header state once the name is complete. */
  function Matched(k: Keyword): HeaderState {
    match k case Length => ContentLength case Encoding => TransferEncoding case Connect => Connection
  }

  /** The header state after `n` bytes of the name. */
  function NameAt(k: Keyword, n: nat): HeaderState {
    if n >= |Word(k)| then Matched(k)
    else if k.Encoding? then MatchingTransferEncoding
    else if n <= 1 then HC
    else if n == 2 then HCO
    else if n == 3 then HCON
    else if k.Length? then MatchingContentLength
    else MatchingConnection
  }

  lemma MatchOne(word: string, i: nat, c: char, on: HeaderState, matched: HeaderState, missed: HeaderState)
    requires i + 1 < |word| && c == word[i + 1]
    ensures MatchWord(word, i, c, on, matched, missed) == Matching(if i + 2 == |word| then matched else on, i + 1)
  {
  }

  lemma NameByte(k: Keyword, n: nat, c: char, ch: char)
    requires 1 <= n < |Word(k)| && c == Word(k)[n]
    ensures FieldByte(NameAt(k, n), n - 1, c, ch) == Progress(Matching(NameAt(k, n + 1), n))
  {
    match k
    case Length => MatchOne(CONTENT_LENGTH, n - 1, c, MatchingContentLength, ContentLength, General);
    case Encoding => MatchOne(TRANSFER_ENCODING, n - 1, c, MatchingTransferEncoding, TransferEncoding, General);
    case Connect => MatchOne(CONNECTION, n - 1, c, MatchingConnection, Connection, General);
  }

  lemma NameShape(k: Keyword, n: nat)
    requires n < |Word(k)|
    ensures |Word(k)| > 4 && Word(k)[n] != '\0' && (Word(k)[0] == 'c' || Word(k)[0] == 't')
    ensures NameAt(k, 1) == (if Word(k)[0] == 'c' then HC else MatchingTransferEncoding)
  {
  }

  predicate AtLine(s: State) { s.HeaderFieldStart? || s.HeaderValueLws? }

  /** A parser at the start of a line, once the flag of the line before has been noted. */
  function Base(q: Parser): Parser { if q.state.HeaderValueLws? then NoteFlag(q).(state := HeaderFieldStart) else q }

  /** At the start of a line it does not matter whether a line went before, unless the line is continued. */
  lemma LineStart(q: Parser, ch: char)
    requires AtLine(q.state) && ch != ' ' && ch != '\t'
    ensures Step(q, ch) == Step(Base(q), ch) && Step(q, ch) == Spell(Closed, HeaderFieldStartStep(Base(q), ch), ch)
  {
    assert Base(q).state.HeaderFieldStart? by { hide Step; }
    hide HeaderFieldStartStep;
    if q.state.HeaderValueLws? { LwsStep(q, ch); }
    FieldStartStep(Base(q), ch);
    hide Step, NoteFlag, Base;
  }

  lemma LwsStep(q: Parser, ch: char)
    requires q.state.HeaderValueLws? && ch != ' ' && ch != '\t'
    ensures Step(q, ch) == Spell(Closed, HeaderFieldStartStep(Base(q), ch), ch)
  {
    hide HeaderFieldStartStep, ValueStartStep;
    assert PlainStep(q, ch) == ValueLwsStep(q, ch);
    assert Step(q, ch) == Spell(Closed, PlainStep(q, ch), ch);
  }

  lemma FieldStartStep(q: Parser, ch: char)
    requires q.state.HeaderFieldStart?
    ensures Step(q, ch) == Spell(Closed, HeaderFieldStartStep(q, ch), ch)
  {
    hide HeaderFieldStartStep;
    assert PlainStep(q, ch) == HeaderFieldStartStep(q, ch);
    assert Step(q, ch) == Spell(Closed, PlainStep(q, ch), ch);
  }

  /** The parser after `n` bytes of the name. */
  function Named(q: Parser, k: Keyword, n: nat): Parser
    requires n > 0
  {
    Base(q).(state := HeaderField, headerState := NameAt(k, n), index := n - 1)
  }

  lemma TokenText(ch: char, c: char)
    requires Token(ch) == c && c != '\0'
    ensures ch != ' ' && ch != '\t' && ch != CR && ch != LF && ch != ':' && IsHeaderChar(ch)
  {
  }

  lemma NameFirst(q: Parser, k: Keyword, ch: char)
    requires AtLine(q.state) && Token(ch) == Word(k)[0]
    ensures Step(q, ch) == StepOut(Named(q, k, 1), [Data(Field, [ch])], Go)
  {
    NameShape(k, 0);
    TokenText(ch, Word(k)[0]);
    LineStart(q, ch);
    hide Step, Base, NameAt, Token;
    assert HeaderFieldStartStep(Base(q), ch) == Out(Named(q, k, 1), [Mark(Field)], Go, false);
    assert [Mark(Field)][1..] == [];
  }

  lemma NameNext(q: Parser, k: Keyword, n: nat, ch: char)
    requires 1 <= n < |Word(k)| && Token(ch) == Word(k)[n]
    ensures Step(Named(q, k, n), ch) == StepOut(Named(q, k, n + 1), [Data(Field, [ch])], Go)
  {
    NameShape(k, n);
    NameByte(k, n, Token(ch), ch);
    FieldState(Named(q, k, n), ch);
    hide Step, Base, NameAt, Token, FieldByte;
  }

  /** The name of a line, from offset 0 on. */
  lemma {:induction false} NameRun(r: Run, line: seq<char>, k: Keyword, n: nat)
    requires r.stop.Go? && AtLine(r.ps.state) && 1 <= n <= |Word(k)| <= |line| && Spelled(k, line[..|Word(k)|])
    ensures Reads(r, line, n, Named(r.ps, k, n))
  {
    hide Step, Reads, Named, NameAt, Token;
    assert Token(line[..|Word(k)|][n - 1]) == Word(k)[n - 1];
    if n == 1 {
      NameFirst(r.ps, k, line[0]);
      assert Reads(r, line, 0, r.ps) by { ReadsNone(r, line); }
      ReadsOn(r, line, 0, r.ps, Named(r.ps, k, 1), [Data(Field, [line[0]])]);
    } else {
      NameRun(r, line, k, n - 1);
      NameNext(r.ps, k, n - 1, line[n - 1]);
      ReadsOn(r, line, n - 1, Named(r.ps, k, n - 1), Named(r.ps, k, n), [Data(Field, [line[n - 1]])]);
    }
  }

  lemma ReadsNone(r: Run, data: seq<char>)
    requires r.stop.Go?
    ensures Reads(r, data, 0, r.ps)
  {
  }

  /** The parser in front of the value: name, colon and a space have been read. */
  function Coloned(q: Parser, k: Keyword): Parser {
    Base(q).(state := HeaderValueDiscardWs, headerState := Matched(k), index := |Word(k)| - 1)
  }

  lemma ColonStep(q: Parser, k: Keyword)
    ensures |Word(k)| > 0 && Step(Named(q, k, |Word(k)|), ':') == StepOut(Coloned(q, k), [Data(Field, [])], Go)
  {
    NameShape(k, 0);
    FieldState(Named(q, k, |Word(k)|), ':');
    hide Step, Base;
  }

  lemma SpaceStep(q: Parser)
    requires q.state.HeaderValueDiscardWs?
    ensures Step(q, ' ') == StepOut(q, [], Go)
  {
    assert PlainStep(q, ' ') == DiscardWsStep(q, ' ');
    assert Step(q, ' ') == Spell(Closed, PlainStep(q, ' '), ' ');
  }

  const COLON: seq<char> := [':', ' ']

  /** A header line: name, colon, space, value and line end. */
  function Line(name: seq<char>, value: seq<char>): seq<char> { name + COLON + value + CRLF }

  lemma LineParts(name: seq<char>, value: seq<char>)
    ensures var line := Line(name, value);
            |line| == |name| + 2 + |value| + 2 && line[..|name|] == name && line[|name|] == ':'
            && line[|name| + 1] == ' '
            && line[|line| - 2] == CR && line[|line| - 1] == LF
  {
  }

  lemma LineAt(name: seq<char>, value: seq<char>, j: nat)
    requires j < |value|
    ensures |name| + 2 + j < |Line(name, value)| && Line(name, value)[|name| + 2 + j] == value[j]
  {
  }

  lemma ColonRun(r: Run, k: Keyword, name: seq<char>, value: seq<char>)
    requires r.stop.Go? && AtLine(r.ps.state) && Spelled(k, name)
    ensures |name| + 2 <= |Line(name, value)| && Reads(r, Line(name, value), |name| + 2, Coloned(r.ps, k))
  {
    var line, n := Line(name, value), |name|;
    LineParts(name, value);
    NameShape(k, 0);
    hide Step, Reads, Named, Coloned, Line;
    NameRun(r, line, k, n);
    ColonStep(r.ps, k);
    ReadsOn(r, line, n, Named(r.ps, k, n), Coloned(r.ps, k), [Data(Field, [])]);
    ColonState(r.ps, k);
    SpaceStep(Coloned(r.ps, k));
    ReadsOn(r, line, n + 1, Coloned(r.ps, k), Coloned(r.ps, k), []);
  }

  lemma ColonState(q: Parser, k: Keyword)
    ensures Coloned(q, k).state.HeaderValueDiscardWs?
  {
  }

  // ---------------------------------------------------------------- values

  lemma ValueFirst(q: Parser, ch: char, q': Parser)
    requires q.state.HeaderValueDiscardWs? && ch != ' ' && ch != '\t' && ch != CR && ch != LF
    requires ValueStartStep(q, ch) == Out(q', [Mark(Value)], Go, false)
    ensures Step(q, ch) == StepOut(q', [Data(Value, [ch])], Go)
  {
    hide ValueStartStep;
    assert PlainStep(q, ch) == DiscardWsStep(q, ch);
    assert Step(q, ch) == Spell(Closed, PlainStep(q, ch), ch);
    assert [Mark(Value)][1..] == [];
  }

  /** The value ends with its line. */
  lemma ValueLast(r: Run, line: seq<char>, n: nat, q: Parser)
    requires Reads(r, line, n, q) && q.state.HeaderValue? && n + 2 == |line| && line[n] == CR && line[n + 1] == LF
    ensures Reads(r, line, n + 2, q.(state := HeaderValueLws))
  {
    hide Step, Reads;
    ValueState(q, CR);
    ReadsOn(r, line, n, q, q.(state := HeaderAlmostDone), [Data(Value, [])]);
    AlmostDoneStep(q.(state := HeaderAlmostDone));
    ReadsOn(r, line, n + 1, q.(state := HeaderAlmostDone), q.(state := HeaderValueLws), []);
  }

  lemma AlmostDoneStep(q: Parser)
    requires q.state.HeaderAlmostDone?
    ensures Step(q, LF) == StepOut(q.(state := HeaderValueLws), [], Go)
  {
    assert PlainStep(q, LF) == HeaderAlmostDoneStep(q, LF);
    assert Step(q, LF) == Spell(Closed, PlainStep(q, LF), LF);
  }

  /** A length: a digit, then digits and spaces, within the limit. */
  predicate LengthValue(v: seq<char>) { v != [] && IsNum(v[0]) && LengthText(v) && DecFits(0, v, |v|) }

  lemma {:induction false} LengthBound(v: seq<char>, n: nat)
    requires LengthValue(v) && n <= |v|
    ensures 0 <= DecValue(0, v, n) < ULLONG_MAX
  {
    if n > 0 {
      LengthBound(v, n - 1);
      DigitRange(v[n - 1]);
      hide Digit, IsNum;
    }
  }

  /** The parser after `n` bytes of a length. */
  function Counting(q: Parser, v: seq<char>, n: nat): Parser
    requires LengthValue(v) && n <= |v|
  {
    LengthBound(v, n);
    var b := Base(q);
    b.(state := HeaderValue, headerState := ContentLength, index := 0,
       flags := b.flags.(contentLength := true), contentLength := DecValue(0, v, n))
  }

  lemma LengthFirst(q: Parser, v: seq<char>)
    requires LengthValue(v) && !Base(q).flags.contentLength
    ensures Step(Coloned(q, Length), v[0]) == StepOut(Counting(q, v, 1), [Data(Value, [v[0]])], Go)
  {
    DigitRange(v[0]);
    assert DecValue(0, v, 0) == 0 && DecValue(0, v, 1) == Digit(v[0]);
    ColonState(q, Length);
    hide Step, Base;
    ValueFirst(Coloned(q, Length), v[0], Counting(q, v, 1));
  }

  lemma LengthNext(q: Parser, v: seq<char>, n: nat)
    requires LengthValue(v) && 1 <= n < |v|
    ensures Step(Counting(q, v, n), v[n]) == StepOut(Counting(q, v, n + 1), [Data(Value, [v[n]])], Go)
  {
    hide Step, Base;
    LengthByte(Counting(q, v, n), v[n]);
  }

  lemma LengthBegins(r: Run, name: seq<char>, v: seq<char>)
    requires r.stop.Go? && AtLine(r.ps.state) && Spelled(Length, name) && LengthValue(v)
    requires !Base(r.ps).flags.contentLength
    ensures |name| + 3 <= |Line(name, v)| && Reads(r, Line(name, v), |name| + 3, Counting(r.ps, v, 1))
  {
    hide Step, Reads, Coloned, Counting, Line, Base;
    LineAt(name, v, 0);
    ColonRun(r, Length, name, v);
    LengthFirst(r.ps, v);
    ReadsOn(r, Line(name, v), |name| + 2, Coloned(r.ps, Length), Counting(r.ps, v, 1), [Data(Value, [v[0]])]);
  }

  lemma LengthGoesOn(r: Run, name: seq<char>, v: seq<char>, n: nat)
    requires LengthValue(v) && 1 <= n < |v| && Reads(r, Line(name, v), |name| + 2 + n, Counting(r.ps, v, n))
    ensures Reads(r, Line(name, v), |name| + 2 + n + 1, Counting(r.ps, v, n + 1))
  {
    hide Step, Reads, Counting, Line, LengthValue;
    LineAt(name, v, n);
    LengthNext(r.ps, v, n);
    ReadsOn(r, Line(name, v), |name| + 2 + n, Counting(r.ps, v, n), Counting(r.ps, v, n + 1), [Data(Value, [v[n]])]);
  }

  lemma {:induction false} LengthRun(r: Run, name: seq<char>, v: seq<char>, n: nat)
    requires r.stop.Go? && AtLine(r.ps.state) && Spelled(Length, name) && LengthValue(v)
    requires !Base(r.ps).flags.contentLength
    requires 1 <= n <= |v|
    ensures Reads(r, Line(name, v), |name| + 2 + n, Counting(r.ps, v, n))
  {
    hide Reads, Counting, Line, Base, LengthValue;
    if n == 1 {
      LengthBegins(r, name, v);
    } else {
      LengthRun(r, name, v, n - 1);
      LengthGoesOn(r, name, v, n - 1);
    }
  }

  /** "chunked", in any letter case. */
  predicate ChunkedValue(v: seq<char>) { |v| == |CHUNKED| && forall j | 0 <= j < |v| :: Lower(v[j]) == CHUNKED[j] }

  /** The parser after `n` bytes of "chunked". */
  function Chunking(q: Parser, n: nat): Parser
    requires n > 0
  {
    Base(q).(state := HeaderValue, index := n - 1,
             headerState := if n < |CHUNKED| then MatchingTransferEncodingChunked else TransferEncodingChunked)
  }

  lemma LowerLetter(ch: char)
    requires 'a' <= Lower(ch) <= 'z'
    ensures ch != ' ' && ch != '\t' && ch != CR && ch != LF && IsHeaderChar(ch)
  {
  }

  lemma ChunkedFirst(q: Parser, ch: char)
    requires Lower(ch) == CHUNKED[0]
    ensures Step(Coloned(q, Encoding), ch) == StepOut(Chunking(q, 1), [Data(Value, [ch])], Go)
  {
    LowerLetter(ch);
    ColonState(q, Encoding);
    hide Step, Base, Lower;
    ValueFirst(Coloned(q, Encoding), ch, Chunking(q, 1));
  }

  lemma ChunkedNext(q: Parser, n: nat, ch: char)
    requires 1 <= n < |CHUNKED| && Lower(ch) == CHUNKED[n]
    ensures Step(Chunking(q, n), ch) == StepOut(Chunking(q, n + 1), [Data(Value, [ch])], Go)
  {
    LowerLetter(ch);
    ValueState(Chunking(q, n), ch);
    hide Step, Base, Lower;
    MatchOne(CHUNKED, n - 1, CHUNKED[n], MatchingTransferEncodingChunked, TransferEncodingChunked, General);
  }

  lemma ChunkedBegins(r: Run, name: seq<char>, v: seq<char>)
    requires r.stop.Go? && AtLine(r.ps.state) && Spelled(Encoding, name) && ChunkedValue(v)
    ensures Reads(r, Line(name, v), |name| + 3, Chunking(r.ps, 1))
  {
    hide Step, Reads, Coloned, Chunking, Line, Base, Lower;
    LineAt(name, v, 0);
    ColonRun(r, Encoding, name, v);
    ChunkedFirst(r.ps, v[0]);
    ReadsOn(r, Line(name, v), |name| + 2, Coloned(r.ps, Encoding), Chunking(r.ps, 1), [Data(Value, [v[0]])]);
  }

  lemma ChunkedGoesOn(r: Run, name: seq<char>, v: seq<char>, n: nat)
    requires ChunkedValue(v) && 1 <= n < |v| && Reads(r, Line(name, v), |name| + 2 + n, Chunking(r.ps, n))
    ensures Reads(r, Line(name, v), |name| + 2 + n + 1, Chunking(r.ps, n + 1))
  {
    hide Step, Reads, Chunking, Line, Lower;
    LineAt(name, v, n);
    ChunkedNext(r.ps, n, v[n]);
    ReadsOn(r, Line(name, v), |name| + 2 + n, Chunking(r.ps, n), Chunking(r.ps, n + 1), [Data(Value, [v[n]])]);
  }

  lemma {:induction false} ChunkedRun(r: Run, name: seq<char>, v: seq<char>, n: nat)
    requires r.stop.Go? && AtLine(r.ps.state) && Spelled(Encoding, name) && ChunkedValue(v) && 1 <= n <= |v|
    ensures Reads(r, Line(name, v), |name| + 2 + n, Chunking(r.ps, n))
  {
    hide Reads, Chunking, Line, ChunkedValue;
    if n == 1 {
      ChunkedBegins(r, name, v);
    } else {
      ChunkedRun(r, name, v, n - 1);
      ChunkedGoesOn(r, name, v, n - 1);
    }
  }

  // ---------------------------------------------------------------- header lines that announce a body

  /** The one header line that announces a payload. */
  datatype Header = Header(name: seq<char>, value: seq<char>)

  predicate Announces(h: Header, p: Payload) {
    match p
    case Plain(body) =>
      Spelled(Length, h.name) && LengthValue(h.value) && body != [] && |body| == DecValue(0, h.value, |h.value|)
    case InChunks(blocks) => Spelled(Encoding, h.name) && ChunkedValue(h.value) && Blocks(blocks)
  }

  /** No line so far has announced a body. */
  predicate Unannounced(q: Parser) {
    var b := Base(q);
    && AtLine(q.state) && !b.flags.trailing && !b.flags.skipBody && !b.flags.contentLength && !b.flags.chunked
    && !(Upgrades(b) && b.method_ == CONNECT)
  }

  /** The parser behind the line, as the next line finds it. */
  function Told(q: Parser, h: Header, p: Payload): Parser
    requires Announces(h, p)
  {
    if p.Plain? then Counting(q, h.value, |h.value|).(state := HeaderValueLws)
    else Chunking(q, |h.value|).(state := HeaderValueLws)
  }

  lemma HeaderRun(r: Run, h: Header, p: Payload)
    requires r.stop.Go? && Unannounced(r.ps) && Announces(h, p)
    ensures Reads(r, Line(h.name, h.value), |Line(h.name, h.value)|, Told(r.ps, h, p))
  {
    hide Reads, Line, LengthValue, ChunkedValue, Base, Upgrades, Spelled;
    LineParts(h.name, h.value);
    assert h.value != [] by { ValueNonEmpty(h, p); }
    var line, n := Line(h.name, h.value), |h.name| + 2 + |h.value|;
    match p {
      case Plain(body) =>
        LengthRun(r, h.name, h.value, |h.value|);
        ValueLast(r, line, n, Counting(r.ps, h.value, |h.value|));
      case InChunks(blocks) =>
        ChunkedRun(r, h.name, h.value, |h.value|);
        ValueLast(r, line, n, Chunking(r.ps, |h.value|));
    }
  }

  lemma ValueNonEmpty(h: Header, p: Payload)
    requires Announces(h, p)
    ensures h.value != [] && (p.InChunks? ==> |h.value| == |CHUNKED|)
  {
  }

  /** The line has announced the payload. */
  lemma ToldAnnounced(q: Parser, h: Header, p: Payload)
    requires Unannounced(q) && Announces(h, p)
    ensures var t := Told(q, h, p);
            t.state.HeaderValueLws? && Announced(Base(t)) && Matches(Base(t), p) && t.errno == q.errno == Base(t).errno
  {
    if p.Plain? { LengthBound(h.value, |h.value|); } else { ValueNonEmpty(h, p); }
    assert Base(q).errno == q.errno;
    hide Base, LengthValue, ChunkedValue, Spelled, Blocks;
  }
}
