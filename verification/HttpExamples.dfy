/**
 Inputs a new parser receives on which cutting into calls shows: a byte that the memchr jump hides, a rejected
 header value whose header state depends on the cut, and a header name that is refused for its size only when it is cut.
 */
module HttpExamples {
  import opened HttpMachine
  import opened HttpFeed
  import opened HttpExecute
  import opened HttpCuts
  import opened HttpParser
  import opened HttpBody
  import opened HttpHeaders

  const BAD: char := 1 as char

  /** A new parser in front of a request. */
  function Start(): Run { Run(InitParser(Request), [], Go, 0) }

  /** The parser in the middle of the request line, and behind it. */
  function InMethod(i: nat): Parser {
    InitParser(Request).(contentLength := ULLONG_MAX, method_ := GET, index := i, state := ReqMethod)
  }

  function BehindLine(): Parser { InMethod(4).(state := HeaderFieldStart, httpMinor := 9) }

  const REQUEST_LINE: seq<char> := ['G', 'E', 'T', ' ', '/', LF]

  lemma FromPlain(q: Parser, ch: char)
    requires !Scanning(q.state)
    ensures Step(q, ch) == Spell(RegionOf(q.state), PlainStep(q, ch), ch)
  {
    hide PlainStep;
  }

  /** A byte outside names and values that adds one to the header size. */
  predicate OneMore(q: Parser, ch: char) {
    !Scanning(q.state) && ParsingHeader(q.state) && !PlainStep(q, ch).reset
  }

  lemma OneMoreRead(data: seq<char>, n: nat, q: Parser)
    requires Reads(Start(), data, n, q) && n < |data| && OneMore(q, data[n])
    ensures Tally(Start(), data, n + 1, 0) == Tally(Start(), data, n, 0) + 1
  {
    hide Feed, PlainStep, Start;
  }

  lemma FirstByte()
    ensures Step(InitParser(Request), 'G') == StepOut(InMethod(1), [Notify(MessageBegin)], Go)
    ensures OneMore(InitParser(Request), 'G')
  {
    FromPlain(InitParser(Request), 'G');
    assert PlainStep(InitParser(Request), 'G') == Out(InMethod(1), [Tell(MessageBegin)], Go, false);
    hide PlainStep, Step;
    assert [Tell(MessageBegin)][1..] == [];
  }

  lemma MethodByte(i: nat, ch: char)
    requires 1 <= i < 3 && ch == "GET"[i]
    ensures Step(InMethod(i), ch) == StepOut(InMethod(i + 1), [], Go) && OneMore(InMethod(i), ch)
  {
    FromPlain(InMethod(i), ch);
    assert PlainStep(InMethod(i), ch) == ReqMethodStep(InMethod(i), ch);
    hide PlainStep, Step;
  }

  lemma MethodEnd()
    ensures Step(InMethod(3), ' ') == StepOut(InMethod(4).(state := ReqSpacesBeforeUrl), [], Go)
    ensures OneMore(InMethod(3), ' ')
  {
    FromPlain(InMethod(3), ' ');
    assert PlainStep(InMethod(3), ' ') == ReqMethodStep(InMethod(3), ' ');
    hide PlainStep, Step;
  }

  lemma UrlPlain(q: Parser, ch: char)
    requires q.state.ReqSpacesBeforeUrl? || q.state.ReqPath?
    ensures Step(q, ch) == Spell(RegionOf(q.state), UrlStep(q, ch), ch) && PlainStep(q, ch) == UrlStep(q, ch)
  {
    FromPlain(q, ch);
    hide UrlStep, Step;
    assert PlainStep(q, ch) == UrlStep(q, ch);
  }

  lemma UrlByteBegins()
    ensures UrlStep(InMethod(4).(state := ReqSpacesBeforeUrl), '/')
            == Out(InMethod(4).(state := ReqPath), [Mark(Url)], Go, false)
  {
    var q := InMethod(4).(state := ReqSpacesBeforeUrl);
    assert UrlStep(q, '/') == UrlByte(q, ReqSpacesBeforeUrl, [Mark(Url)], '/');
    assert ParseUrlChar(ReqSpacesBeforeUrl, '/') == ReqPath;
    hide ParseUrlChar;
  }

  lemma UrlBegins()
    ensures Step(InMethod(4).(state := ReqSpacesBeforeUrl), '/')
            == StepOut(InMethod(4).(state := ReqPath), [Data(Url, ['/'])], Go)
    ensures OneMore(InMethod(4).(state := ReqSpacesBeforeUrl), '/')
  {
    var q := InMethod(4).(state := ReqSpacesBeforeUrl);
    hide PlainStep, Step;
    UrlPlain(q, '/');
    UrlByteBegins();
    hide UrlStep;
    assert [Mark(Url)][1..] == [];
  }

  lemma UrlEnds()
    ensures Step(InMethod(4).(state := ReqPath), LF) == StepOut(BehindLine(), [Data(Url, [])], Go)
    ensures OneMore(InMethod(4).(state := ReqPath), LF)
  {
    var q := InMethod(4).(state := ReqPath);
    hide PlainStep, Step;
    UrlPlain(q, LF);
    assert UrlStep(q, LF) == Out(BehindLine(), [Flush(Url)], Go, false);
    assert [Flush(Url)][1..] == [];
  }

  lemma MethodRead()
    ensures Reads(Start(), REQUEST_LINE, 3, InMethod(3)) && Tally(Start(), REQUEST_LINE, 3, 0) == 3
  {
    hide Step, Reads, InMethod, Tally, OneMore;
    FeedNothing(REQUEST_LINE);
    FirstByte();
    MethodByte(1, 'E');
    MethodByte(2, 'T');
    ReadsNone(Start(), REQUEST_LINE);
    ReadsOn(Start(), REQUEST_LINE, 0, InitParser(Request), InMethod(1), [Notify(MessageBegin)]);
    ReadsOn(Start(), REQUEST_LINE, 1, InMethod(1), InMethod(2), []);
    ReadsOn(Start(), REQUEST_LINE, 2, InMethod(2), InMethod(3), []);
    OneMoreRead(REQUEST_LINE, 0, InitParser(Request));
    OneMoreRead(REQUEST_LINE, 1, InMethod(1));
    OneMoreRead(REQUEST_LINE, 2, InMethod(2));
  }

  lemma FeedNothing(data: seq<char>)
    ensures Tally(Start(), data, 0, 0) == 0
  {
  }

  /** A new parser takes the request line "GET /" without a version. */
  lemma RequestRead()
    ensures Reads(Start(), REQUEST_LINE, 6, BehindLine()) && Tally(Start(), REQUEST_LINE, 6, 0) == 6
  {
    hide Step, Reads, InMethod, BehindLine, Start, Tally, OneMore;
    var d, q := REQUEST_LINE, InMethod(4);
    MethodRead();
    MethodEnd();
    UrlBegins();
    UrlEnds();
    ReadsOn(Start(), d, 3, InMethod(3), q.(state := ReqSpacesBeforeUrl), []);
    ReadsOn(Start(), d, 4, q.(state := ReqSpacesBeforeUrl), q.(state := ReqPath), [Data(Url, ['/'])]);
    ReadsOn(Start(), d, 5, q.(state := ReqPath), BehindLine(), [Data(Url, [])]);
    OneMoreRead(d, 3, InMethod(3));
    OneMoreRead(d, 4, q.(state := ReqSpacesBeforeUrl));
    OneMoreRead(d, 5, q.(state := ReqPath));
  }

  /** A name that is no keyword, its colon and the first byte of its value. */
  lemma OtherName(q: Parser)
    requires q.state.HeaderFieldStart?
    ensures Step(q, 'A')
            == StepOut(q.(state := HeaderField, headerState := General, index := 0), [Data(Field, ['A'])], Go)
  {
    FieldStartStep(q, 'A');
    hide Step;
    assert [Mark(Field)][1..] == [];
  }

  lemma OtherColon(q: Parser)
    requires q.state.HeaderField?
    ensures Step(q, ':') == StepOut(q.(state := HeaderValueDiscardWs), [Data(Field, [])], Go)
  {
    FieldState(q, ':');
    hide Step;
  }

  lemma OtherValue(q: Parser, ch: char)
    requires q.state.HeaderValueDiscardWs? && q.headerState.General? && ch == 'a'
    ensures Step(q, ch) == StepOut(q.(state := HeaderValue, index := 0), [Data(Value, [ch])], Go)
  {
    hide Step;
    ValueFirst(q, ch, q.(state := HeaderValue, index := 0));
  }

  lemma MoreValue(q: Parser, ch: char)
    requires q.state.HeaderValue? && q.headerState.General? && ch == 'b'
    ensures Step(q, ch) == StepOut(q, [Data(Value, [ch])], Go)
  {
    ValueState(q, ch);
    hide Step;
  }

  /** The header line "A:ab" with a bad byte behind it. */
  const HIDING: seq<char> := ['A', ':', 'a', 'b', BAD]

  function InGeneralValue(): Parser { BehindLine().(state := HeaderValue, headerState := General, index := 0) }

  lemma HidingRead(r: Run)
    requires r.stop.Go? && r.ps == BehindLine()
    ensures Reads(r, HIDING, 3, InGeneralValue()) && Reads(r, HIDING, 4, InGeneralValue())
  {
    hide Step, Reads;
    var d, q := HIDING, r.ps;
    var n := q.(state := HeaderField, headerState := General, index := 0);
    var c := n.(state := HeaderValueDiscardWs);
    OtherName(q);
    OtherColon(n);
    OtherValue(c, 'a');
    MoreValue(InGeneralValue(), 'b');
    ReadsNone(r, d);
    ReadsOn(r, d, 0, q, n, [Data(Field, ['A'])]);
    ReadsOn(r, d, 1, n, c, [Data(Field, [])]);
    ReadsOn(r, d, 2, c, InGeneralValue(), [Data(Value, ['a'])]);
    ReadsOn(r, d, 3, InGeneralValue(), InGeneralValue(), [Data(Value, ['b'])]);
  }

  lemma ReadsState(r: Run, data: seq<char>, n: nat, q: Parser)
    requires Reads(r, data, n, q)
    ensures n <= |data| && Feed(r, data, n).stop.Go? && Feed(r, data, n).ps == q
  {
    hide Feed;
  }

  /** A new parser receives a byte that the jump hides. */
  lemma Hidden()
    ensures SkipsAt(Start(), REQUEST_LINE + HIDING, 10)
  {
    hide Step, Reads, Feed, FeedAll;
    RequestRead();
    ReadsState(Start(), REQUEST_LINE, 6, BehindLine());
    FeedIsAll(Start(), REQUEST_LINE);
    HidingRead(FeedAll(Start(), REQUEST_LINE));
    ReadsState(FeedAll(Start(), REQUEST_LINE), HIDING, 3, InGeneralValue());
    ReadsState(FeedAll(Start(), REQUEST_LINE), HIDING, 4, InGeneralValue());
    FeedConcatN(Start(), REQUEST_LINE, HIDING, 3);
    FeedConcatN(Start(), REQUEST_LINE, HIDING, 4);
  }

  lemma FeedIsAll(r: Run, data: seq<char>)
    ensures FeedAll(r, data) == Feed(r, data, |data|)
  {
    hide Feed;
  }

  /** "GET /", "A:ab" and a bad byte: one call takes the bad byte, two calls cut in front of it do not. */
  method HiddenByteExample() returns (n1: nat, n2: nat)
    ensures n2 == 10 < n1
  {
    var x := new LiveParser(Request);
    var y := new LiveParser(Request);
    var a, b := REQUEST_LINE + HIDING[..4], [BAD];
    assert a + b == REQUEST_LINE + HIDING;
    Hidden();
    hide SkipsAt, Feed, FeedAll;
    assert x.Now() == Start() && y.Now() == Start() by { NothingCalled(); }
    var overflow;
    n1, n2, overflow := HiddenByteShows(x, y, a, b);
  }

  lemma NothingCalled()
    ensures Merged([]) == []
  {
  }

  // ---------------------------------------------------------------- the header state of a rejected value

  const CONNECT_NAME: seq<char> := "Connection"

  /** The header line "Connection:kx" with a bad byte behind it. */
  const SPLIT: seq<char> := CONNECT_NAME + [':', 'k', 'x', BAD]

  /** The parser inside the value. */
  function InConnection(h: HeaderState, index: nat): Parser {
    BehindLine().(state := HeaderValue, headerState := h, index := index)
  }

  lemma ConnectSpelled()
    ensures Spelled(Connect, CONNECT_NAME)
  {
    assert forall j | 0 <= j < 10 :: Token(CONNECT_NAME[j]) == CONNECTION[j];
  }

  lemma ConnectValue(q: Parser)
    requires q.state.HeaderValueDiscardWs? && q.headerState.Connection?
    ensures Step(q, 'k')
            == StepOut(q.(state := HeaderValue, headerState := MatchingConnectionKeepAlive, index := 0),
                       [Data(Value, ['k'])], Go)
  {
    assert Lower('k') == 'k';
    hide Step;
    ValueFirst(q, 'k', q.(state := HeaderValue, headerState := MatchingConnectionKeepAlive, index := 0));
  }

  lemma ConnectMiss(q: Parser)
    requires q.state.HeaderValue? && q.headerState.MatchingConnectionKeepAlive? && q.index == 0
    ensures Step(q, 'x') == StepOut(q.(headerState := MatchingConnectionToken, index := 1), [Data(Value, ['x'])], Go)
  {
    assert Lower('x') == 'x';
    ValueState(q, 'x');
    hide Step;
  }

  lemma BadByte(q: Parser)
    requires q.state.HeaderValue? && !q.lenient
    ensures Step(q, BAD) == StepOut(q.(errno := InvalidHeaderToken), [], Failed)
  {
    ValueState(q, BAD);
    hide Step;
  }

  lemma SplitBytes()
    ensures SPLIT[..10] == CONNECT_NAME && |SPLIT| == 14 && SPLIT[10] == ':' && SPLIT[11] == 'k' && SPLIT[12] == 'x'
    ensures SPLIT[13] == BAD
  {
  }

  lemma SplitName(r: Run)
    requires r.stop.Go? && r.ps == BehindLine()
    ensures |SPLIT| == 14 && Reads(r, SPLIT, 10, InConnection(Connection, 9).(state := HeaderField))
  {
    assert Named(r.ps, Connect, 10) == InConnection(Connection, 9).(state := HeaderField);
    hide Step, Reads, Named;
    SplitBytes();
    ConnectSpelled();
    NameRun(r, SPLIT, Connect, 10);
  }

  lemma SplitRead(r: Run)
    requires r.stop.Go? && r.ps == BehindLine()
    ensures |SPLIT| == 14 && Reads(r, SPLIT, 11, InConnection(Connection, 9).(state := HeaderValueDiscardWs))
    ensures Reads(r, SPLIT, 12, InConnection(MatchingConnectionKeepAlive, 0))
    ensures Reads(r, SPLIT, 13, InConnection(MatchingConnectionToken, 1))
  {
    hide Step, Reads;
    SplitBytes();
    SplitName(r);
    var n := InConnection(Connection, 9).(state := HeaderField);
    var c := n.(state := HeaderValueDiscardWs);
    var k := InConnection(MatchingConnectionKeepAlive, 0);
    OtherColon(n);
    ConnectValue(c);
    ConnectMiss(k);
    hide InConnection, BehindLine;
    ReadsOn(r, SPLIT, 10, n, c, [Data(Field, [])]);
    ReadsOn(r, SPLIT, 11, c, k, [Data(Value, ['k'])]);
    ReadsOn(r, SPLIT, 12, k, InConnection(MatchingConnectionToken, 1), [Data(Value, ['x'])]);
  }

  const WHOLE: seq<char> := REQUEST_LINE + SPLIT

  /** The fields of the byte machine over the whole text. */
  lemma WholeFields()
    ensures Feed(Start(), WHOLE, 17).ps.state.HeaderValueDiscardWs?
    ensures Feed(Start(), WHOLE, 18).ps == InConnection(MatchingConnectionKeepAlive, 0)
    ensures Feed(Start(), WHOLE, 19).ps == InConnection(MatchingConnectionToken, 1) && Feed(Start(), WHOLE, 19).stop.Go?
  {
    hide Step, Reads, Feed, FeedAll;
    RequestRead();
    ReadsState(Start(), REQUEST_LINE, 6, BehindLine());
    FeedIsAll(Start(), REQUEST_LINE);
    var r := FeedAll(Start(), REQUEST_LINE);
    SplitRead(r);
    ReadsState(r, SPLIT, 11, InConnection(Connection, 9).(state := HeaderValueDiscardWs));
    ReadsState(r, SPLIT, 12, InConnection(MatchingConnectionKeepAlive, 0));
    ReadsState(r, SPLIT, 13, InConnection(MatchingConnectionToken, 1));
    FeedConcatN(Start(), REQUEST_LINE, SPLIT, 11);
    FeedConcatN(Start(), REQUEST_LINE, SPLIT, 12);
    FeedConcatN(Start(), REQUEST_LINE, SPLIT, 13);
  }

  lemma FeedMore(r: Run, data: seq<char>, n: nat)
    requires n < |data|
    ensures Feed(r, data, n + 1) == StepRun(Feed(r, data, n), data[n])
  {
    hide Step;
  }

  /** The last byte of the text is rejected; one call has stored the state it entered the value with. */
  lemma WholeEnds()
    ensures |WHOLE| == 20 && NoSkip(Start(), WHOLE, 20)
    ensures var e := FeedAll(Start(), WHOLE);
            e.stop.Failed? && e.consumed == 19
            && e.ps == InConnection(MatchingConnectionToken, 1).(errno := InvalidHeaderToken)
    ensures EntryState(Start(), WHOLE, 0, 19) == MatchingConnectionKeepAlive
  {
    WholeFields();
    BadByte(InConnection(MatchingConnectionToken, 1));
    hide Step, Feed, FeedAll;
    FeedIsAll(Start(), WHOLE);
    FeedMore(Start(), WHOLE, 19);
    FeedCounts(Start(), WHOLE, 19);
    assert WHOLE[19] == BAD;
    forall i | 0 <= i < 20 ensures !SkipsAt(Start(), WHOLE, i) {
      if i < 19 { WholeChars(i); }
    }
  }

  lemma WholeChars(i: nat)
    requires i < 19
    ensures IsHeaderChar(WHOLE[i])
  {
  }

  /** The text up to the bad byte, and the call on that byte alone. */
  lemma FrontEnds()
    ensures var r := FeedAll(Start(), WHOLE[..19]);
            r.stop.Go? && r.ps == InConnection(MatchingConnectionToken, 1) && NoSkip(Start(), WHOLE[..19], 19)
    ensures forall r: Run :: r.ps == InConnection(MatchingConnectionToken, 1) && r.stop.Go? && r.consumed == 0 ==>
              var e := FeedAll(r, [BAD]);
              e.stop.Failed? && e.consumed == 0 && e.ps == r.ps.(errno := InvalidHeaderToken) && NoSkip(r, [BAD], 1)
              && EntryState(r, [BAD], 0, 0) == MatchingConnectionToken
  {
    WholeFields();
    BadByte(InConnection(MatchingConnectionToken, 1));
    assert WHOLE == WHOLE[..19] + [BAD];
    hide Step, Feed, FeedAll;
    FeedPrefix(Start(), WHOLE[..19], [BAD], 19);
    FeedIsAll(Start(), WHOLE[..19]);
    forall i | 0 <= i < 19 ensures !SkipsAt(Start(), WHOLE[..19], i) { WholeChars(i); }
    forall r: Run | r.ps == InConnection(MatchingConnectionToken, 1) && r.stop.Go? && r.consumed == 0
      ensures var e := FeedAll(r, [BAD]);
              e.stop.Failed? && e.consumed == 0 && e.ps == r.ps.(errno := InvalidHeaderToken) && NoSkip(r, [BAD], 1)
              && EntryState(r, [BAD], 0, 0) == MatchingConnectionToken
    {
      FeedIsAll(r, [BAD]);
      FeedMore(r, [BAD], 0);
      FeedNone(r, [BAD]);
    }
  }

  /** The text in one call. */
  method OneCall() returns (h: HeaderState)
    ensures h == MatchingConnectionKeepAlive
  {
    var x := new LiveParser(Request);
    hide Step, Feed, FeedAll, NoSkip, Merged, Tally, EntryState, Trips, Extra, Settled;
    NothingCalled();
    WholeEnds();
    assert x.Now() == Start();
    var n, stop, lost, overflow := x.Execute(WHOLE);
    return x.ps.headerState;
  }

  /** The text in two calls, cut in front of the bad byte. */
  method TwoCalls() returns (h: HeaderState)
    ensures h == MatchingConnectionToken
  {
    var y := new LiveParser(Request);
    hide Step, Feed, FeedAll, NoSkip, Merged, Tally, EntryState, Trips, Extra, Settled;
    NothingCalled();
    FrontEnds();
    assert y.Now() == Start();
    var n, stop, lost, overflow := y.Execute(WHOLE[..19]);
    n, stop, lost, overflow := y.Execute([BAD]);
    return y.ps.headerState;
  }

  /** "GET /", "Connection:kx" and a bad byte: rejected in one call and in two, with different header states. */
  method HeaderStateExample() returns (one: HeaderState, two: HeaderState)
    ensures one == MatchingConnectionKeepAlive && two == MatchingConnectionToken
  {
    one := OneCall();
    two := TwoCalls();
  }

  // ---------------------------------------------------------------- a header name that is just short enough

  /** "GET /" and a header name of `n` bytes. */
  function LongName(n: nat): seq<char> { REQUEST_LINE + seq(n, i => 'A') }

  /** The parser inside the name. */
  function InName(): Parser { BehindLine().(state := HeaderField, headerState := General, index := 0) }

  lemma NameBytes(n: nat, i: nat)
    requires i < n
    ensures |LongName(n)| == 6 + n && LongName(n)[6 + i] == 'A'
  {
  }

  lemma NameBegins()
    ensures Step(BehindLine(), 'A') == StepOut(InName(), [Data(Field, ['A'])], Go) && OneMore(BehindLine(), 'A')
  {
    OtherName(BehindLine());
    hide Step;
  }

  lemma NameGoesOn()
    ensures Step(InName(), 'A') == StepOut(InName(), [Data(Field, ['A'])], Go)
  {
    FieldState(InName(), 'A');
    hide Step;
    assert Token('A') == 'a';
  }

  /** Every byte of the name adds one to the header size. */
  lemma {:induction false} NameRead(n: nat, i: nat)
    requires i <= n
    ensures |LongName(n)| == 6 + n
    ensures var r := Feed(Start(), LongName(n), 6 + i); r.stop.Go? && r.ps == if i == 0 then BehindLine() else InName()
    ensures Tally(Start(), LongName(n), 6 + i, 0) == 6 + i
  {
    hide Step, Reads, BehindLine, Start;
    if i == 0 {
      RequestRead();
      ReadsState(Start(), REQUEST_LINE, 6, BehindLine());
      FeedPrefix(Start(), REQUEST_LINE, seq(n, j => 'A'), 6);
      TallyPrefix(Start(), REQUEST_LINE, seq(n, j => 'A'), 6, 0);
    } else {
      NameRead(n, i - 1);
      NameBytes(n, i - 1);
      NameBegins();
      NameGoesOn();
    }
  }

  lemma NameInner(n: nat, i: nat)
    requires 1 <= i <= n
    ensures |LongName(n)| == 6 + n && (Inner(Start(), LongName(n), 6 + i) <==> i >= 2)
  {
    hide Feed, LongName, Start;
    NameRead(n, i);
    NameRead(n, i - 1);
  }

  lemma NameTick(n: nat, i: nat, t: nat)
    requires i < n
    ensures |LongName(n)| == 6 + n
    ensures var r := Feed(Start(), LongName(n), 6 + i); r.stop.Go? && Tick(r.ps, LongName(n)[6 + i], t) == t + 1
  {
    hide Feed, LongName, Start, BehindLine, PlainStep;
    NameRead(n, i);
    NameBytes(n, i);
    NameBegins();
  }

  /** What is counted over the name when it is cut behind its byte `c`. */
  lemma {:induction false} NameCount(n: nat, c: nat, i: nat)
    requires 1 <= c < n && i <= n
    ensures |LongName(n)| == 6 + n
    ensures Count(Start(), LongName(n), {6 + c, 6 + n}, 6 + i, 0)
            == 6 + i + (if i >= c >= 2 then 1 else 0) + (if i == n then 1 else 0)
  {
    hide Feed, Start, LongName, Inner, Tick, Tally;
    NameRead(n, 0);
    if i == 0 {
      CountUncut(Start(), LongName(n), {6 + c, 6 + n}, 6, 0);
    } else {
      NameCount(n, c, i - 1);
      NameTick(n, i - 1, Count(Start(), LongName(n), {6 + c, 6 + n}, 5 + i, 0));
      NameInner(n, i);
    }
  }

  /** A name just short enough is taken in one call; cut in two it is refused unless cut behind its first byte. */
  lemma JustFits(c: nat)
    requires 1 <= c < HTTP_MAX_HEADER_SIZE - 7
    ensures var d := LongName(HTTP_MAX_HEADER_SIZE - 7);
            && (forall k: nat :: !Trips(Start(), d, 0, k)) && NoSkip(Start(), d, |d|)
            && (Refused(Start(), d, {6 + c, |d|}, 0) <==> c >= 2)
  {
    hide Feed, Start, LongName, Inner, Tally, Count, EndsText, IsHeaderChar, BehindLine, InName;
    var n := HTTP_MAX_HEADER_SIZE - 7;
    var d, cuts := LongName(n), {6 + c, 6 + n};
    NameRead(n, n);
    forall k: nat | k <= |d| ensures !Trips(Start(), d, 0, k) { TallyMax(Start(), d, k, 0); }
    forall k: nat | k < |d| ensures !SkipsAt(Start(), d, k) { NameChars(n, k); }
    NameCount(n, c, n);
    NameInner(n, n);
    if c >= 2 {
      NameStates();
      assert Overruns(Start(), d, cuts, 0, |d|);
    } else {
      forall k: nat | k <= |d| ensures !Overruns(Start(), d, cuts, 0, k) {
        if k >= 6 { NameCount(n, c, k - 6); } else { ShortCount(n, c, k); }
      }
    }
  }

  lemma NameStates()
    ensures InName().state.HeaderField?
  {
  }

  lemma NameChars(n: nat, i: nat)
    requires i < |LongName(n)|
    ensures IsHeaderChar(LongName(n)[i])
  {
    if i >= 6 { NameBytes(n, i - 6); } else { assert LongName(n)[i] == REQUEST_LINE[i]; }
  }

  lemma ShortCount(n: nat, c: nat, k: nat)
    requires k < 6 && 1 <= c < n
    ensures |LongName(n)| == 6 + n && Count(Start(), LongName(n), {6 + c, 6 + n}, k, 0) <= k
  {
    hide Feed, Start, Tally, Count;
    CountUncut(Start(), LongName(n), {6 + c, 6 + n}, k, 0);
    TallyMax(Start(), LongName(n), k, 0);
  }

  lemma TwoEnds(a: seq<char>, b: seq<char>)
    ensures Flatten([a, b]) == a + b && Ends([a, b]) == {|a|, |a + b|}
  {
    var pieces := [a, b];
    assert pieces[1..] == [b] && [b][1..] == [] && b + [] == b;
    CutNone(pieces);
    CutNext(pieces, 0);
    CutNext(pieces, 1);
    hide CutAt;
    assert forall n :: n in Ends(pieces) ==> n == CutAt(pieces, 1) || n == CutAt(pieces, 2);
  }

  /** The text and its two parts, cut behind byte `c` of the name. */
  lemma CutName(n: nat, c: nat)
    requires 1 <= c < n
    ensures |LongName(n)| == 6 + n
    ensures var (a, b) := (LongName(n)[..6 + c], LongName(n)[6 + c..]);
            Flatten([a, b]) == LongName(n) && Ends([a, b]) == {6 + c, 6 + n} && a != [] && b != []
  {
    var d := LongName(n);
    TwoEnds(d[..6 + c], d[6 + c..]);
    assert d[..6 + c] + d[6 + c..] == d;
  }

  /** The text in one call. */
  method NameInOne() returns (overflow: bool)
    ensures !overflow
  {
    var d := LongName(HTTP_MAX_HEADER_SIZE - 7);
    var x := new LiveParser(Request);
    JustFits(1);
    assert x.Now() == Start() by { NothingCalled(); }
    hide LongName, Feed, FeedAll, Merged, NoSkip, Trips, Start, Tally, EntryState, Settled, Refused, Inner;
    var n, stop, lost;
    n, stop, lost, overflow := x.Execute(d);
  }

  /** The text in two calls. */
  method NameInTwo(c: nat) returns (overflow: bool)
    requires 1 <= c < HTTP_MAX_HEADER_SIZE - 7
    ensures overflow <==> c >= 2
  {
    var d := LongName(HTTP_MAX_HEADER_SIZE - 7);
    var y := new LiveParser(Request);
    JustFits(c);
    CutName(HTTP_MAX_HEADER_SIZE - 7, c);
    assert y.Now() == Start() by { NothingCalled(); }
    hide LongName, Feed, FeedAll, Merged, NoSkip, Refused, Trips, Ends, Flatten, Start, Tally, EntryState, Settled,
         Inner;
    var n, stop, lost;
    ghost var last;
    n, stop, lost, overflow, last := ExecutePieces(y, [d[..6 + c], d[6 + c..]]);
  }

  /** "GET /" and a long header name: taken in one call, and refused in two unless the cut is behind its first byte. */
  method LongNameExample(c: nat) returns (one: bool, two: bool)
    requires 1 <= c < HTTP_MAX_HEADER_SIZE - 7
    ensures !one && (two <==> c >= 2)
  {
    one := NameInOne();
    two := NameInTwo(c);
  }
}
