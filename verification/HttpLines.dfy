/**
 Header lines that announce nothing: any name but the five keywords of the parser, with any value.
 */
module HttpLines {
  import opened HttpMachine
  import opened HttpFeed
  import opened HttpExecute
  import opened HttpInvariant
  import opened HttpBody
  import opened HttpHeaders

  // ---------------------------------------------------------------- names that are no keyword

  /** What the parser makes of the first `n` bytes of a name. */
  function NameFold(name: seq<char>, n: nat): Matching
    requires 1 <= n <= |name|
  {
    var c := Token(name[n - 1]);
    if n == 1 then
      Matching(if c == 'c' then HC else if c == 'p' then MatchingProxyConnection
               else if c == 't' then MatchingTransferEncoding else if c == 'u' then MatchingUpgrade else General, 0)
    else
      var m := NameFold(name, n - 1);
      var r := FieldByte(m.h, m.index, c, name[n - 1]);
      if r.Progress? then r.m else m
  }

  predicate IsName(name: seq<char>) { name != [] && forall j | 0 <= j < |name| :: Token(name[j]) != '\0' }

  /** The first `n` bytes of the name are those of the word, in any letter case. */
  predicate Begins(word: seq<char>, name: seq<char>, n: nat) {
    n <= |word| && n <= |name| && forall j | 0 <= j < n :: Token(name[j]) == word[j]
  }

  /** The word in lower case, with the given number of bytes. */
  predicate Equals(word: seq<char>, name: seq<char>, n: nat) { n == |word| && Begins(word, name, n) }

  /** What a header state says about the `n` bytes of the name that led to it. */
  ghost predicate Tracks(name: seq<char>, n: nat, m: Matching) {
    match m.h
    case General => true
    case HC => n == 1 && m.index == 0 && Begins(CONNECTION, name, 1) && Begins(CONTENT_LENGTH, name, 1)
    case HCO => n == 2 && m.index == 1 && Begins(CONNECTION, name, 2) && Begins(CONTENT_LENGTH, name, 2)
    case HCON => n == 3 && m.index == 2 && Begins(CONNECTION, name, 3) && Begins(CONTENT_LENGTH, name, 3)
    case MatchingConnection => n == m.index + 1 < |CONNECTION| && Begins(CONNECTION, name, n)
    case MatchingProxyConnection => n == m.index + 1 < |PROXY_CONNECTION| && Begins(PROXY_CONNECTION, name, n)
    case MatchingContentLength => n == m.index + 1 < |CONTENT_LENGTH| && Begins(CONTENT_LENGTH, name, n)
    case MatchingTransferEncoding => n == m.index + 1 < |TRANSFER_ENCODING| && Begins(TRANSFER_ENCODING, name, n)
    case MatchingUpgrade => n == m.index + 1 < |UPGRADE| && Begins(UPGRADE, name, n)
    case Connection => Equals(CONNECTION, name, n) || Equals(PROXY_CONNECTION, name, n)
    case ContentLength => Equals(CONTENT_LENGTH, name, n)
    case TransferEncoding => Equals(TRANSFER_ENCODING, name, n)
    case Upgrade => Equals(UPGRADE, name, n)
    case _ => false
  }

  lemma BeginsOn(word: seq<char>, name: seq<char>, n: nat)
    requires Begins(word, name, n) && n < |name| && n < |word| && Token(name[n]) == word[n]
    ensures Begins(word, name, n + 1)
  {
  }

  /** One more byte of a word. */
  lemma WordTracks(word: string, name: seq<char>, n: nat, i: nat, on: HeaderState, matched: HeaderState)
    requires n == i + 1 < |word| && Begins(word, name, n) && n < |name| && Token(name[n]) != '\0'
    ensures var m := MatchWord(word, i, Token(name[n]), on, matched, General);
            || m.h.General?
            || (m == Matching(matched, n) && Equals(word, name, n + 1))
            || (m == Matching(on, n) && n + 1 < |word| && Begins(word, name, n + 1))
  {
    hide Token;
    if Token(name[n]) == word[n] { BeginsOn(word, name, n); }
  }

  lemma ByteTracks(name: seq<char>, n: nat, m: Matching)
    requires IsName(name) && 1 <= n < |name| && Tracks(name, n, m)
    ensures var r := FieldByte(m.h, m.index, Token(name[n]), name[n]); r.Progress? && Tracks(name, n + 1, r.m)
  {
    NameNoSpace(name, n);
    hide Token, MatchWord, Equals;
    match m.h
    case MatchingConnection => WordTracks(CONNECTION, name, n, m.index, m.h, Connection);
    case MatchingProxyConnection => WordTracks(PROXY_CONNECTION, name, n, m.index, m.h, Connection);
    case MatchingContentLength => WordTracks(CONTENT_LENGTH, name, n, m.index, m.h, ContentLength);
    case MatchingTransferEncoding => WordTracks(TRANSFER_ENCODING, name, n, m.index, m.h, TransferEncoding);
    case MatchingUpgrade => WordTracks(UPGRADE, name, n, m.index, m.h, Upgrade);
    case _ =>
  }

  lemma NameNoSpace(name: seq<char>, n: nat)
    requires IsName(name) && n < |name|
    ensures Token(name[n]) != '\0' && name[n] != ' ' && name[n] != '\t' && name[n] != ':' && IsHeaderChar(name[n])
  {
  }

  lemma {:induction false} NameTracks(name: seq<char>, n: nat)
    requires IsName(name) && 1 <= n <= |name|
    ensures Tracks(name, n, NameFold(name, n))
    ensures n < |name| ==>
              var m := NameFold(name, n);
              FieldByte(m.h, m.index, Token(name[n]), name[n]) == Progress(NameFold(name, n + 1))
    decreases n
  {
    hide Token, FieldByte, Tracks;
    if n > 1 {
      NameTracks(name, n - 1);
      ByteTracks(name, n - 1, NameFold(name, n - 1));
    } else {
      FirstTracks(name);
    }
    if n < |name| { ByteTracks(name, n, NameFold(name, n)); }
  }

  lemma FirstTracks(name: seq<char>)
    requires IsName(name)
    ensures Tracks(name, 1, NameFold(name, 1))
  {
    hide Token;
  }

  /** The name is one of the five words the parser knows, in any letter case. */
  predicate IsKeyword(name: seq<char>) {
    Equals(CONNECTION, name, |name|) || Equals(PROXY_CONNECTION, name, |name|) || Equals(CONTENT_LENGTH, name, |name|)
    || Equals(TRANSFER_ENCODING, name, |name|) || Equals(UPGRADE, name, |name|)
  }

  predicate Special(h: HeaderState) { h.Connection? || h.ContentLength? || h.TransferEncoding? || h.Upgrade? }

  /** A name that is no keyword is matched as none. */
  lemma OtherUnmatched(name: seq<char>)
    requires IsName(name) && !IsKeyword(name)
    ensures !Special(NameFold(name, |name|).h) && NameState(NameFold(name, |name|).h)
  {
    hide NameFold, IsKeyword, Tracks, Special;
    NameTracks(name, |name|);
    TracksKeyword(name, NameFold(name, |name|));
  }

  lemma TracksKeyword(name: seq<char>, m: Matching)
    requires Tracks(name, |name|, m)
    ensures NameState(m.h) && (Special(m.h) ==> IsKeyword(name))
  {
    hide Begins, Equals;
  }

  // ---------------------------------------------------------------- lines that announce nothing

  /** A value: not empty, not blank at its front, and without control characters. */
  predicate IsValue(v: seq<char>) {
    v != [] && v[0] != ' ' && v[0] != '\t' && forall j | 0 <= j < |v| :: IsHeaderChar(v[j]) && v[j] != CR && v[j] != LF
  }

  /** A header line that announces nothing. */
  predicate Other(h: Header) { IsName(h.name) && !IsKeyword(h.name) && IsValue(h.value) }

  /** The parser after `n` bytes of the name. */
  function InOther(q: Parser, name: seq<char>, n: nat): Parser
    requires 1 <= n <= |name|
  {
    Base(q).(state := HeaderField, headerState := NameFold(name, n).h, index := NameFold(name, n).index)
  }

  /** The parser inside the value, and behind the line: but for the header state nothing has changed. */
  function InValue(q: Parser): Parser { Base(q).(state := HeaderValue, headerState := General, index := 0) }

  function Passed(q: Parser): Parser { InValue(q).(state := HeaderValueLws) }

  lemma OtherFirst(q: Parser, name: seq<char>)
    requires AtLine(q.state) && IsName(name)
    ensures Step(q, name[0]) == StepOut(InOther(q, name, 1), [Data(Field, [name[0]])], Go)
  {
    NameNoSpace(name, 0);
    TokenText(name[0], Token(name[0]));
    LineStart(q, name[0]);
    hide Step, Base, Token;
    assert HeaderFieldStartStep(Base(q), name[0]) == Out(InOther(q, name, 1), [Mark(Field)], Go, false);
    assert [Mark(Field)][1..] == [];
  }

  lemma OtherNext(q: Parser, name: seq<char>, n: nat)
    requires IsName(name) && 1 <= n < |name|
    ensures Step(InOther(q, name, n), name[n]) == StepOut(InOther(q, name, n + 1), [Data(Field, [name[n]])], Go)
  {
    NameTracks(name, n);
    FieldState(InOther(q, name, n), name[n]);
    hide Step, Base, NameFold, Token, FieldByte;
  }

  lemma NameByteAt(h: Header, j: nat)
    requires j < |h.name|
    ensures j < |Line(h.name, h.value)| && Line(h.name, h.value)[j] == h.name[j]
  {
  }

  lemma {:induction false} OtherName(r: Run, h: Header, n: nat)
    requires r.stop.Go? && AtLine(r.ps.state) && IsName(h.name) && 1 <= n <= |h.name|
    ensures Reads(r, Line(h.name, h.value), n, InOther(r.ps, h.name, n))
  {
    hide Step, Reads, InOther, Line, Base, AtLine, IsName;
    if n == 1 {
      OtherNameFirst(r, h);
    } else {
      OtherName(r, h, n - 1);
      OtherNameNext(r, h, n - 1);
    }
  }

  lemma OtherNameFirst(r: Run, h: Header)
    requires r.stop.Go? && AtLine(r.ps.state) && IsName(h.name)
    ensures Reads(r, Line(h.name, h.value), 1, InOther(r.ps, h.name, 1))
  {
    hide Step, Reads, InOther, Line, Base, AtLine;
    NameByteAt(h, 0);
    OtherFirst(r.ps, h.name);
    ReadsNone(r, Line(h.name, h.value));
    ReadsOn(r, Line(h.name, h.value), 0, r.ps, InOther(r.ps, h.name, 1), [Data(Field, [h.name[0]])]);
  }

  lemma OtherNameNext(r: Run, h: Header, n: nat)
    requires IsName(h.name) && 1 <= n < |h.name| && Reads(r, Line(h.name, h.value), n, InOther(r.ps, h.name, n))
    ensures Reads(r, Line(h.name, h.value), n + 1, InOther(r.ps, h.name, n + 1))
  {
    hide Step, Reads, InOther, Line, Base, IsName;
    NameByteAt(h, n);
    OtherNext(r.ps, h.name, n);
    ReadsOn(r, Line(h.name, h.value), n, InOther(r.ps, h.name, n), InOther(r.ps, h.name, n + 1),
            [Data(Field, [h.name[n]])]);
  }

  /** The parser behind the colon. */
  function BehindOther(q: Parser, name: seq<char>): Parser
    requires name != []
  {
    InOther(q, name, |name|).(state := HeaderValueDiscardWs)
  }

  lemma OtherColon(q: Parser, name: seq<char>)
    requires name != []
    ensures Step(InOther(q, name, |name|), ':') == StepOut(BehindOther(q, name), [Data(Field, [])], Go)
    ensures Step(BehindOther(q, name), ' ') == StepOut(BehindOther(q, name), [], Go)
  {
    FieldState(InOther(q, name, |name|), ':');
    SpaceStep(BehindOther(q, name));
    hide Step, Base, NameFold;
  }

  lemma OtherValueFirst(q: Parser, h: Header)
    requires Other(h)
    ensures h.value != []
    ensures Step(BehindOther(q, h.name), h.value[0]) == StepOut(InValue(q), [Data(Value, [h.value[0]])], Go)
  {
    OtherUnmatched(h.name);
    hide Step, Base, NameFold, IsKeyword;
    ValueFirst(BehindOther(q, h.name), h.value[0], InValue(q));
  }

  lemma OtherValueNext(q: Parser, ch: char)
    requires IsHeaderChar(ch) && ch != CR && ch != LF
    ensures Step(InValue(q), ch) == StepOut(InValue(q), [Data(Value, [ch])], Go)
  {
    ValueState(InValue(q), ch);
    hide Step, Base;
  }

  lemma OtherBegins(r: Run, h: Header)
    requires r.stop.Go? && AtLine(r.ps.state) && Other(h)
    ensures Reads(r, Line(h.name, h.value), |h.name| + 3, InValue(r.ps))
  {
    var line, n := Line(h.name, h.value), |h.name|;
    LineParts(h.name, h.value);
    OtherValueFirst(r.ps, h);
    LineAt(h.name, h.value, 0);
    OtherName(r, h, n);
    OtherColon(r.ps, h.name);
    hide Step, Reads, InOther, BehindOther, InValue, Line, Other;
    ReadsOn(r, line, n, InOther(r.ps, h.name, n), BehindOther(r.ps, h.name), [Data(Field, [])]);
    ReadsOn(r, line, n + 1, BehindOther(r.ps, h.name), BehindOther(r.ps, h.name), []);
    ReadsOn(r, line, n + 2, BehindOther(r.ps, h.name), InValue(r.ps), [Data(Value, [h.value[0]])]);
  }

  lemma {:induction false} OtherValue(r: Run, h: Header, n: nat)
    requires r.stop.Go? && AtLine(r.ps.state) && Other(h) && 1 <= n <= |h.value|
    ensures Reads(r, Line(h.name, h.value), |h.name| + 2 + n, InValue(r.ps))
  {
    hide Step, Reads, InValue, Line, IsKeyword, IsName;
    if n == 1 {
      OtherBegins(r, h);
    } else {
      OtherValue(r, h, n - 1);
      LineAt(h.name, h.value, n - 1);
      OtherValueNext(r.ps, h.value[n - 1]);
      ReadsOn(r, Line(h.name, h.value), |h.name| + 1 + n, InValue(r.ps), InValue(r.ps),
              [Data(Value, [h.value[n - 1]])]);
    }
  }

  /** Such a line is read to its end and changes neither flags nor length. */
  lemma OtherLine(r: Run, h: Header)
    requires r.stop.Go? && AtLine(r.ps.state) && Other(h)
    ensures Reads(r, Line(h.name, h.value), |Line(h.name, h.value)|, Passed(r.ps))
  {
    var line, n := Line(h.name, h.value), |h.name| + 2 + |h.value|;
    hide Reads, Line, IsKeyword, IsName, Base, AtLine;
    LineParts(h.name, h.value);
    OtherValue(r, h, |h.value|);
    ValueLast(r, line, n, InValue(r.ps));
  }

  // ---------------------------------------------------------------- any number of them

  function Lines(hs: seq<Header>): seq<char> {
    if hs == [] then [] else Lines(hs[..|hs| - 1]) + Line(hs[|hs| - 1].name, hs[|hs| - 1].value)
  }

  predicate Others(hs: seq<Header>) { forall j | 0 <= j < |hs| :: Other(hs[j]) }

  /** The parser behind the lines. */
  function PassedAll(q: Parser, hs: seq<Header>): Parser { if hs == [] then q else Passed(q) }

  lemma PassedTwice(q: Parser)
    ensures Passed(Passed(q)) == Passed(q)
    ensures Base(Passed(q)) == Base(q).(headerState := General, index := 0, state := HeaderFieldStart)
  {
  }

  lemma ReadsJoin(r: Run, a: seq<char>, b: seq<char>, q: Parser, n: nat, q': Parser)
    requires Reads(r, a, |a|, q) && Reads(FeedAll(r, a), b, n, q')
    ensures FeedAll(r, a).stop.Go? && FeedAll(r, a).ps == q && Reads(r, a + b, |a| + n, q')
  {
    hide Step, BodyOf, Completions;
    FeedConcatN(r, a, b, n);
  }

  lemma {:induction false} OtherLines(r: Run, hs: seq<Header>)
    requires r.stop.Go? && AtLine(r.ps.state) && Others(hs)
    ensures Reads(r, Lines(hs), |Lines(hs)|, PassedAll(r.ps, hs)) && AtLine(PassedAll(r.ps, hs).state)
    decreases hs
  {
    hide Reads, Line, Other, Feed, FeedAll, Base;
    if hs == [] {
      ReadsNone(r, []);
    } else {
      var front, h := hs[..|hs| - 1], hs[|hs| - 1];
      OtherLines(r, front);
      ReadsState(r, Lines(front), PassedAll(r.ps, front));
      OtherLine(FeedAll(r, Lines(front)), h);
      PassedTwice(r.ps);
      ReadsJoin(r, Lines(front), Line(h.name, h.value), PassedAll(r.ps, front), |Line(h.name, h.value)|, Passed(r.ps));
    }
  }

  lemma ReadsState(r: Run, data: seq<char>, q: Parser)
    requires Reads(r, data, |data|, q)
    ensures FeedAll(r, data).stop.Go? && FeedAll(r, data).ps == q
  {
    hide Feed;
  }

  /** All bytes of such a line pass the character check. */
  lemma OtherChars(h: Header, i: nat)
    requires Other(h) && i < |Line(h.name, h.value)|
    ensures IsHeaderChar(Line(h.name, h.value)[i])
  {
    hide IsHeaderChar, IsKeyword;
    var n := |h.name|;
    ColonChars();
    if i < n { NameNoSpace(h.name, i); }
  }

  lemma ColonChars()
    ensures IsHeaderChar(':') && IsHeaderChar(' ') && IsHeaderChar(CR) && IsHeaderChar(LF)
  {
  }

  lemma {:induction false} LinesChars(hs: seq<Header>, i: nat)
    requires Others(hs) && i < |Lines(hs)|
    ensures IsHeaderChar(Lines(hs)[i])
    decreases hs
  {
    hide Other, Line, IsHeaderChar;
    var front, h := hs[..|hs| - 1], hs[|hs| - 1];
    if i < |Lines(front)| { LinesChars(front, i); } else { OtherChars(h, i - |Lines(front)|); }
  }
}
