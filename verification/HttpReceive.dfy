/**
 A message from its header lines on: lines that announce nothing around the one that announces the body, the blank
 line and the body, however they are cut into calls.
 */
module HttpReceive {
  import opened HttpMachine
  import opened HttpFeed
  import opened HttpExecute
  import opened HttpInvariant
  import opened HttpCuts
  import opened HttpParser
  import opened HttpBody
  import opened HttpMessage
  import opened HttpHeaders
  import opened HttpLines
  import HttpCall

  // ---------------------------------------------------------------- blank line and payload behind a header line

  /** The run with the flag of the last line noted. */
  function Noted(r: Run): Run { r.(ps := Base(r.ps)) }

  lemma {:induction false} NotedRun(r: Run, data: seq<char>, n: nat)
    requires r.stop.Go? && AtLine(r.ps.state) && 1 <= n <= |data| && data[0] != ' ' && data[0] != '\t'
    ensures Feed(r, data, n) == Feed(Noted(r), data, n)
  {
    hide Step, Base;
    if n == 1 {
      LineStart(r.ps, data[0]);
      assert Feed(r, data, 0) == r && Feed(Noted(r), data, 0) == Noted(r);
    } else {
      NotedRun(r, data, n - 1);
    }
  }

  lemma NotedTick(q: Parser, t: nat)
    requires AtLine(q.state)
    ensures Tick(q, CR, t) == Tick(Base(q), CR, t)
  {
    if q.state.HeaderValueLws? {
      assert PlainStep(q, CR) == HeaderFieldStartStep(Base(q), CR);
      assert PlainStep(Base(q), CR) == HeaderFieldStartStep(Base(q), CR);
      hide PlainStep;
    }
  }

  lemma {:induction false} NotedTally(r: Run, data: seq<char>, n: nat, t: nat)
    requires r.stop.Go? && AtLine(r.ps.state) && n <= |data| && data != [] && data[0] == CR
    ensures Tally(r, data, n, t) == Tally(Noted(r), data, n, t)
  {
    hide Step, Base, Feed, Tick;
    if n == 1 {
      NotedTick(r.ps, t);
      FeedNone(r, data);
      FeedNone(Noted(r), data);
      assert Tally(r, data, 0, t) == t && Tally(Noted(r), data, 0, t) == t;
    } else if n > 1 {
      NotedTally(r, data, n - 1, t);
      NotedRun(r, data, n - 1);
    }
  }

  /** What follows the header line. */
  function Rest(p: Payload): seq<char> { CRLF + Text(p) }

  lemma RestShape(p: Payload)
    ensures Rest(p) != [] && Rest(p)[0] == CR && |Rest(p)| == 2 + |Text(p)|
  {
  }

  /** What the byte machine makes of blank line and payload behind the header line. */
  lemma RestRun(r: Run, p: Payload, t: nat, bound: nat)
    requires r.stop.Go? && r.ps.state.HeaderValueLws? && Announced(Base(r.ps)) && Matches(Base(r.ps), p)
    requires t + 2 <= bound && LINE_MAX <= bound
    ensures var e := FeedAll(r, Rest(p));
            && e.ps == Closing(Base(r.ps)).ps && e.stop == Closing(Base(r.ps)).stop
            && e.consumed == r.consumed + |Rest(p)|
            && BodyOf(e.log) == BodyOf(r.log) + Content(p) && Completions(e.log) == Completions(r.log) + 1
            && Smooth(r, Rest(p), t, bound)
  {
    hide Step, Feed, Base, Announced, Matches, Closing, Text, Content, Opened, BodyOf, Completions, Add, Tally, Smooth;
    var q := Noted(r);
    var s := Run(Opened(q.ps), Add(q.log, Notify(HeadersComplete)), Go, q.consumed + 2);
    PayloadRun(q, p);
    SmoothWider(s, Text(p), 0, LINE_MAX, bound);
    BlankLineThen(q, Text(p), t, bound);
    RestShape(p);
    NotedRun(r, Rest(p), |Rest(p)|);
    NotedSmooth(r, Rest(p), t, bound);
  }

  lemma NotedSmooth(r: Run, data: seq<char>, t: nat, bound: nat)
    requires r.stop.Go? && r.ps.state.HeaderValueLws? && data != [] && data[0] == CR && Smooth(Noted(r), data, t, bound)
    ensures Smooth(r, data, t, bound)
  {
    hide Step, Base, Tally, Feed;
    forall i | 0 <= i <= |data| ensures !InText(Feed(r, data, i).ps.state) && Tally(r, data, i, t) <= bound {
      NotedTally(r, data, i, t);
      if i == 0 { FeedNone(r, data); } else { NotedRun(r, data, i); }
    }
  }

  /** The bytes of a header line all pass the character check. */
  lemma LineChars(h: Header, p: Payload, i: nat)
    requires Announces(h, p) && i < |Line(h.name, h.value)|
    ensures IsHeaderChar(Line(h.name, h.value)[i])
  {
    var line, n := Line(h.name, h.value), |h.name|;
    hide Token, Lower, IsHeaderChar, DecFits, Blocks;
    ColonChars();
    if i < n {
      var k := if p.Plain? then Length else Encoding;
      assert line[i] == h.name[i] && Token(h.name[i]) == Word(k)[i];
      NameShape(k, i);
      TokenText(h.name[i], Word(k)[i]);
    } else if n + 2 <= i < n + 2 + |h.value| {
      assert line[i] == h.value[i - n - 2];
      if p.Plain? { DigitChar(h.value[i - n - 2]); } else { ChunkedChar(h.value, i - n - 2); }
    }
  }

  lemma DigitChar(ch: char)
    requires ch == ' ' || IsNum(ch)
    ensures IsHeaderChar(ch)
  {
  }

  lemma ChunkedChar(v: seq<char>, j: nat)
    requires ChunkedValue(v) && j < |v|
    ensures IsHeaderChar(v[j])
  {
    hide Lower, IsHeaderChar;
    assert 'a' <= CHUNKED[j] <= 'z';
    LowerLetter(v[j]);
  }

  /**
   A header line in front of a smooth rest hides no byte, stays within the header size, and has header text only up to
   its end.
   */
  lemma LineThen(r: Run, line: seq<char>, rest: seq<char>, t: nat, bound: nat)
    requires FeedAll(r, line).stop.Go? && (forall i | 0 <= i < |line| :: IsHeaderChar(line[i])) && t + |line| <= bound
    requires Smooth(FeedAll(r, line), rest, Tally(r, line, |line|, t), bound)
    ensures NoSkip(r, line + rest, |line + rest|)
    ensures forall i | |line| <= i <= |line + rest| :: !InText(Feed(r, line + rest, i).ps.state)
    ensures forall i | 0 <= i <= |line + rest| :: Tally(r, line + rest, i, t) <= bound
  {
    hide Step, Feed, Tally, IsHeaderChar, FeedAll;
    var s := FeedAll(r, line);
    forall i | 0 <= i <= |line + rest|
      ensures (i >= |line| ==> !InText(Feed(r, line + rest, i).ps.state)) && Tally(r, line + rest, i, t) <= bound
    {
      if i <= |line| {
        TallyPrefix(r, line, rest, i, t);
        TallyMax(r, line, i, t);
      }
      if i >= |line| {
        FeedConcatN(r, line, rest, i - |line|);
        TallyConcat(r, line, rest, i - |line|, t);
        TallyShift(s, rest, i - |line|, Tally(r, line, |line|, t));
      }
    }
    forall i | 0 <= i < |line + rest| ensures !SkipsAt(r, line + rest, i) {
      if i < |line| { assert (line + rest)[i] == line[i]; }
    }
  }

  // ---------------------------------------------------------------- all header lines

  /** The header lines: any number that announce nothing, the one that announces the body, and any number more. */
  datatype Head = Head(before: seq<Header>, h: Header, after: seq<Header>)

  predicate Heads(d: Head, p: Payload) { Announces(d.h, p) && Others(d.before) && Others(d.after) }

  function HeadText(d: Head): seq<char> { Lines(d.before) + Line(d.h.name, d.h.value) + Lines(d.after) }

  /** The parser behind them. */
  function HeadTold(q: Parser, d: Head, p: Payload): Parser
    requires Heads(d, p)
  {
    PassedAll(Told(PassedAll(q, d.before), d.h, p), d.after)
  }

  /** Header lines, blank line and payload as they are sent. */
  function Sent(d: Head, p: Payload): seq<char> { HeadText(d) + Rest(p) }

  /** How large the header size can get: the lines, the blank line, or a line of the chunked framing. */
  function Largest(t: nat, d: Head): nat {
    if t + |HeadText(d)| + 2 < LINE_MAX then LINE_MAX else t + |HeadText(d)| + 2
  }

  lemma StillUnannounced(q: Parser, hs: seq<Header>)
    requires Unannounced(q)
    ensures Unannounced(PassedAll(q, hs)) && PassedAll(q, hs).errno == q.errno
  {
    PassedTwice(q);
    assert Base(q).errno == q.errno;
    hide Base;
  }

  /** Lines that announce nothing do not change what has been announced. */
  lemma StillAnnounced(t: Parser, p: Payload, hs: seq<Header>)
    requires t.state.HeaderValueLws? && Announced(Base(t)) && Matches(Base(t), p) && t.errno == Base(t).errno
    ensures var q := PassedAll(t, hs);
            q.state.HeaderValueLws? && Announced(Base(q)) && Matches(Base(q), p) && q.errno == t.errno == Base(q).errno
  {
    PassedTwice(t);
    hide Base, Blocks;
  }

  lemma HeadChars(d: Head, p: Payload, i: nat)
    requires Heads(d, p) && i < |HeadText(d)|
    ensures IsHeaderChar(HeadText(d)[i])
  {
    hide IsHeaderChar, Line, Lines, Announces, Others;
    var a, b := |Lines(d.before)|, |Line(d.h.name, d.h.value)|;
    if i < a {
      LinesChars(d.before, i);
    } else if i < a + b {
      LineChars(d.h, p, i - a);
    } else {
      LinesChars(d.after, i - a - b);
    }
  }

  /** The header lines are read to their end. */
  lemma HeadRun(r: Run, d: Head, p: Payload)
    requires r.stop.Go? && Unannounced(r.ps) && Heads(d, p)
    ensures Reads(r, HeadText(d), |HeadText(d)|, HeadTold(r.ps, d, p))
  {
    hide Reads, Line, Lines, Others, Announces, Told, FeedAll, PassedAll;
    var a, b, c := Lines(d.before), Line(d.h.name, d.h.value), Lines(d.after);
    var q1 := PassedAll(r.ps, d.before);
    var q2 := Told(q1, d.h, p);
    StillUnannounced(r.ps, d.before);
    ToldAnnounced(q1, d.h, p);
    hide Unannounced, Announced, Matches, Base;
    OtherLines(r, d.before);
    ReadsState(r, a, q1);
    HeaderRun(FeedAll(r, a), d.h, p);
    ReadsJoin(r, a, b, q1, |b|, q2);
    ReadsState(r, a + b, q2);
    OtherLines(FeedAll(r, a + b), d.after);
    ReadsJoin(r, a + b, c, q2, |c|, PassedAll(q2, d.after));
  }

  lemma HeadAnnounced(q: Parser, d: Head, p: Payload)
    requires Unannounced(q) && Heads(d, p)
    ensures var t := HeadTold(q, d, p);
            t.state.HeaderValueLws? && Announced(Base(t)) && Matches(Base(t), p) && t.errno == q.errno == Base(t).errno
  {
    hide Announces, Told, Others, PassedAll, Unannounced, Announced, Matches, Base;
    StillUnannounced(q, d.before);
    ToldAnnounced(PassedAll(q, d.before), d.h, p);
    StillAnnounced(Told(PassedAll(q, d.before), d.h, p), p, d.after);
  }

  /** The byte machine takes it all, hands over exactly the content, and completes the message once. */
  lemma AnnouncedRoundTrip(r: Run, d: Head, p: Payload, t: nat)
    requires r.stop.Go? && Unannounced(r.ps) && Heads(d, p)
    ensures var e := FeedAll(r, Sent(d, p));
            var o := Closing(Base(HeadTold(r.ps, d, p)));
            && e.ps == o.ps && e.stop == o.stop && e.consumed == r.consumed + |Sent(d, p)|
            && BodyOf(e.log) == BodyOf(r.log) + Content(p) && Completions(e.log) == Completions(r.log) + 1
    ensures NoSkip(r, Sent(d, p), |Sent(d, p)|)
    ensures forall i | |HeadText(d)| <= i <= |Sent(d, p)| :: !InText(Feed(r, Sent(d, p), i).ps.state)
    ensures forall i | 0 <= i <= |Sent(d, p)| :: Tally(r, Sent(d, p), i, t) <= Largest(t, d)
  {
    hide Step, Feed, FeedAll, Tally, Base, HeadTold, HeadText, Heads, Unannounced, Closing, Content, Rest, BodyOf,
         Completions, Smooth, InText, NoSkip, IsHeaderChar, Announced, Matches;
    var head := HeadText(d);
    HeadRun(r, d, p);
    ReadsAll(r, head, HeadTold(r.ps, d, p));
    HeadAnnounced(r.ps, d, p);
    var s, u := FeedAll(r, head), Tally(r, head, |head|, t);
    TallyMax(r, head, |head|, t);
    RestRun(s, p, u, Largest(t, d));
    FeedConcat(r, head, Rest(p));
    forall i | 0 <= i < |head| ensures IsHeaderChar(head[i]) { HeadChars(d, p, i); }
    LineThen(r, head, Rest(p), t, Largest(t, d));
  }

  lemma ReadsAll(r: Run, data: seq<char>, q: Parser)
    requires Reads(r, data, |data|, q)
    ensures var s := FeedAll(r, data);
            s.stop.Go? && s.ps == q && s.consumed == r.consumed + |data| && BodyOf(s.log) == BodyOf(r.log)
            && Completions(s.log) == Completions(r.log)
  {
    hide Step, BodyOf, Completions;
    FeedCounts(r, data, |data|);
  }

  lemma ToldShape(q: Parser, d: Head, p: Payload)
    requires Unannounced(q) && Heads(d, p)
    ensures var o := Closing(Base(HeadTold(q, d, p))); (o.stop.Go? || o.stop.Exited?) && o.ps.errno == q.errno
  {
    HeadAnnounced(q, d, p);
    ClosingShape(Base(HeadTold(q, d, p)));
    hide HeadTold, Base, Closing;
  }

  /**
   A message from its header lines on, cut into calls in any way, also inside a header line: every byte is taken, the
   body callback gets exactly the announced content, and the message completes once. Each byte of the header lines may
   count twice towards the header size, once as itself and once for a cut behind it.
   */
  method ReceiveAnnounced(parser: LiveParser, d: Head, p: Payload, pieces: seq<seq<char>>)
    returns (consumed: nat, stop: Stop)
    requires parser.Valid() && parser.ps.errno.OK? && Unannounced(parser.ps) && Heads(d, p)
    requires Largest(parser.nread, d) + |HeadText(d)| < HTTP_MAX_HEADER_SIZE && Flatten(pieces) == Sent(d, p)
    requires forall k | 0 <= k < |pieces| :: pieces[k] != [] && |pieces[k]| <= HttpCall.MAX_CALL
    modifies parser
    ensures parser.Valid() && consumed == |Sent(d, p)| && (stop.Go? || stop.Exited?)
    ensures BodyOf(Merged(parser.calls)) == BodyOf(Merged(old(parser.calls))) + Content(p)
    ensures Completions(Merged(parser.calls)) == Completions(Merged(old(parser.calls))) + 1
    ensures parser.ps == Closing(Base(HeadTold(old(parser.ps), d, p))).ps
  {
    hide Feed, FeedAll, Merged, Unannounced, Heads, HeadText, Largest, HeadTold, Base, Closing, Content, BodyOf,
         Completions, Tally, Inv, NoSkip, SameAs, InText, Sent, Ends, Count, Refused, Ended, CutAt,
         Flatten, Settled;
    ghost var r := parser.Now();
    AnnouncedRoundTrip(r, d, p, parser.nread);
    ToldShape(r.ps, d, p);
    NeverRefused(r, Sent(d, p), Ends(pieces), parser.nread, Largest(parser.nread, d), |HeadText(d)|);
    var lost, overflow;
    ghost var last;
    consumed, stop, lost, overflow, last := ExecutePieces(parser, pieces);
    SameAsLive(FeedAll(r, Sent(d, p)), parser.ps, Merged(parser.calls + lost), consumed, stop);
    assert parser.calls + lost == parser.calls;
  }
}
