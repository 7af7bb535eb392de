/**
 Messages from the end of their header lines on: the blank line decides how the body is framed, and
 exactly the framed bytes reach the body callback, however they are cut into calls.
 */
module HttpMessage {
  import opened HttpMachine
  import opened HttpFeed
  import opened HttpExecute
  import opened HttpInvariant
  import opened HttpCuts
  import opened HttpParser
  import opened HttpBody
  import HttpCall

  /** What the parser takes for a change of protocol when the headers are complete. */
  predicate Upgrades(ps: Parser) {
    if ps.flags.upgrade && ps.flags.connectionUpgrade then ps.kind.Request? || ps.statusCode == 101
    else ps.method_ == CONNECT
  }

  /** The header lines are over, and they announce a body in exactly one way. */
  predicate Announced(ps: Parser) {
    && ps.state.HeaderFieldStart? && !ps.flags.trailing && !ps.flags.skipBody
    && !(Upgrades(ps) && ps.method_ == CONNECT)
    && if ps.flags.chunked then !ps.flags.contentLength else 0 < ps.contentLength < ULLONG_MAX
  }

  /** The parser behind the blank line. */
  function Opened(ps: Parser): Parser {
    ps.(state := if ps.flags.chunked then ChunkSizeStart else BodyIdentity, upgrade := Upgrades(ps))
  }

  lemma BlankLineCR(ps: Parser)
    requires Announced(ps)
    ensures Step(ps, CR) == StepOut(ps.(state := HeadersAlmostDone), [], Go)
  {
    assert Step(ps, CR) == Spell(Closed, HeaderFieldStartStep(ps, CR), CR);
  }

  lemma HeadersDecide(ps: Parser)
    requires Announced(ps)
    ensures HeadersAlmostDoneStep(ps.(state := HeadersAlmostDone), LF)
            == Out(Opened(ps), [Tell(HeadersComplete)], Go, true)
  {
  }

  lemma BlankLineLF(ps: Parser, t: nat)
    requires Announced(ps)
    ensures Step(ps.(state := HeadersAlmostDone), LF) == StepOut(Opened(ps), [Notify(HeadersComplete)], Go)
    ensures Tick(ps.(state := HeadersAlmostDone), LF, t) == 0
  {
    var q := ps.(state := HeadersAlmostDone);
    HeadersDecide(ps);
    hide HeadersAlmostDoneStep, Opened;
    assert PlainStep(q, LF) == HeadersAlmostDoneStep(q, LF);
    assert Step(q, LF) == Spell(Closed, PlainStep(q, LF), LF);
  }

  /** The blank line opens the body that the header lines announced, and clears the header size. */
  lemma BlankLine(r: Run, t: nat)
    requires r.stop.Go? && Announced(r.ps)
    ensures FeedAll(r, CRLF) == Run(Opened(r.ps), Add(r.log, Notify(HeadersComplete)), Go, r.consumed + 2)
    ensures Smooth(r, CRLF, t, t + 2) && Tally(r, CRLF, 2, t) == 0
  {
    hide Step, Feed, FeedAll, Smooth, Add, AddAll, Tick, Upgrades;
    BlankLineCR(r.ps);
    BlankLineLF(r.ps, Tick(r.ps, CR, t));
    FeedTwo(r, CR, LF);
    NothingAdded(r.log);
    AddAllOne(r.log, Notify(HeadersComplete));
    TickBound(r.ps, CR, t);
    SmoothShort(r, CR, LF, t, t + 2);
  }

  lemma SmoothWider(r: Run, data: seq<char>, t: nat, low: nat, high: nat)
    requires Smooth(r, data, t, low) && low <= high
    ensures Smooth(r, data, t, high)
  {
    hide Feed, Tally;
  }

  /** The blank line and what follows it. */
  lemma BlankLineThen(r: Run, rest: seq<char>, t: nat, bound: nat)
    requires r.stop.Go? && Announced(r.ps) && t + 2 <= bound
    requires Smooth(Run(Opened(r.ps), Add(r.log, Notify(HeadersComplete)), Go, r.consumed + 2), rest, 0, bound)
    ensures FeedAll(r, CRLF + rest)
            == FeedAll(Run(Opened(r.ps), Add(r.log, Notify(HeadersComplete)), Go, r.consumed + 2), rest)
    ensures Smooth(r, CRLF + rest, t, bound)
  {
    hide Feed, FeedAll, Smooth, Add, Tally, Opened, Announced;
    BlankLine(r, t);
    SmoothWider(r, CRLF, t, t + 2, bound);
    SmoothConcat(r, CRLF, rest, t, bound);
    FeedConcat(r, CRLF, rest);
  }

  /** The body a message announces: so many bytes, or a chunked framing of blocks. */
  datatype Payload = Plain(body: seq<char>) | InChunks(blocks: seq<seq<char>>)

  function Text(p: Payload): seq<char> { match p case Plain(body) => body case InChunks(blocks) => Chunked(blocks) }

  function Content(p: Payload): seq<char> { match p case Plain(body) => body case InChunks(blocks) => Concat(blocks) }

  predicate Matches(ps: Parser, p: Payload) {
    match p
    case Plain(body) => !ps.flags.chunked && |body| == ps.contentLength
    case InChunks(blocks) => ps.flags.chunked && Blocks(blocks)
  }

  /** The parser after the message. */
  function Closing(ps: Parser): Out { if ps.flags.chunked then AfterChunked(Opened(ps)) else AfterSized(Opened(ps)) }

  /** What the byte machine makes of a payload. */
  lemma PayloadRun(r: Run, p: Payload)
    requires r.stop.Go? && Announced(r.ps) && Matches(r.ps, p)
    ensures var s := Run(Opened(r.ps), Add(r.log, Notify(HeadersComplete)), Go, r.consumed + 2);
            var e := FeedAll(s, Text(p));
            && e.ps == Closing(r.ps).ps && e.stop == Closing(r.ps).stop && e.consumed == r.consumed + 2 + |Text(p)|
            && BodyOf(e.log) == BodyOf(r.log) + Content(p) && Completions(e.log) == Completions(r.log) + 1
            && Smooth(s, Text(p), 0, LINE_MAX)
  {
    hide Feed, FeedAll, Smooth, Add, AddAll, Tally, MessageDoneStep, BodyOf, Completions, Chunked, Upgrades;
    var s := Run(Opened(r.ps), Add(r.log, Notify(HeadersComplete)), Go, r.consumed + 2);
    Adding(r.log, Notify(HeadersComplete));
    match p {
      case Plain(body) =>
        SizedRoundTrip(s, body, 0);
        SmoothWider(s, body, 0, 0, LINE_MAX);
        SizedBody(s.log, body);
      case InChunks(blocks) =>
        ChunkedRoundTrip(s, blocks);
        ChunkedBody(s.log, blocks);
    }
  }

  lemma ClosingShape(ps: Parser)
    ensures var o := Closing(ps); (o.stop.Go? || o.stop.Exited?) && o.ps.errno == ps.errno
  {
  }

  /**
   The rest of a message from the end of its header lines, cut into calls in any way: every byte is taken, the body
   callback gets exactly the announced content, and the message completes once.
   */
  method ReceiveMessage(parser: LiveParser, p: Payload, pieces: seq<seq<char>>) returns (consumed: nat, stop: Stop)
    requires parser.Valid() && parser.ps.errno.OK? && Announced(parser.ps) && Matches(parser.ps, p)
    requires parser.nread + 2 < HTTP_MAX_HEADER_SIZE && Flatten(pieces) == CRLF + Text(p)
    requires forall k | 0 <= k < |pieces| :: pieces[k] != [] && |pieces[k]| <= HttpCall.MAX_CALL
    modifies parser
    ensures consumed == 2 + |Text(p)| && (stop.Go? || stop.Exited?)
    ensures BodyOf(Merged(parser.calls)) == BodyOf(Merged(old(parser.calls))) + Content(p)
    ensures Completions(Merged(parser.calls)) == Completions(Merged(old(parser.calls))) + 1
    ensures parser.Valid() && parser.ps == Closing(old(parser.ps)).ps
  {
    hide Feed, FeedAll, Merged, Add, AddAll, Smooth, BodyOf, Completions, Tally, Inv, Refused, Ends, Count,
         NoSkip, SameAs, Ended, CutAt, Flatten, Settled, Announced, Matches, Opened, Closing, Text, Content;
    ghost var r := parser.Now();
    ghost var s := Run(Opened(r.ps), Add(r.log, Notify(HeadersComplete)), Go, 2);
    ghost var bound := if parser.nread + 2 < LINE_MAX then LINE_MAX else parser.nread + 2;
    ClosingShape(r.ps);
    PayloadRun(r, p);
    SmoothWider(s, Text(p), 0, LINE_MAX, bound);
    BlankLineThen(r, Text(p), parser.nread, bound);
    SmoothTaken(r, Flatten(pieces), Ends(pieces), parser.nread, bound);
    var lost, overflow;
    ghost var last;
    consumed, stop, lost, overflow, last := ExecutePieces(parser, pieces);
    SameAsLive(FeedAll(r, CRLF + Text(p)), parser.ps, Merged(parser.calls + lost), consumed, stop);
    assert parser.calls + lost == parser.calls;
  }
}
