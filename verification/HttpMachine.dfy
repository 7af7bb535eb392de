/**
 The byte machine of wrk's HTTP/1.x parser (strict build): parser fields, the
 per-byte transitions of every state, and the callbacks each byte triggers.

 A byte is a `char` below 256; nothing below depends on that bound.
 Callbacks return 0 and leave the parser alone, so they are recorded as events.
 A failed C `assert` about the fields and an out-of-bounds table read are the outcome `Panicked`; that at most one mark
 is set and that `nread` is one at the start of a chunk is proved of the call, not of the byte machine.
 */
module HttpMachine {

  const CR := '\r'
  const LF := '\n'
  const ULLONG_MAX := 0xFFFF_FFFF_FFFF_FFFF
  type Uint64 = x: int | 0 <= x <= 0xFFFF_FFFF_FFFF_FFFF
  const HTTP_MAX_HEADER_SIZE: nat := 80 * 1024

  // ---------------------------------------------------------------- parser fields

  datatype State =
    | Dead
    | StartReqOrRes | ResOrRespH
    | StartRes | ResH | ResHT | ResHTT | ResHTTP
    | ResHttpMajor | ResHttpDot | ResHttpMinor | ResHttpEnd
    | ResFirstStatusCode | ResStatusCode | ResStatusStart | ResStatus | ResLineAlmostDone
    | StartReq | ReqMethod | ReqSpacesBeforeUrl
    | ReqSchema | ReqSchemaSlash | ReqSchemaSlashSlash
    | ReqServerStart | ReqServer | ReqServerWithAt
    | ReqPath | ReqQueryStringStart | ReqQueryString | ReqFragmentStart | ReqFragment
    | ReqHttpStart | ReqHttpH | ReqHttpHT | ReqHttpHTT | ReqHttpHTTP
    | ReqHttpMajor | ReqHttpDot | ReqHttpMinor | ReqHttpEnd | ReqLineAlmostDone
    | HeaderFieldStart | HeaderField
    | HeaderValueDiscardWs | HeaderValueDiscardWsAlmostDone | HeaderValueDiscardLws
    | HeaderValueStart | HeaderValue | HeaderValueLws | HeaderAlmostDone
    | ChunkSizeStart | ChunkSize | ChunkParameters | ChunkSizeAlmostDone
    | HeadersAlmostDone | HeadersDone
    | ChunkData | ChunkDataAlmostDone | ChunkDataDone
    | BodyIdentity | BodyIdentityEof | MessageDone

  datatype HeaderState =
    | General | HC | HCO | HCON
    | MatchingConnection | MatchingProxyConnection | MatchingContentLength
    | MatchingTransferEncoding | MatchingUpgrade
    | Connection | ContentLength | TransferEncoding | Upgrade
    | MatchingTransferEncodingChunked | MatchingConnectionTokenStart
    | MatchingConnectionKeepAlive | MatchingConnectionClose | MatchingConnectionUpgrade
    | MatchingConnectionToken
    | TransferEncodingChunked | ConnectionKeepAlive | ConnectionClose | ConnectionUpgrade

  datatype ParserType = Request | Response | Both

  datatype Method =
    | DELETE | GET | HEAD | POST | PUT | CONNECT | OPTIONS | TRACE | COPY | LOCK | MKCOL | MOVE
    | PROPFIND | PROPPATCH | SEARCH | UNLOCK | BIND | REBIND | UNBIND | ACL | REPORT | MKACTIVITY
    | CHECKOUT | MERGE | MSEARCH | NOTIFY | SUBSCRIBE | UNSUBSCRIBE | PATCH | PURGE | MKCALENDAR
    | LINK | UNLINK

  datatype Errno =
    | OK | InvalidEofState | HeaderOverflow | ClosedConnection | InvalidVersion | InvalidStatus
    | InvalidMethod | InvalidUrl | LfExpected | InvalidHeaderToken | InvalidContentLength
    | UnexpectedContentLength | InvalidChunkSize | InvalidConstant | Strict

  datatype Flags = Flags(
    chunked: bool, keepAlive: bool, close: bool, connectionUpgrade: bool,
    trailing: bool, upgrade: bool, skipBody: bool, contentLength: bool)

  const NO_FLAGS := Flags(false, false, false, false, false, false, false, false)

  /** The fields of `struct http_parser`, except `nread`, which the byte machine never reads. */
  datatype Parser = Parser(
    kind: ParserType,
    flags: Flags,
    state: State,
    headerState: HeaderState,
    index: nat,
    lenient: bool,
    contentLength: Uint64,
    httpMajor: nat,
    httpMinor: nat,
    statusCode: nat,
    method_: Method,
    errno: Errno,
    upgrade: bool)

  function InitParser(t: ParserType): Parser {
    Parser(t, NO_FLAGS,
           if t.Request? then StartReq else if t.Response? then StartRes else StartReqOrRes,
           General, 0, false, 0, 0, 0, 0, DELETE, OK, false)
  }

  // ---------------------------------------------------------------- character classes

  function Lower(c: char): char {
    if c as int < 256 && (c as int / 32) % 2 == 0 then (c as int + 32) as char else c
  }

  predicate IsNum(c: char) { '0' <= c <= '9' }

  predicate IsAlpha(c: char) { 'a' <= c <= 'z' || 'A' <= c <= 'Z' }

  predicate IsMark(c: char) {
    c == '-' || c == '_' || c == '.' || c == '!' || c == '~' || c == '*' || c == '\'' || c == '(' || c == ')'
  }

  predicate IsUserinfoChar(c: char) {
    IsAlpha(c) || IsNum(c) || IsMark(c) || c == '%' || c == ';' || c == ':' || c == '&' || c == '='
    || c == '+' || c == '$' || c == ','
  }

  /** The table of RFC 2616 tokens, lower-cased; '\0' marks a non-token. */
  function Token(c: char): char {
    if 'A' <= c <= 'Z' then (c as int + 32) as char
    else if '^' <= c <= 'z' || IsNum(c) || c == '!' || '#' <= c <= '\'' || c == '*' || c == '+'
            || c == '-' || c == '.' || c == '|' || c == '~' then c
    else '\0'
  }

  predicate IsUrlChar(c: char) { '!' <= c <= '~' && c != '#' && c != '?' }

  predicate IsHeaderChar(c: char) {
    c == CR || c == LF || c == '\t' || (c as int > 31 && c as int != 127)
  }

  /** The hexadecimal table: only its first 128 entries are listed, the others are 0. */
  function Unhex(c: char): int {
    if IsNum(c) then c as int - '0' as int
    else if 'a' <= c <= 'f' then c as int - 'a' as int + 10
    else if 'A' <= c <= 'F' then c as int - 'A' as int + 10
    else if c as int >= 128 then 0
    else -1
  }

  function Digit(c: char): nat
    requires IsNum(c)
  {
    c as int - '0' as int
  }

  function MethodString(m: Method): string {
    match m
    case DELETE => "DELETE" case GET => "GET" case HEAD => "HEAD" case POST => "POST"
    case PUT => "PUT" case CONNECT => "CONNECT" case OPTIONS => "OPTIONS" case TRACE => "TRACE"
    case COPY => "COPY" case LOCK => "LOCK" case MKCOL => "MKCOL" case MOVE => "MOVE"
    case PROPFIND => "PROPFIND" case PROPPATCH => "PROPPATCH" case SEARCH => "SEARCH"
    case UNLOCK => "UNLOCK" case BIND => "BIND" case REBIND => "REBIND" case UNBIND => "UNBIND"
    case ACL => "ACL" case REPORT => "REPORT" case MKACTIVITY => "MKACTIVITY"
    case CHECKOUT => "CHECKOUT" case MERGE => "MERGE" case MSEARCH => "M-SEARCH"
    case NOTIFY => "NOTIFY" case SUBSCRIBE => "SUBSCRIBE" case UNSUBSCRIBE => "UNSUBSCRIBE"
    case PATCH => "PATCH" case PURGE => "PURGE" case MKCALENDAR => "MKCALENDAR"
    case LINK => "LINK" case UNLINK => "UNLINK"
  }

  // ---------------------------------------------------------------- callbacks

  datatype DataKind = Url | Status | Field | Value | Body

  datatype Notice = MessageBegin | HeadersComplete | MessageComplete | ChunkHeader | ChunkComplete

  /** One callback invocation. */
  datatype Event = Notify(notice: Notice) | Data(kind: DataKind, bytes: seq<char>)

  /** What one byte does to marks and callbacks. */
  datatype Act = Mark(kind: DataKind) | Flush(kind: DataKind) | Tell(notice: Notice)

  datatype Stop = Go | Failed | Exited | Panicked

  /** Outcome of one byte; `reset` says that `nread` is set to 0. */
  datatype Out = Out(ps: Parser, acts: seq<Act>, stop: Stop, reset: bool)

  function Quiet(ps: Parser): Out { Out(ps, [], Go, false) }

  function Goto(ps: Parser, s: State): Out { Out(ps.(state := s), [], Go, false) }

  function Err(ps: Parser, e: Errno): Out { Out(ps.(errno := e), [], Failed, false) }

  function Abort(ps: Parser): Out { Out(ps, [], Panicked, false) }

  /** `acts` happen first, then the machine re-executes the same byte with outcome `o`. */
  function Then(acts: seq<Act>, o: Out): Out { o.(acts := acts + o.acts) }

  // ---------------------------------------------------------------- end of message

  predicate NeedsEof(ps: Parser) {
    && !ps.kind.Request?
    && ps.statusCode / 100 != 1 && ps.statusCode != 204 && ps.statusCode != 304 && !ps.flags.skipBody
    && !ps.flags.chunked && ps.contentLength == ULLONG_MAX
  }

  predicate ShouldKeepAlive(ps: Parser) {
    && (if ps.httpMajor > 0 && ps.httpMinor > 0 then !ps.flags.close else ps.flags.keepAlive)
    && !NeedsEof(ps)
  }

  function NewMessage(ps: Parser): State {
    if ShouldKeepAlive(ps) then (if ps.kind.Request? then StartReq else StartRes) else Dead
  }

  function MessageDoneStep(ps: Parser): Out {
    Out(ps.(state := NewMessage(ps)), [Tell(MessageComplete)], if ps.upgrade then Exited else Go, false)
  }

  function HeadersDoneStep(ps: Parser, ch: char): Out {
    if ch != LF then Err(ps, Strict)
    else
      var hasBody := ps.flags.chunked || (ps.contentLength > 0 && ps.contentLength != ULLONG_MAX);
      if ps.upgrade && (ps.method_ == CONNECT || ps.flags.skipBody || !hasBody) then
        Out(ps.(state := NewMessage(ps)), [Tell(MessageComplete)], Exited, true)
      else if ps.flags.skipBody then
        Out(ps.(state := NewMessage(ps)), [Tell(MessageComplete)], Go, true)
      else if ps.flags.chunked then
        Out(ps.(state := ChunkSizeStart), [], Go, true)
      else if ps.contentLength == 0 then
        Out(ps.(state := NewMessage(ps)), [Tell(MessageComplete)], Go, true)
      else if ps.contentLength != ULLONG_MAX then
        Out(ps.(state := BodyIdentity), [], Go, true)
      else if !NeedsEof(ps) then
        Out(ps.(state := NewMessage(ps)), [Tell(MessageComplete)], Go, true)
      else
        Out(ps.(state := BodyIdentityEof), [], Go, true)
  }

  function HeadersAlmostDoneStep(ps: Parser, ch: char): Out {
    if ch != LF then Err(ps, Strict)
    else if ps.flags.trailing then
      Then([Tell(ChunkComplete)], MessageDoneStep(ps.(state := MessageDone)))
    else if ps.flags.chunked && ps.flags.contentLength then Err(ps, UnexpectedContentLength)
    else
      var up := if ps.flags.upgrade && ps.flags.connectionUpgrade
                then ps.kind.Request? || ps.statusCode == 101
                else ps.method_ == CONNECT;
      Then([Tell(HeadersComplete)], HeadersDoneStep(ps.(state := HeadersDone, upgrade := up), ch))
  }

  // ---------------------------------------------------------------- header lines

  function HeaderFieldStartStep(ps: Parser, ch: char): Out {
    if ch == CR then Goto(ps, HeadersAlmostDone)
    else if ch == LF then HeadersAlmostDoneStep(ps.(state := HeadersAlmostDone), ch)
    else
      var c := Token(ch);
      if c == '\0' then Err(ps, InvalidHeaderToken)
      else
        var h := if c == 'c' then HC
                 else if c == 'p' then MatchingProxyConnection
                 else if c == 't' then MatchingTransferEncoding
                 else if c == 'u' then MatchingUpgrade
                 else General;
        Out(ps.(state := HeaderField, index := 0, headerState := h), [Mark(Field)], Go, false)
  }

  function ValueStartStep(ps0: Parser, ch: char): Out {
    var ps := ps0.(state := HeaderValue, index := 0);
    var c := Lower(ch);
    match ps.headerState
    case Upgrade =>
      Out(ps.(flags := ps.flags.(upgrade := true), headerState := General), [Mark(Value)], Go, false)
    case TransferEncoding =>
      Out(ps.(headerState := if c == 'c' then MatchingTransferEncodingChunked else General), [Mark(Value)], Go, false)
    case ContentLength =>
      if !IsNum(ch) then Then([Mark(Value)], Err(ps, InvalidContentLength))
      else if ps.flags.contentLength then Then([Mark(Value)], Err(ps, UnexpectedContentLength))
      else Out(ps.(flags := ps.flags.(contentLength := true), contentLength := Digit(ch)), [Mark(Value)], Go, false)
    case Connection =>
      var h := if c == 'k' then MatchingConnectionKeepAlive
               else if c == 'c' then MatchingConnectionClose
               else if c == 'u' then MatchingConnectionUpgrade
               else MatchingConnectionToken;
      Out(ps.(headerState := h), [Mark(Value)], Go, false)
    case MatchingConnectionTokenStart => Out(ps, [Mark(Value)], Go, false)
    case _ => Out(ps.(headerState := General), [Mark(Value)], Go, false)
  }

  /** The flag a completed header value turns on. */
  function NoteFlag(ps: Parser): Parser {
    match ps.headerState
    case ConnectionKeepAlive => ps.(flags := ps.flags.(keepAlive := true))
    case ConnectionClose => ps.(flags := ps.flags.(close := true))
    case TransferEncodingChunked => ps.(flags := ps.flags.(chunked := true))
    case ConnectionUpgrade => ps.(flags := ps.flags.(connectionUpgrade := true))
    case _ => ps
  }

  function ValueLwsStep(ps: Parser, ch: char): Out {
    if ch == ' ' || ch == '\t' then ValueStartStep(ps.(state := HeaderValueStart), ch)
    else HeaderFieldStartStep(NoteFlag(ps).(state := HeaderFieldStart), ch)
  }

  function DiscardWsStep(ps: Parser, ch: char): Out {
    if ch == ' ' || ch == '\t' then Quiet(ps)
    else if ch == CR then Goto(ps, HeaderValueDiscardWsAlmostDone)
    else if ch == LF then Goto(ps, HeaderValueDiscardLws)
    else ValueStartStep(ps, ch)
  }

  function DiscardLwsStep(ps: Parser, ch: char): Out {
    if ch == ' ' || ch == '\t' then Goto(ps, HeaderValueDiscardWs)
    else Then([Mark(Value), Flush(Value)],
              HeaderFieldStartStep(NoteFlag(ps).(state := HeaderFieldStart), ch))
  }

  function HeaderAlmostDoneStep(ps: Parser, ch: char): Out {
    if ch != LF then Err(ps, LfExpected) else Goto(ps, HeaderValueLws)
  }

  // ---------------------------------------------------------------- status line

  function Expect(ps: Parser, ch: char, want: char, next: State, e: Errno): Out {
    if ch != want then Err(ps, e) else Goto(ps, next)
  }

  function ResStatusStep(ps: Parser, ch: char): Out {
    if ch == CR then Out(ps.(state := ResLineAlmostDone), [Flush(Status)], Go, false)
    else if ch == LF then Out(ps.(state := HeaderFieldStart), [Flush(Status)], Go, false)
    else Quiet(ps)
  }

  function ResStatusStartStep(ps0: Parser, ch: char): Out {
    var ps := ps0.(state := ResStatus, index := 0);
    if ch == CR || ch == LF then Then([Mark(Status)], ResStatusStep(ps, ch))
    else Out(ps, [Mark(Status)], Go, false)
  }

  function ResStatusCodeStep(ps: Parser, ch: char): Out {
    if IsNum(ch) then
      var code := ps.statusCode * 10 + Digit(ch);
      if code > 999 then Err(ps.(statusCode := code), InvalidStatus) else Quiet(ps.(statusCode := code))
    else if ch == ' ' then Goto(ps, ResStatusStart)
    else if ch == CR || ch == LF then ResStatusStartStep(ps.(state := ResStatusStart), ch)
    else Err(ps, InvalidStatus)
  }

  function ResponseLineStep(ps: Parser, ch: char): Out {
    match ps.state
    case StartRes =>
      var q := ps.(flags := NO_FLAGS, contentLength := ULLONG_MAX);
      if ch == 'H' then Out(q.(state := ResH), [Tell(MessageBegin)], Go, false)
      else if ch == CR || ch == LF then Out(q, [Tell(MessageBegin)], Go, false)
      else Err(q, InvalidConstant)
    case ResH => Expect(ps, ch, 'T', ResHT, Strict)
    case ResHT => Expect(ps, ch, 'T', ResHTT, Strict)
    case ResHTT => Expect(ps, ch, 'P', ResHTTP, Strict)
    case ResHTTP => Expect(ps, ch, '/', ResHttpMajor, Strict)
    case ResHttpMajor =>
      if !IsNum(ch) then Err(ps, InvalidVersion) else Goto(ps.(httpMajor := Digit(ch)), ResHttpDot)
    case ResHttpDot => Expect(ps, ch, '.', ResHttpMinor, InvalidVersion)
    case ResHttpMinor =>
      if !IsNum(ch) then Err(ps, InvalidVersion) else Goto(ps.(httpMinor := Digit(ch)), ResHttpEnd)
    case ResHttpEnd => Expect(ps, ch, ' ', ResFirstStatusCode, InvalidVersion)
    case ResFirstStatusCode =>
      if IsNum(ch) then Goto(ps.(statusCode := Digit(ch)), ResStatusCode)
      else if ch == ' ' then Quiet(ps)
      else Err(ps, InvalidStatus)
    case ResStatusCode => ResStatusCodeStep(ps, ch)
    case ResStatusStart => ResStatusStartStep(ps, ch)
    case ResStatus => ResStatusStep(ps, ch)
    case ResLineAlmostDone => Expect(ps, ch, LF, HeaderFieldStart, Strict)
    case _ => Abort(ps)
  }

  // ---------------------------------------------------------------- request line

  /** First guess of the method from its first letter; None for letters no method starts with. */
  datatype MethodGuess = Guess(m: Method) | NoGuess

  function FirstLetter(ch: char): MethodGuess {
    match ch
    case 'A' => Guess(ACL) case 'B' => Guess(BIND) case 'C' => Guess(CONNECT) case 'D' => Guess(DELETE)
    case 'G' => Guess(GET) case 'H' => Guess(HEAD) case 'L' => Guess(LOCK) case 'M' => Guess(MKCOL)
    case 'N' => Guess(NOTIFY) case 'O' => Guess(OPTIONS) case 'P' => Guess(POST) case 'R' => Guess(REPORT)
    case 'S' => Guess(SUBSCRIBE) case 'T' => Guess(TRACE) case 'U' => Guess(UNLOCK)
    case _ => NoGuess
  }

  /** Revision of the guess when letter `index` does not match it. */
  function Revise(m: Method, index: nat, ch: char): MethodGuess {
    match (m, index, ch)
    case (POST, 1, 'U') => Guess(PUT)
    case (POST, 1, 'A') => Guess(PATCH)
    case (POST, 1, 'R') => Guess(PROPFIND)
    case (PUT, 2, 'R') => Guess(PURGE)
    case (CONNECT, 1, 'H') => Guess(CHECKOUT)
    case (CONNECT, 2, 'P') => Guess(COPY)
    case (MKCOL, 1, 'O') => Guess(MOVE)
    case (MKCOL, 1, 'E') => Guess(MERGE)
    case (MKCOL, 1, '-') => Guess(MSEARCH)
    case (MKCOL, 2, 'A') => Guess(MKACTIVITY)
    case (MKCOL, 3, 'A') => Guess(MKCALENDAR)
    case (SUBSCRIBE, 1, 'E') => Guess(SEARCH)
    case (REPORT, 2, 'B') => Guess(REBIND)
    case (PROPFIND, 4, 'P') => Guess(PROPPATCH)
    case (LOCK, 1, 'I') => Guess(LINK)
    case (UNLOCK, 2, 'S') => Guess(UNSUBSCRIBE)
    case (UNLOCK, 2, 'B') => Guess(UNBIND)
    case (UNLOCK, 3, 'I') => Guess(UNLINK)
    case _ => NoGuess
  }

  function StartReqStep(ps: Parser, ch: char): Out {
    if ch == CR || ch == LF then Quiet(ps)
    else
      var q := ps.(flags := NO_FLAGS, contentLength := ULLONG_MAX);
      if !IsAlpha(ch) then Err(q, InvalidMethod)
      else
        match FirstLetter(ch)
        case NoGuess => Err(q.(method_ := DELETE, index := 1), InvalidMethod)
        case Guess(m) =>
          Out(q.(method_ := m, index := 1, state := ReqMethod), [Tell(MessageBegin)], Go, false)
  }

  function ReqMethodStep(ps: Parser, ch: char): Out {
    var name := MethodString(ps.method_);
    if ch == '\0' then Err(ps, InvalidMethod)
    else if ps.index > |name| then Abort(ps)
    else if ch == ' ' && ps.index == |name| then Goto(ps.(index := ps.index + 1), ReqSpacesBeforeUrl)
    else if ps.index < |name| && ch == name[ps.index] then Quiet(ps.(index := ps.index + 1))
    else if 'A' <= ch <= 'Z' || ch == '-' then
      match Revise(ps.method_, ps.index, ch)
      case NoGuess => Err(ps, InvalidMethod)
      case Guess(m) => Quiet(ps.(method_ := m, index := ps.index + 1))
    else Err(ps, InvalidMethod)
  }

  /** `parse_url_char`: the URL automaton shared with the URL splitter. */
  function ParseUrlChar(s: State, ch: char): State {
    if ch == ' ' || ch == CR || ch == LF || ch == '\t' || ch == '\U{0C}' then Dead
    else
      match s
      case ReqSpacesBeforeUrl =>
        if ch == '/' || ch == '*' then ReqPath else if IsAlpha(ch) then ReqSchema else Dead
      case ReqSchema => if IsAlpha(ch) then ReqSchema else if ch == ':' then ReqSchemaSlash else Dead
      case ReqSchemaSlash => if ch == '/' then ReqSchemaSlashSlash else Dead
      case ReqSchemaSlashSlash => if ch == '/' then ReqServerStart else Dead
      case ReqServerWithAt => if ch == '@' then Dead else ServerChar(ch)
      case ReqServerStart => ServerChar(ch)
      case ReqServer => ServerChar(ch)
      case ReqPath =>
        if IsUrlChar(ch) then ReqPath
        else if ch == '?' then ReqQueryStringStart else if ch == '#' then ReqFragmentStart else Dead
      case ReqQueryStringStart => QueryChar(ch)
      case ReqQueryString => QueryChar(ch)
      case ReqFragmentStart =>
        if IsUrlChar(ch) || ch == '?' then ReqFragment else if ch == '#' then ReqFragmentStart else Dead
      case ReqFragment => if IsUrlChar(ch) || ch == '?' || ch == '#' then ReqFragment else Dead
      case _ => Dead
  }

  function ServerChar(ch: char): State {
    if ch == '/' then ReqPath
    else if ch == '?' then ReqQueryStringStart
    else if ch == '@' then ReqServerWithAt
    else if IsUserinfoChar(ch) || ch == '[' || ch == ']' then ReqServer
    else Dead
  }

  function QueryChar(ch: char): State {
    if IsUrlChar(ch) || ch == '?' then ReqQueryString else if ch == '#' then ReqFragmentStart else Dead
  }

  function UrlByte(ps: Parser, from: State, acts: seq<Act>, ch: char): Out {
    var s := ParseUrlChar(from, ch);
    if s == Dead then Out(ps.(state := Dead, errno := InvalidUrl), acts, Failed, false)
    else Out(ps.(state := s), acts, Go, false)
  }

  function UrlStep(ps: Parser, ch: char): Out {
    match ps.state
    case ReqSpacesBeforeUrl =>
      if ch == ' ' then Quiet(ps)
      else UrlByte(ps, if ps.method_ == CONNECT then ReqServerStart else ReqSpacesBeforeUrl, [Mark(Url)], ch)
    case ReqSchema => UrlNoSpace(ps, ch)
    case ReqSchemaSlash => UrlNoSpace(ps, ch)
    case ReqSchemaSlashSlash => UrlNoSpace(ps, ch)
    case ReqServerStart => UrlNoSpace(ps, ch)
    case _ =>
      if ch == ' ' then Out(ps.(state := ReqHttpStart), [Flush(Url)], Go, false)
      else if ch == CR || ch == LF then
        Out(ps.(httpMajor := 0, httpMinor := 9, state := if ch == CR then ReqLineAlmostDone else HeaderFieldStart),
            [Flush(Url)], Go, false)
      else UrlByte(ps, ps.state, [], ch)
  }

  function UrlNoSpace(ps: Parser, ch: char): Out {
    if ch == ' ' || ch == CR || ch == LF then Err(ps, InvalidUrl) else UrlByte(ps, ps.state, [], ch)
  }

  function RequestLineStep(ps: Parser, ch: char): Out {
    match ps.state
    case StartReq => StartReqStep(ps, ch)
    case ReqMethod => ReqMethodStep(ps, ch)
    case ReqHttpStart =>
      if ch == 'H' then Goto(ps, ReqHttpH) else if ch == ' ' then Quiet(ps) else Err(ps, InvalidConstant)
    case ReqHttpH => Expect(ps, ch, 'T', ReqHttpHT, Strict)
    case ReqHttpHT => Expect(ps, ch, 'T', ReqHttpHTT, Strict)
    case ReqHttpHTT => Expect(ps, ch, 'P', ReqHttpHTTP, Strict)
    case ReqHttpHTTP => Expect(ps, ch, '/', ReqHttpMajor, Strict)
    case ReqHttpMajor =>
      if !IsNum(ch) then Err(ps, InvalidVersion) else Goto(ps.(httpMajor := Digit(ch)), ReqHttpDot)
    case ReqHttpDot => Expect(ps, ch, '.', ReqHttpMinor, InvalidVersion)
    case ReqHttpMinor =>
      if !IsNum(ch) then Err(ps, InvalidVersion) else Goto(ps.(httpMinor := Digit(ch)), ReqHttpEnd)
    case ReqHttpEnd =>
      if ch == CR then Goto(ps, ReqLineAlmostDone)
      else if ch == LF then Goto(ps, HeaderFieldStart)
      else Err(ps, InvalidVersion)
    case ReqLineAlmostDone => Expect(ps, ch, LF, HeaderFieldStart, LfExpected)
    case _ => Abort(ps)
  }

  // ---------------------------------------------------------------- start states

  function StartStep(ps: Parser, ch: char): Out {
    match ps.state
    case Dead => if ch == CR || ch == LF then Quiet(ps) else Err(ps, ClosedConnection)
    case StartReqOrRes =>
      if ch == CR || ch == LF then Quiet(ps)
      else
        var q := ps.(flags := NO_FLAGS, contentLength := ULLONG_MAX);
        if ch == 'H' then Out(q.(state := ResOrRespH), [Tell(MessageBegin)], Go, false)
        else StartReqStep(q.(kind := Request, state := StartReq), ch)
    case ResOrRespH =>
      if ch == 'T' then Goto(ps.(kind := Response), ResHT)
      else if ch != 'E' then Err(ps, InvalidConstant)
      else Goto(ps.(kind := Request, method_ := HEAD, index := 2), ReqMethod)
    case _ => Abort(ps)
  }

  // ---------------------------------------------------------------- chunk framing

  function ChunkStep(ps: Parser, ch: char): Out {
    if !ps.flags.chunked then Abort(ps)
    else
      match ps.state
      case ChunkSizeStart =>
        if Unhex(ch) == -1 then Err(ps, InvalidChunkSize)
        else Goto(ps.(contentLength := Unhex(ch)), ChunkSize)
      case ChunkSize =>
        if ch == CR then Goto(ps, ChunkSizeAlmostDone)
        else if Unhex(ch) == -1 then
          if ch == ';' || ch == ' ' then Goto(ps, ChunkParameters) else Err(ps, InvalidChunkSize)
        else
          var t := (ps.contentLength * 16 + Unhex(ch)) % (ULLONG_MAX + 1);
          if (ULLONG_MAX - 16) / 16 < ps.contentLength then Err(ps, InvalidContentLength)
          else Quiet(ps.(contentLength := t))
      case ChunkParameters => if ch == CR then Goto(ps, ChunkSizeAlmostDone) else Quiet(ps)
      case ChunkSizeAlmostDone =>
        if ch != LF then Err(ps, Strict)
        else if ps.contentLength == 0 then
          Out(ps.(flags := ps.flags.(trailing := true), state := HeaderFieldStart), [Tell(ChunkHeader)], Go, true)
        else Out(ps.(state := ChunkData), [Tell(ChunkHeader)], Go, true)
      case ChunkDataAlmostDone =>
        if ps.contentLength != 0 then Abort(ps)
        else if ch != CR then Err(ps, Strict)
        else Out(ps.(state := ChunkDataDone), [Flush(Body)], Go, false)
      case ChunkDataDone =>
        if ch != LF then Err(ps, Strict)
        else Out(ps.(state := ChunkSizeStart), [Tell(ChunkComplete)], Go, true)
      case _ => Abort(ps)
  }

  // ---------------------------------------------------------------- dispatch

  /** The states whose case in the switch runs a scan or a jump of its own over several bytes. */
  predicate Scanning(s: State) {
    s.HeaderField? || s.HeaderValue? || s.BodyIdentity? || s.BodyIdentityEof? || s.ChunkData?
  }

  /** The states in which the header size is counted. */
  predicate ParsingHeader(s: State) {
    !(s.ChunkData? || s.ChunkDataAlmostDone? || s.ChunkDataDone?
      || s.BodyIdentity? || s.BodyIdentityEof? || s.MessageDone?)
  }

  /** One byte in a state that never looks beyond it. */
  function PlainStep(ps: Parser, ch: char): Out
    requires !Scanning(ps.state)
  {
    match ps.state
    case Dead | StartReqOrRes | ResOrRespH => StartStep(ps, ch)
    case StartRes | ResH | ResHT | ResHTT | ResHTTP | ResHttpMajor | ResHttpDot | ResHttpMinor | ResHttpEnd
       | ResFirstStatusCode | ResStatusCode | ResStatusStart | ResStatus | ResLineAlmostDone =>
      ResponseLineStep(ps, ch)
    case StartReq | ReqMethod | ReqHttpStart | ReqHttpH | ReqHttpHT | ReqHttpHTT | ReqHttpHTTP | ReqHttpMajor
       | ReqHttpDot | ReqHttpMinor | ReqHttpEnd | ReqLineAlmostDone => RequestLineStep(ps, ch)
    case ReqSpacesBeforeUrl | ReqSchema | ReqSchemaSlash | ReqSchemaSlashSlash | ReqServerStart | ReqServer
       | ReqServerWithAt | ReqPath | ReqQueryStringStart | ReqQueryString | ReqFragmentStart | ReqFragment =>
      UrlStep(ps, ch)
    case HeaderFieldStart => HeaderFieldStartStep(ps, ch)
    case HeaderValueDiscardWs => DiscardWsStep(ps, ch)
    case HeaderValueDiscardWsAlmostDone => Expect(ps, ch, LF, HeaderValueDiscardLws, Strict)
    case HeaderValueDiscardLws => DiscardLwsStep(ps, ch)
    case HeaderValueStart => ValueStartStep(ps, ch)
    case HeaderValueLws => ValueLwsStep(ps, ch)
    case HeaderAlmostDone => HeaderAlmostDoneStep(ps, ch)
    case HeadersAlmostDone => HeadersAlmostDoneStep(ps, ch)
    case HeadersDone => HeadersDoneStep(ps, ch)
    case MessageDone => MessageDoneStep(ps)
    case _ => ChunkStep(ps, ch)
  }

  // ---------------------------------------------------------------- bytes of a header name

  const CONNECTION := "connection"
  const PROXY_CONNECTION := "proxy-connection"
  const CONTENT_LENGTH := "content-length"
  const TRANSFER_ENCODING := "transfer-encoding"
  const UPGRADE := "upgrade"
  const CHUNKED := "chunked"
  const KEEP_ALIVE := "keep-alive"
  const CLOSE := "close"

  /** Progress of a keyword match; '\0' follows the keyword. */
  datatype Matching = Matching(h: HeaderState, index: nat)

  function MatchWord(word: string, i0: nat, c: char, on: HeaderState, matched: HeaderState, missed: HeaderState)
    : Matching
  {
    var i := i0 + 1;
    if i > |word| || c != (word + ['\0'])[i] then Matching(missed, i)
    else if i == |word| - 1 then Matching(matched, i)
    else Matching(on, i)
  }

  /** One token byte `c` of a header name; None is an impossible header state. */
  datatype FieldResult = NoResult | Progress(m: Matching)

  function FieldByte(h: HeaderState, index: nat, c: char, ch: char): FieldResult {
    match h
    case General => Progress(Matching(General, index))
    case HC => Progress(Matching(if c == 'o' then HCO else General, index + 1))
    case HCO => Progress(Matching(if c == 'n' then HCON else General, index + 1))
    case HCON =>
      Progress(Matching(if c == 'n' then MatchingConnection else if c == 't' then MatchingContentLength else General,
                        index + 1))
    case MatchingConnection => Progress(MatchWord(CONNECTION, index, c, h, Connection, General))
    case MatchingProxyConnection => Progress(MatchWord(PROXY_CONNECTION, index, c, h, Connection, General))
    case MatchingContentLength => Progress(MatchWord(CONTENT_LENGTH, index, c, h, ContentLength, General))
    case MatchingTransferEncoding => Progress(MatchWord(TRANSFER_ENCODING, index, c, h, TransferEncoding, General))
    case MatchingUpgrade => Progress(MatchWord(UPGRADE, index, c, h, Upgrade, General))
    case Connection | ContentLength | TransferEncoding | Upgrade =>
      Progress(Matching(if ch != ' ' then General else h, index))
    case _ => NoResult
  }

  // ---------------------------------------------------------------- bytes of a header value

  /** One ordinary byte of a header value in header state `ps.headerState`. */
  function ValueByte(ps: Parser, ch: char): Out {
    var c := Lower(ch);
    match ps.headerState
    case General => Quiet(ps)
    case Connection | TransferEncoding => Abort(ps)
    case ContentLength =>
      if ch == ' ' then Quiet(ps)
      else if !IsNum(ch) then Err(ps, InvalidContentLength)
      else
        var t := (ps.contentLength * 10 + Digit(ch)) % (ULLONG_MAX + 1);
        if (ULLONG_MAX - 10) / 10 < ps.contentLength then Err(ps, InvalidContentLength)
        else Quiet(ps.(contentLength := t))
    case MatchingTransferEncodingChunked =>
      Match(ps, MatchWord(CHUNKED, ps.index, c, ps.headerState, TransferEncodingChunked, General))
    case MatchingConnectionTokenStart =>
      var h := if c == 'k' then MatchingConnectionKeepAlive
               else if c == 'c' then MatchingConnectionClose
               else if c == 'u' then MatchingConnectionUpgrade
               else if Token(c) != '\0' then MatchingConnectionToken
               else if c == ' ' || c == '\t' then MatchingConnectionTokenStart
               else General;
      Quiet(ps.(headerState := h))
    case MatchingConnectionKeepAlive =>
      Match(ps, MatchWord(KEEP_ALIVE, ps.index, c, ps.headerState, ConnectionKeepAlive, MatchingConnectionToken))
    case MatchingConnectionClose =>
      Match(ps, MatchWord(CLOSE, ps.index, c, ps.headerState, ConnectionClose, MatchingConnectionToken))
    case MatchingConnectionUpgrade =>
      Match(ps, MatchWord(UPGRADE, ps.index, c, ps.headerState, ConnectionUpgrade, MatchingConnectionToken))
    case MatchingConnectionToken =>
      if ch == ',' then Quiet(ps.(headerState := MatchingConnectionTokenStart, index := 0)) else Quiet(ps)
    case TransferEncodingChunked => if ch != ' ' then Quiet(ps.(headerState := General)) else Quiet(ps)
    case ConnectionKeepAlive | ConnectionClose | ConnectionUpgrade =>
      if ch == ',' then Quiet(NoteFlag(ps).(headerState := MatchingConnectionTokenStart, index := 0))
      else if ch != ' ' then Quiet(ps.(headerState := MatchingConnectionToken))
      else Quiet(ps)
    case _ => Quiet(ps.(headerState := General))
  }

  function Match(ps: Parser, m: Matching): Out { Quiet(ps.(headerState := m.h, index := m.index)) }

  // ---------------------------------------------------------------- one byte in any state

  /** The region a state lies in: the mark that `http_parser_execute` sets when a call starts there. */
  datatype Region = Closed | Open(kind: DataKind)

  function RegionOf(s: State): Region {
    if s.HeaderField? then Open(Field)
    else if s.HeaderValue? then Open(Value)
    else if s.ResStatus? then Open(Status)
    else if InUrl(s) then Open(Url)
    else Closed
  }

  predicate InUrl(s: State) {
    s.ReqPath? || s.ReqSchema? || s.ReqSchemaSlash? || s.ReqSchemaSlashSlash? || s.ReqServerStart?
    || s.ReqServer? || s.ReqServerWithAt? || s.ReqQueryStringStart? || s.ReqQueryString?
    || s.ReqFragmentStart? || s.ReqFragment?
  }

  /** Events of `acts` when the region `r` is open: an empty Data closes a region. */
  function Play(r: Region, acts: seq<Act>): (seq<Event>, Region)
    decreases acts
  {
    if acts == [] then ([], r)
    else
      match acts[0]
      case Mark(k) => Play(if r.Closed? then Open(k) else r, acts[1..])
      case Flush(k) =>
        if r == Open(k) then
          var (evs, r') := Play(Closed, acts[1..]);
          ([Data(k, [])] + evs, r')
        else Play(r, acts[1..])
      case Tell(n) =>
        var (evs, r') := Play(r, acts[1..]);
        ([Notify(n)] + evs, r')
  }

  /** Outcome of one byte with its events spelled out. */
  datatype StepOut = StepOut(ps: Parser, evs: seq<Event>, stop: Stop)

  function Spell(r: Region, o: Out, ch: char): StepOut {
    var (evs, r') := Play(r, o.acts);
    StepOut(o.ps, if r'.Open? && (o.stop.Go? || o.stop.Exited?) then evs + [Data(r'.kind, [ch])] else evs, o.stop)
  }

  function FieldStep(ps: Parser, ch: char): StepOut
  {
    var c := Token(ch);
    if c != '\0' then
      match FieldByte(ps.headerState, ps.index, c, ch)
      case NoResult => StepOut(ps, [], Panicked)
      case Progress(m) => StepOut(ps.(headerState := m.h, index := m.index), [Data(Field, [ch])], Go)
    else if ch == ':' then StepOut(ps.(state := HeaderValueDiscardWs), [Data(Field, [])], Go)
    else StepOut(ps.(errno := InvalidHeaderToken), [], Failed)
  }

  function ValueStep(ps: Parser, ch: char): StepOut
  {
    if ch == CR then StepOut(ps.(state := HeaderAlmostDone), [Data(Value, [])], Go)
    else if ch == LF then StepOut(ps.(state := HeaderValueLws), [Data(Value, [])], Go)
    else if !ps.lenient && !IsHeaderChar(ch) then StepOut(ps.(errno := InvalidHeaderToken), [], Failed)
    else
      var o := ValueByte(ps, ch);
      StepOut(o.ps, if o.stop.Go? then [Data(Value, [ch])] else [], o.stop)
  }

  function BodyStep(ps: Parser, ch: char): StepOut
  {
    if ps.contentLength == 0 || ps.contentLength == ULLONG_MAX then StepOut(ps, [], Panicked)
    else
      var q := ps.(contentLength := ps.contentLength - 1);
      if q.contentLength == 0 then
        var o := MessageDoneStep(q.(state := MessageDone));
        StepOut(o.ps, [Data(Body, [ch]), Notify(MessageComplete)], o.stop)
      else StepOut(q, [Data(Body, [ch])], Go)
  }

  function ChunkDataStep(ps: Parser, ch: char): StepOut
  {
    if !ps.flags.chunked || ps.contentLength == 0 || ps.contentLength == ULLONG_MAX then StepOut(ps, [], Panicked)
    else
      var q := ps.(contentLength := ps.contentLength - 1);
      StepOut(if q.contentLength == 0 then q.(state := ChunkDataAlmostDone) else q, [Data(Body, [ch])], Go)
  }

  /** The whole parser as a machine that sees one byte at a time. */
  function Step(ps: Parser, ch: char): StepOut {
    match ps.state
    case HeaderField => FieldStep(ps, ch)
    case HeaderValue => ValueStep(ps, ch)
    case BodyIdentity => BodyStep(ps, ch)
    case BodyIdentityEof => StepOut(ps, [Data(Body, [ch])], Go)
    case ChunkData => ChunkDataStep(ps, ch)
    case _ => Spell(RegionOf(ps.state), PlainStep(ps, ch), ch)
  }
}
