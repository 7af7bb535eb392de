/**
 URLs written part by part: `http_parser_parse_url` takes every one of them and gives its parts back.
 */
module HttpUrlText {
  import opened HttpMachine
  import opened HttpUrl
  import opened HttpParseUrl

  /**
   Where the parts of a written URL end. The host begins at `start`; userinfo, port, path and query are missing
   when they would be empty, and so is the fragment.
   */
  datatype Cuts = Cuts(schema: nat, start: nat, host: nat, port: nat, path: nat, query: nat)

  predicate QueryByte(c: char) { IsUrlChar(c) || c == '?' }

  predicate FragmentByte(c: char) { QueryByte(c) || c == '#' }

  ghost predicate AuthorityText(buf: seq<char>, c: Cuts) {
    && 0 < c.schema && c.schema + 3 <= c.start < c.host <= c.port <= |buf|
    && (forall i | 0 <= i < c.schema :: IsAlpha(buf[i]))
    && buf[c.schema] == ':' && buf[c.schema + 1] == '/' && buf[c.schema + 2] == '/'
    && (c.start > c.schema + 3 ==>
          c.schema + 4 < c.start && buf[c.start - 1] == '@'
          && forall i | c.schema + 3 <= i < c.start - 1 :: IsUserinfoChar(buf[i]))
    && (forall i | c.start <= i < c.host :: IsHostChar(buf[i]))
    && (c.port > c.host ==>
          c.host + 1 < c.port && buf[c.host] == ':' && forall i | c.host + 1 <= i < c.port :: IsNum(buf[i]))
  }

  ghost predicate TailText(buf: seq<char>, c: Cuts) {
    && c.port <= c.path <= c.query <= |buf|
    && (c.path > c.port ==> buf[c.port] == '/' && forall i | c.port <= i < c.path :: IsUrlChar(buf[i]))
    && (c.query > c.path ==>
          c.path + 1 < c.query && buf[c.path] == '?' && forall i | c.path + 1 <= i < c.query :: QueryByte(buf[i]))
    && (|buf| > c.query ==>
          c.port < c.query && c.query + 1 < |buf| && buf[c.query] == '#' && buf[c.query + 1] != '#'
          && forall i | c.query + 1 <= i < |buf| :: FragmentByte(buf[i]))
  }

  /**
   schema "://" [userinfo "@"] host [":" port] [path] ["?" query] ["#" fragment], with a path or a query before a
   fragment.
   */
  ghost predicate Written(buf: seq<char>, c: Cuts) { Ordered(c, |buf|) && AuthorityText(buf, c) && TailText(buf, c) }

  predicate Ordered(c: Cuts, n: nat) {
    c.schema + 3 <= c.start <= c.host <= c.port <= c.path <= c.query <= n && (c.port > c.host ==> c.host + 1 < c.port)
  }

  function SpanOf(c: Cuts, n: nat, p: Part): Span
    requires Ordered(c, n)
  {
    match p
    case Schema => Span(0, c.schema)
    case Userinfo => Span(c.schema + 3, if c.start > c.schema + 3 then c.start - 1 - (c.schema + 3) else 0)
    case Host => Span(c.start, c.host - c.start)
    case Port => Span(c.host + 1, if c.port > c.host then c.port - c.host - 1 else 0)
    case Path => Span(c.port, c.path - c.port)
    case Query => Span(c.path + 1, if c.query > c.path then c.query - c.path - 1 else 0)
    case Fragment => Span(c.query + 1, if n > c.query then n - c.query - 1 else 0)
  }

  /** The parts as written. */
  ghost predicate AsWritten(c: Cuts, n: nat, parts: map<Part, Span>)
    requires Ordered(c, n)
  {
    forall p: Part :: (p in parts <==> SpanOf(c, n, p).len > 0) && (p in parts ==> parts[p] == SpanOf(c, n, p))
  }

  // ---------------------------------------------------------------- the URL automaton

  /** The state after the first `n` bytes. */
  function StateAt(buf: seq<char>, c: Cuts, n: nat): State
    requires n <= |buf|
  {
    if n == 0 then ReqSpacesBeforeUrl
    else if n <= c.schema then ReqSchema
    else if n == c.schema + 1 then ReqSchemaSlash
    else if n == c.schema + 2 then ReqSchemaSlashSlash
    else if n == c.schema + 3 then ReqServerStart
    else if n <= c.port then (if buf[n - 1] == '@' then ReqServerWithAt else ReqServer)
    else if n <= c.path then ReqPath
    else if n <= c.query then (if n == c.path + 1 then ReqQueryStringStart else ReqQueryString)
    else if n == c.query + 1 then ReqFragmentStart
    else ReqFragment
  }

  lemma ServerBytes(buf: seq<char>, c: Cuts, i: nat)
    requires AuthorityText(buf, c) && c.schema + 3 <= i < c.port
    ensures if i == c.start - 1 then buf[i] == '@' else IsUserinfoChar(buf[i])
  {
    if i < c.start - 1 {
      assert IsUserinfoChar(buf[i]);
    } else if i == c.start - 1 {
    } else if i < c.host {
      assert IsHostChar(buf[i]);
    } else if i > c.host {
      assert IsNum(buf[i]);
    }
  }

  lemma FrontStep(buf: seq<char>, c: Cuts, n: nat)
    requires AuthorityText(buf, c) && n < c.port
    ensures ParseUrlChar(StateAt(buf, c, n), buf[n]) == StateAt(buf, c, n + 1)
  {
    if n < c.schema {
      assert IsAlpha(buf[n]);
    } else if n >= c.schema + 3 {
      ServerBytes(buf, c, n);
      if n > c.schema + 3 { ServerBytes(buf, c, n - 1); }
    }
  }

  lemma TailStep(buf: seq<char>, c: Cuts, n: nat)
    requires Written(buf, c) && c.port <= n < |buf|
    ensures ParseUrlChar(StateAt(buf, c, n), buf[n]) == StateAt(buf, c, n + 1)
  {
    if n < c.path {
      assert IsUrlChar(buf[n]);
    } else if c.path < n < c.query {
      assert QueryByte(buf[n]);
    } else if c.query < n {
      assert FragmentByte(buf[n]);
    }
  }

  lemma {:induction false} FrontStates(buf: seq<char>, c: Cuts, n: nat)
    requires AuthorityText(buf, c) && n <= c.port
    ensures UrlState(buf, false, n) == StateAt(buf, c, n)
  {
    hide ParseUrlChar, StateAt, AuthorityText;
    if n > 0 {
      FrontStates(buf, c, n - 1);
      FrontStep(buf, c, n - 1);
    } else {
      StateZero(buf, c);
    }
  }

  /** Behind a host the automaton does not take a fragment: it needs a path or a query first. */
  lemma FragmentNeedsPath(buf: seq<char>, c: Cuts)
    requires AuthorityText(buf, c) && c.port < |buf| && buf[c.port] == '#'
    ensures UrlState(buf, false, |buf|).Dead?
  {
    FrontStates(buf, c, c.port);
    ServerBytes(buf, c, c.port - 1);
    hide UrlState;
    UrlNext(buf, c.port);
    DeadStays(buf, false, c.port + 1, |buf|);
  }

  lemma UrlNext(buf: seq<char>, n: nat)
    requires n < |buf|
    ensures UrlState(buf, false, n + 1) == ParseUrlChar(UrlState(buf, false, n), buf[n])
  {
    hide ParseUrlChar;
  }

  lemma {:induction false} StatesAsWritten(buf: seq<char>, c: Cuts, n: nat)
    requires Written(buf, c) && n <= |buf|
    ensures UrlState(buf, false, n) == StateAt(buf, c, n)
  {
    hide ParseUrlChar, StateAt;
    if n <= c.port {
      FrontStates(buf, c, n);
    } else {
      StatesAsWritten(buf, c, n - 1);
      hide AuthorityText, TailText;
      StepAsWritten(buf, c, n - 1);
    }
  }

  lemma StateZero(buf: seq<char>, c: Cuts)
    ensures StateAt(buf, c, 0) == ReqSpacesBeforeUrl
  {
  }

  lemma StepAsWritten(buf: seq<char>, c: Cuts, n: nat)
    requires Written(buf, c) && n < |buf|
    ensures ParseUrlChar(StateAt(buf, c, n), buf[n]) == StateAt(buf, c, n + 1)
  {
    hide ParseUrlChar, StateAt;
    if n < c.port { FrontStep(buf, c, n); } else { TailStep(buf, c, n); }
  }

  // ---------------------------------------------------------------- the host automaton

  /** The state of the host automaton after byte `n - 1`. */
  function HostAt(c: Cuts, n: nat): HostState {
    if n == c.schema + 3 then (if c.start > n then UserinfoStart else HostStart)
    else if n < c.start then InUserinfo
    else if n == c.start then HostStart
    else if n <= c.host then InHost
    else if n == c.host + 1 then PortStart
    else InPort
  }

  lemma HostStepAsWritten(buf: seq<char>, c: Cuts, n: nat)
    requires AuthorityText(buf, c) && c.schema + 3 <= n < c.port
    ensures HostChar(HostAt(c, n), buf[n]) == HostAt(c, n + 1)
  {
    if n < c.start - 1 {
      assert IsUserinfoChar(buf[n]);
    } else if c.start <= n < c.host {
      assert IsHostChar(buf[n]);
    } else if n > c.host {
      assert IsNum(buf[n]);
    }
  }

  lemma {:induction false} HostAsWritten(buf: seq<char>, c: Cuts, n: nat)
    requires AuthorityText(buf, c) && c.schema + 3 <= n <= c.port
    ensures HostRun(buf, c.schema + 3, n, c.start > c.schema + 3) == HostAt(c, n)
  {
    if n > c.schema + 3 {
      HostAsWritten(buf, c, n - 1);
      HostStepAsWritten(buf, c, n - 1);
    }
  }

  // ---------------------------------------------------------------- labels and parts

  /** A part is the run of its label. */
  lemma RunIsPart(labels: seq<Label>, parts: map<Part, Span>, p: Part, s: Span)
    requires Fit(labels, parts) && (s.len == 0 || s.off + s.len <= |labels|)
    requires forall i | 0 <= i < |labels| :: labels[i] == In(p) <==> Within(i, s)
    ensures p in parts <==> s.len > 0
    ensures p in parts ==> parts[p] == s
  {
    if p in parts {
      var lo, hi := parts[p].off, parts[p].off + parts[p].len - 1;
      assert Within(lo, parts[p]) && Within(hi, parts[p]);
      assert labels[lo] == In(p) && labels[hi] == In(p);
    }
    if s.len > 0 {
      var lo, hi := s.off, s.off + s.len - 1;
      assert Within(lo, s) && Within(hi, s);
      assert labels[lo] == In(p) && labels[hi] == In(p);
      assert Within(lo, parts[p]) && Within(hi, parts[p]);
    }
  }

  lemma HostZone(buf: seq<char>, c: Cuts, i: nat)
    requires Written(buf, c) && i < |buf|
    ensures ZonePart(StateAt(buf, c, i + 1)) == In(Host) <==> c.schema + 3 <= i < c.port
  {
  }

  lemma RawLabels(buf: seq<char>, c: Cuts, labels: seq<Label>, raw: map<Part, Span>, i: nat)
    requires Written(buf, c) && Splits(buf, false, labels, raw) && i < |labels|
    ensures |labels| == |buf| && labels[i] == ZonePart(StateAt(buf, c, i + 1))
  {
    hide ParseUrlChar, StateAt, ZonePart, Fit, InOrder, Anchored, AuthorityText, TailText;
    StatesAsWritten(buf, c, i + 1);
  }

  lemma SplitsFit(buf: seq<char>, labels: seq<Label>, raw: map<Part, Span>)
    requires Splits(buf, false, labels, raw)
    ensures |labels| == |buf| && Fit(labels, raw)
  {
  }

  /**
   The raw host of a written URL is everything from "//" to the path, and it has an '@' exactly when there is userinfo.
   */
  lemma RawHost(buf: seq<char>, c: Cuts, labels: seq<Label>, raw: map<Part, Span>)
    requires Written(buf, c) && Splits(buf, false, labels, raw)
    ensures Host in raw && raw[Host] == Span(c.schema + 3, c.port - c.schema - 3)
    ensures HasAt(buf, labels) <==> c.start > c.schema + 3
  {
    hide ParseUrlChar, UrlState, StateAt, ZonePart, Fit, Splits, IsUserinfoChar, IsHostChar, IsUrlChar;
    var s := Span(c.schema + 3, c.port - c.schema - 3);
    SplitsFit(buf, labels, raw);
    forall i | 0 <= i < |labels| ensures labels[i] == In(Host) <==> Within(i, s) {
      RawLabels(buf, c, labels, raw, i);
      HostZone(buf, c, i);
    }
    RunIsPart(labels, raw, Host, s);
    AtSign(buf, c, labels);
  }

  lemma AtSign(buf: seq<char>, c: Cuts, labels: seq<Label>)
    requires AuthorityText(buf, c) && |labels| == |buf|
    requires forall i | 0 <= i < |labels| ::
               labels[i] == In(Host) <==> Within(i, Span(c.schema + 3, c.port - c.schema - 3))
    ensures HasAt(buf, labels) <==> c.start > c.schema + 3
  {
    if c.start > c.schema + 3 {
      assert Within(c.start - 1, Span(c.schema + 3, c.port - c.schema - 3));
      assert labels[c.start - 1] == In(Host);
    } else if HasAt(buf, labels) {
      var i :| 0 <= i < |labels| && labels[i] == In(Host) && buf[i] == '@';
      assert Within(i, Span(c.schema + 3, c.port - c.schema - 3));
      ServerBytes(buf, c, i);
    }
  }

  /** The final label of a byte of a written URL. */
  function LabelAt(buf: seq<char>, c: Cuts, i: nat): Label
    requires i < |buf|
  {
    if c.schema + 3 <= i < c.port then HostPartOf(HostAt(c, i + 1)) else ZonePart(StateAt(buf, c, i + 1))
  }

  lemma LabelsAsWritten(buf: seq<char>, c: Cuts, rawLabels: seq<Label>, raw: map<Part, Span>, labels: seq<Label>,
                        i: nat)
    requires Written(buf, c) && Splits(buf, false, rawLabels, raw) && FinalLabels(buf, rawLabels, raw, labels)
    requires i < |buf|
    ensures labels[i] == LabelAt(buf, c, i)
  {
    hide ParseUrlChar, HostChar, StateAt, HostAt, HasAt, UrlState, ZonePart, IsUserinfoChar, IsHostChar, IsUrlChar,
         HostPartOf, Splits;
    RawHost(buf, c, rawLabels, raw);
    if c.schema + 3 <= i < c.port {
      assert Within(i, raw[Host]);
      HostAsWritten(buf, c, i + 1);
    } else {
      RawLabels(buf, c, rawLabels, raw, i);
    }
  }

  lemma LabelSpans(buf: seq<char>, c: Cuts, i: nat, p: Part)
    requires Written(buf, c) && i < |buf|
    ensures LabelAt(buf, c, i) == In(p) <==> Within(i, SpanOf(c, |buf|, p))
  {
  }

  lemma PartAsWritten(buf: seq<char>, c: Cuts, rawLabels: seq<Label>, raw: map<Part, Span>, labels: seq<Label>,
                      parts: map<Part, Span>, p: Part)
    requires Written(buf, c) && Splits(buf, false, rawLabels, raw) && FinalLabels(buf, rawLabels, raw, labels)
    requires Fit(labels, parts)
    ensures (p in parts <==> SpanOf(c, |buf|, p).len > 0) && (p in parts ==> parts[p] == SpanOf(c, |buf|, p))
  {
    var s := SpanOf(c, |buf|, p);
    assert |labels| == |buf| && (s.len == 0 || s.off + s.len <= |labels|);
    hide Written, Splits, FinalLabels, Fit, LabelAt, SpanOf;
    forall i | 0 <= i < |labels| ensures labels[i] == In(p) <==> Within(i, s) {
      LabelsAsWritten(buf, c, rawLabels, raw, labels, i);
      LabelSpans(buf, c, i, p);
    }
    RunIsPart(labels, parts, p, s);
  }

  /** Every written URL is split, its host is well formed, and the parts found are the parts written. */
  lemma WrittenIsFound(buf: seq<char>, c: Cuts, rawLabels: seq<Label>, raw: map<Part, Span>, labels: seq<Label>,
                       parts: map<Part, Span>)
    requires Written(buf, c) && Splits(buf, false, rawLabels, raw)
    ensures HostFits(buf, rawLabels, raw)
    ensures Describes(buf, labels, parts) && FinalLabels(buf, rawLabels, raw, labels) ==> AsWritten(c, |buf|, parts)
  {
    hide FinalLabels, Fit, Splits, UrlState, HasAt, IsUserinfoChar, IsHostChar, IsUrlChar, HostChar, SpanOf;
    RawHost(buf, c, rawLabels, raw);
    HostAsWritten(buf, c, c.port);
    if Describes(buf, labels, parts) && FinalLabels(buf, rawLabels, raw, labels) {
      forall p: Part
        ensures (p in parts <==> SpanOf(c, |buf|, p).len > 0) && (p in parts ==> parts[p] == SpanOf(c, |buf|, p))
      {
        PartAsWritten(buf, c, rawLabels, raw, labels, parts, p);
      }
    }
  }

  /**
   Writing a URL and splitting it: taken exactly when the number read at the port fits 16 bits, with the parts as
   written.
   */
  method ReadWritten(mem: seq<char>, buflen: nat, c: Cuts) returns (ok: bool, u: Url)
    requires buflen <= |mem| && buflen <= 65535 && Written(mem[..buflen], c)
    ensures ok <==> (c.port > c.host ==> RunValue(mem, c.host + 1, 0) <= 0xffff)
    ensures ok ==> AsWritten(c, buflen, u.parts)
    ensures ok ==> u.port == if c.port > c.host then RunValue(mem, c.host + 1, 0) else 0
  {
    ghost var raw, rawLabels, labels;
    hide Verdict, Written, RunValue, AsWritten;
    ok, u, raw, rawLabels, labels := ParseUrl(mem, buflen, false);
    WrittenVerdict(mem, mem[..buflen], c, ok, u, raw, rawLabels, labels);
  }

  lemma WrittenVerdict(mem: seq<char>, buf: seq<char>, c: Cuts, ok: bool, u: Url, raw: map<Part, Span>,
                       rawLabels: seq<Label>, labels: seq<Label>)
    requires Written(buf, c) && buf <= mem && Verdict(mem, buf, false, ok, u, raw, rawLabels, labels)
    ensures ok <==> (c.port > c.host ==> RunValue(mem, c.host + 1, 0) <= 0xffff)
    ensures ok ==> AsWritten(c, |buf|, u.parts)
    ensures ok ==> u.port == if c.port > c.host then RunValue(mem, c.host + 1, 0) else 0
  {
    hide UrlState, Splits, HostFits, Describes, FinalLabels, RunValue, AsWritten, AuthorityText, TailText;
    WrittenLives(buf, c);
    WrittenIsFound(buf, c, rawLabels, raw, labels, u.parts);
    WrittenPort(c, |buf|, u.parts);
  }

  lemma WrittenLives(buf: seq<char>, c: Cuts)
    requires Written(buf, c)
    ensures !UrlState(buf, false, |buf|).Dead?
  {
    StatesAsWritten(buf, c, |buf|);
  }

  lemma WrittenPort(c: Cuts, n: nat, parts: map<Part, Span>)
    requires Ordered(c, n) && AsWritten(c, n, parts)
    ensures Port in parts <==> c.port > c.host
    ensures Port in parts ==> parts[Port].off == c.host + 1
  {
  }

  /** A URL with a fragment directly behind its host is refused. */
  method RefuseFragment(mem: seq<char>, buflen: nat, c: Cuts) returns (ok: bool)
    requires buflen <= |mem| && buflen <= 65535 && AuthorityText(mem[..buflen], c) && c.port < buflen
    requires mem[c.port] == '#'
    ensures !ok
  {
    var u;
    ghost var raw, rawLabels, labels;
    FragmentNeedsPath(mem[..buflen], c);
    hide AuthorityText, UrlState;
    ok, u, raw, rawLabels, labels := ParseUrl(mem, buflen, false);
  }

  /** "http://h#f" is such a URL. */
  method RefusedExample() returns (ok: bool)
    ensures !ok
  {
    var mem := "http://h#f";
    assert mem[..10] == mem;
    ok := RefuseFragment(mem, 10, Cuts(4, 7, 8, 8, 8, 8));
  }

  /** The first seven bytes of the memory "a://h:80" are taken, with the port field "8" and the port number 80. */
  method ReadsOnExample() returns (ok: bool, u: Url)
    ensures ok && Port in u.parts && u.parts[Port] == Span(6, 1) && u.port == 80
  {
    var mem := "a://h:80";
    var c := Cuts(1, 4, 5, 7, 7, 7);
    assert mem[..7] == "a://h:8";
    assert Written(mem[..7], c);
    NumberReadOn();
    ok, u := ReadWritten(mem, 7, c);
    assert SpanOf(c, 7, Port) == Span(6, 1);
  }

  lemma NumberReadOn()
    ensures RunValue("a://h:80", 6, 0) == 80
  {
    var mem := "a://h:80";
    assert RunValue(mem, 8, 80) == 80;
    assert RunValue(mem, 7, 8) == 80;
  }
}
