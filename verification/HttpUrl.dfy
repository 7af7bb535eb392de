/**
 `http_parser_parse_url`: splitting a URL (section 3 of RFC 3986) into its parts.
 A URL has at most 65535 bytes, so offsets and lengths fit their 16-bit fields.
 */
module HttpUrl {
  import opened HttpMachine

  datatype Part = Schema | Userinfo | Host | Port | Path | Query | Fragment

  /** Where a part stands in a URL. */
  function Rank(p: Part): nat {
    match p
    case Schema => 0 case Userinfo => 1 case Host => 2 case Port => 3 case Path => 4 case Query => 5 case Fragment => 6
  }

  datatype Span = Span(off: nat, len: nat)

  /** The parts that are set, with their spans, and the port number. */
  datatype Url = Parsed(parts: map<Part, Span>, port: nat)

  /** What a byte of the URL belongs to. */
  datatype Label = Gap | In(part: Part)

  predicate IsDelimiter(c: char) { c == ':' || c == '/' || c == '?' || c == '#' || c == '@' || c == '[' || c == ']' }

  // ---------------------------------------------------------------- labelled bytes

  predicate Within(i: int, s: Span) { s.off <= i < s.off + s.len }

  /** Each set part covers exactly the bytes that bear its label. */
  ghost predicate Fit(labels: seq<Label>, parts: map<Part, Span>) {
    && (forall p | p in parts :: parts[p].len >= 1 && parts[p].off + parts[p].len <= |labels|)
    && (forall i | 0 <= i < |labels| && labels[i].In? :: labels[i].part in parts && Within(i, parts[labels[i].part]))
    && (forall p, i | p in parts && 0 <= i < |labels| && Within(i, parts[p]) :: labels[i] == In(p))
  }

  /** Labels come in the order of the parts, and only delimiters have none. */
  ghost predicate InOrder(buf: seq<char>, labels: seq<Label>)
    requires |labels| <= |buf|
  {
    && (forall i, j | 0 <= i < j < |labels| && labels[i].In? && labels[j].In? ::
          Rank(labels[i].part) <= Rank(labels[j].part))
    && (forall i | 0 <= i < |labels| && labels[i].Gap? :: IsDelimiter(buf[i]))
  }

  lemma RankInjective(p: Part, q: Part)
    requires Rank(p) == Rank(q)
    ensures p == q
  {
  }

  /** Parts are disjoint, in bounds and in the order schema, userinfo, host, port, path, query, fragment. */
  lemma PartsInOrder(buf: seq<char>, labels: seq<Label>, parts: map<Part, Span>, p: Part, q: Part)
    requires |labels| <= |buf| && Fit(labels, parts) && InOrder(buf, labels) && p in parts && q in parts
    requires Rank(p) < Rank(q)
    ensures parts[p].off + parts[p].len <= parts[q].off < parts[q].off + parts[q].len <= |labels|
  {
    var i, j := parts[p].off + parts[p].len - 1, parts[q].off;
    assert Within(i, parts[p]) && Within(j, parts[q]);
    assert labels[i] == In(p) && labels[j] == In(q);
  }

  /** One more byte without a part. */
  lemma AddGap(buf: seq<char>, labels: seq<Label>, parts: map<Part, Span>)
    requires |labels| < |buf| && Fit(labels, parts) && InOrder(buf, labels) && IsDelimiter(buf[|labels|])
    ensures Fit(labels + [Gap], parts) && InOrder(buf, labels + [Gap])
  {
    var l := labels + [Gap];
    assert forall i | 0 <= i < |labels| :: l[i] == labels[i];
  }

  /** One more byte of a part that has just begun. */
  lemma AddNew(buf: seq<char>, labels: seq<Label>, parts: map<Part, Span>, p: Part)
    requires |labels| < |buf| && Fit(labels, parts) && InOrder(buf, labels) && p !in parts
    requires forall q | q in parts :: Rank(q) < Rank(p)
    ensures Fit(labels + [In(p)], parts[p := Span(|labels|, 1)]) && InOrder(buf, labels + [In(p)])
  {
    var l := labels + [In(p)];
    assert forall i | 0 <= i < |labels| :: l[i] == labels[i];
  }

  /** One more byte of the part that the last byte belongs to. */
  lemma AddSame(buf: seq<char>, labels: seq<Label>, parts: map<Part, Span>, p: Part)
    requires |labels| < |buf| && Fit(labels, parts) && InOrder(buf, labels) && p in parts
    requires labels != [] && labels[|labels| - 1] == In(p)
    requires forall q | q in parts :: Rank(q) <= Rank(p)
    ensures parts[p].off + parts[p].len == |labels|
    ensures Fit(labels + [In(p)], parts[p := Span(parts[p].off, parts[p].len + 1)]) && InOrder(buf, labels + [In(p)])
  {
    var l := labels + [In(p)];
    assert forall i | 0 <= i < |labels| :: l[i] == labels[i];
    assert Within(|labels| - 1, parts[p]);
    forall q, i | q in parts && q != p && 0 <= i < |l| && Within(i, parts[q]) ensures l[i] == In(q) {
      assert i < |labels|;
    }
  }

  // ---------------------------------------------------------------- the raw split

  datatype Last = None | Some(part: Part)

  /** The states of the URL machine, by what they say about the URL so far. */
  datatype Zone =
    | AtStart | InSchema | Colon | Slash | ServerStart | Server | InPath | QueryStart | InQuery | FragmentStart
    | InFragment | Nowhere

  function ZoneOf(s: State): Zone {
    match s
    case ReqSpacesBeforeUrl => AtStart
    case ReqSchema => InSchema
    case ReqSchemaSlash => Colon
    case ReqSchemaSlashSlash => Slash
    case ReqServerStart => ServerStart
    case ReqServer | ReqServerWithAt => Server
    case ReqPath => InPath
    case ReqQueryStringStart => QueryStart
    case ReqQueryString => InQuery
    case ReqFragmentStart => FragmentStart
    case ReqFragment => InFragment
    case _ => Nowhere
  }

  /** The part a zone stands for; a delimiter stands for none. */
  function PartOf(z: Zone): Label {
    match z
    case InSchema => In(Schema)
    case Server => In(Host)
    case InPath => In(Path)
    case InQuery => In(Query)
    case InFragment => In(Fragment)
    case _ => Gap
  }

  predicate Raw(p: Part) { p.Schema? || p.Host? || p.Path? || p.Query? || p.Fragment? }

  /** What a zone says about the last part and the bytes just read. */
  ghost predicate Follows(z: Zone, last: Last, buf: seq<char>, n: nat, parts: map<Part, Span>)
    requires n <= |buf|
  {
    match z
    case AtStart => n == 0 && last.None?
    case InSchema => last == Some(Schema)
    case Colon => last == Some(Schema) && SchemaEnds(buf, parts, n, 1)
    case Slash => last == Some(Schema) && SchemaEnds(buf, parts, n, 2)
    case ServerStart => (n == 0 && last.None?) || (last == Some(Schema) && SchemaEnds(buf, parts, n, 3))
    case Server => last == Some(Host)
    case InPath => last == Some(Path)
    case QueryStart => n > 0 && buf[n - 1] == '?' && (last.Some? ==> Rank(last.part) < Rank(Query))
    case InQuery => last == Some(Query)
    case FragmentStart => n > 0 && buf[n - 1] == '#' && (last.Some? ==> Rank(last.part) < Rank(Fragment))
    case InFragment => last == Some(Fragment)
    case Nowhere => false
  }

  /** The schema lies at the front and the first `k` bytes of "://" have followed it. */
  predicate SchemaEnds(buf: seq<char>, parts: map<Part, Span>, n: nat, k: nat)
    requires n <= |buf|
  {
    && k <= n && Schema in parts && parts[Schema] == Span(0, n - k)
    && (k >= 1 ==> buf[n - k] == ':') && (k >= 2 ==> buf[n - k + 1] == '/') && (k >= 3 ==> buf[n - k + 2] == '/')
  }

  /** How each part begins. */
  ghost predicate Anchored(buf: seq<char>, parts: map<Part, Span>) {
    && (Schema in parts ==> parts[Schema].off == 0)
    && (Path in parts ==> parts[Path].off < |buf| && (buf[parts[Path].off] == '/' || buf[parts[Path].off] == '*'))
    && (Query in parts ==> 0 < parts[Query].off <= |buf| && buf[parts[Query].off - 1] == '?')
    && (Fragment in parts ==> 0 < parts[Fragment].off <= |buf| && buf[parts[Fragment].off - 1] == '#')
    && (Schema in parts && Host in parts ==>
          var n := parts[Schema].len; n + 3 <= |buf| && buf[n] == ':' && buf[n + 1] == '/' && buf[n + 2] == '/')
  }

  ghost predicate Splitting(buf: seq<char>, z: Zone, last: Last, labels: seq<Label>, parts: map<Part, Span>) {
    && |labels| <= |buf| && Fit(labels, parts) && InOrder(buf, labels) && Anchored(buf, parts)
    && (forall p | p in parts :: Raw(p) && last.Some? && Rank(p) <= Rank(last.part))
    && (last.Some? ==> last.part in parts)
    && Follows(z, last, buf, |labels|, parts)
    && (PartOf(z).In? ==> labels != [] && labels[|labels| - 1] == PartOf(z))
  }

  predicate InServer(z: Zone) { z.ServerStart? || z.Server? }

  /** Where each zone can be entered from, and on which byte. */
  predicate Leads(z: Zone, ch: char, z': Zone) {
    match z'
    case InSchema => z.AtStart? || z.InSchema?
    case Colon => z.InSchema? && ch == ':'
    case Slash => z.Colon? && ch == '/'
    case ServerStart => z.Slash? && ch == '/'
    case Server => InServer(z)
    case InPath => z.InPath? || (z.AtStart? && (ch == '/' || ch == '*')) || (InServer(z) && ch == '/')
    case QueryStart => ch == '?' && (InServer(z) || z.InPath?)
    case InQuery => z.QueryStart? || z.InQuery?
    case FragmentStart => ch == '#' && (z.InPath? || z.QueryStart? || z.InQuery? || z.FragmentStart?)
    case InFragment => z.FragmentStart? || z.InFragment?
    case _ => false
  }

  lemma Moves(s: State, ch: char)
    ensures !ParseUrlChar(s, ch).Dead? ==> Leads(ZoneOf(s), ch, ZoneOf(ParseUrlChar(s, ch)))
  {
  }

  /** The table after a byte that leads to zone `z`, the `n`-th of the URL. */
  function Noted(parts: map<Part, Span>, last: Last, z: Zone, n: nat): map<Part, Span> {
    match PartOf(z)
    case Gap => parts
    case In(p) =>
      if last == Some(p) && p in parts then parts[p := Span(parts[p].off, parts[p].len + 1)] else parts[p := Span(n, 1)]
  }

  function LastAfter(last: Last, z: Zone): Last { if PartOf(z).In? then Some(PartOf(z).part) else last }

  /** A delimiter. */
  lemma SplitGap(buf: seq<char>, z: Zone, last: Last, labels: seq<Label>, parts: map<Part, Span>, z': Zone)
    requires |labels| < |buf| && Splitting(buf, z, last, labels, parts) && Leads(z, buf[|labels|], z')
    requires PartOf(z').Gap?
    ensures Splitting(buf, z', last, labels + [Gap], parts)
  {
    hide Fit, InOrder, Anchored;
    assert IsDelimiter(buf[|labels|]);
    AddGap(buf, labels, parts);
    if z'.Colon? { SchemaLast(buf, labels, parts); }
  }

  /** A schema that has just ended fills everything before. */
  lemma SchemaLast(buf: seq<char>, labels: seq<Label>, parts: map<Part, Span>)
    requires |labels| <= |buf| && Fit(labels, parts) && Anchored(buf, parts) && labels != []
    requires labels[|labels| - 1] == In(Schema)
    ensures Schema in parts && parts[Schema] == Span(0, |labels|)
  {
    assert Within(|labels| - 1, parts[Schema]);
  }

  lemma AnchorSame(buf: seq<char>, parts: map<Part, Span>, p: Part)
    requires Anchored(buf, parts) && p in parts && (p.Schema? ==> Host !in parts)
    ensures Anchored(buf, parts[p := Span(parts[p].off, parts[p].len + 1)])
  {
  }

  /** A byte of the part the last byte belongs to. */
  lemma SplitSame(buf: seq<char>, z: Zone, last: Last, labels: seq<Label>, parts: map<Part, Span>, z': Zone)
    requires |labels| < |buf| && Splitting(buf, z, last, labels, parts) && Leads(z, buf[|labels|], z')
    requires PartOf(z').In? && PartOf(z) == PartOf(z')
    ensures last == Some(PartOf(z').part)
    ensures Splitting(buf, z', last, labels + [PartOf(z')], Noted(parts, last, z', |labels|))
  {
    hide Fit, InOrder, Anchored;
    AnchorSame(buf, parts, PartOf(z').part);
    AddSame(buf, labels, parts, PartOf(z').part);
  }

  /** A byte that begins a part. */
  lemma SplitNew(buf: seq<char>, z: Zone, last: Last, labels: seq<Label>, parts: map<Part, Span>, z': Zone)
    requires |labels| < |buf| && Splitting(buf, z, last, labels, parts) && Leads(z, buf[|labels|], z')
    requires PartOf(z').In? && PartOf(z) != PartOf(z')
    ensures last != Some(PartOf(z').part)
    ensures Splitting(buf, z', LastAfter(last, z'), labels + [PartOf(z')], Noted(parts, last, z', |labels|))
  {
    hide Fit, InOrder, Anchored;
    var p := PartOf(z').part;
    assert last.Some? ==> Rank(last.part) < Rank(p);
    AddNew(buf, labels, parts, p);
    AnchorNew(buf, z, last, labels, parts, z');
  }

  /** A new part begins as it must. */
  lemma AnchorNew(buf: seq<char>, z: Zone, last: Last, labels: seq<Label>, parts: map<Part, Span>, z': Zone)
    requires |labels| < |buf| && Splitting(buf, z, last, labels, parts) && Leads(z, buf[|labels|], z')
    requires PartOf(z').In? && PartOf(z) != PartOf(z') && PartOf(z').part !in parts
    ensures Anchored(buf, parts[PartOf(z').part := Span(|labels|, 1)])
  {
    hide Fit, InOrder;
  }

  // ---------------------------------------------------------------- the host part

  datatype HostState =
    | HostDead | UserinfoStart | InUserinfo | HostStart | V6Start | InHost | V6 | V6End | V6ZoneStart | V6Zone
    | PortStart | InPort

  predicate IsHostChar(c: char) { IsAlpha(c) || IsNum(c) || c == '.' || c == '-' }

  predicate IsHex(c: char) { IsNum(c) || 'a' <= Lower(c) <= 'f' }

  predicate IsZoneChar(c: char) { IsAlpha(c) || IsNum(c) || c == '%' || c == '.' || c == '-' || c == '_' || c == '~' }

  /** `http_parse_host_char`. */
  function HostChar(s: HostState, ch: char): HostState {
    match s
    case UserinfoStart | InUserinfo =>
      if ch == '@' then HostStart else if IsUserinfoChar(ch) then InUserinfo else HostDead
    case HostStart => if ch == '[' then V6Start else if IsHostChar(ch) then InHost else HostDead
    case InHost => if IsHostChar(ch) then InHost else if ch == ':' then PortStart else HostDead
    case V6End => if ch == ':' then PortStart else HostDead
    case V6 =>
      if ch == ']' then V6End
      else if IsHex(ch) || ch == ':' || ch == '.' then V6
      else if ch == '%' then V6ZoneStart
      else HostDead
    case V6Start => if IsHex(ch) || ch == ':' || ch == '.' then V6 else HostDead
    case V6Zone => if ch == ']' then V6End else if IsZoneChar(ch) then V6Zone else HostDead
    case V6ZoneStart => if IsZoneChar(ch) then V6Zone else HostDead
    case InPort | PortStart => if IsNum(ch) then InPort else HostDead
    case HostDead => HostDead
  }

  function HostPartOf(s: HostState): Label {
    match s
    case InUserinfo => In(Userinfo)
    case InHost | V6 | V6ZoneStart | V6Zone => In(Host)
    case InPort => In(Port)
    case _ => Gap
  }

  /** The largest part that can be set in a state. */
  function Reach(s: HostState): Part {
    match s
    case UserinfoStart | HostDead => Schema
    case InUserinfo | HostStart | V6Start => Userinfo
    case InHost | V6 | V6ZoneStart | V6Zone | V6End | PortStart => Host
    case InPort => Port
  }

  /** How userinfo ends and port begins and what it holds. */
  ghost predicate HostAnchored(buf: seq<char>, s: HostState, n: nat, parts: map<Part, Span>)
    requires n <= |buf|
  {
    && (Userinfo in parts && !s.InUserinfo? ==>
          var e := parts[Userinfo].off + parts[Userinfo].len;
          e < n && buf[e] == '@')
    && (s.PortStart? ==> n > 0 && buf[n - 1] == ':')
    && (Port in parts ==>
          var f := parts[Port];
          0 < f.off && f.off + f.len <= n && buf[f.off - 1] == ':' && AllDigits(buf, f.off, f.off + f.len))
  }

  predicate AllDigits(buf: seq<char>, lo: nat, hi: nat) { hi <= |buf| && forall i | lo <= i < hi :: IsNum(buf[i]) }

  ghost predicate HostSplitting(buf: seq<char>, s: HostState, labels: seq<Label>, parts: map<Part, Span>) {
    && |labels| <= |buf| && Fit(labels, parts) && InOrder(buf, labels) && HostAnchored(buf, s, |labels|, parts)
    && (forall p | p in parts :: Rank(p) <= Rank(Reach(s)))
    && (Reach(s).Host? || Reach(s).Port? ==> Host in parts)
    && (HostPartOf(s).In? ==> HostPartOf(s).part in parts && labels != [] && labels[|labels| - 1] == HostPartOf(s))
  }

  function HostNoted(parts: map<Part, Span>, s: HostState, s': HostState, n: nat): map<Part, Span> {
    match HostPartOf(s')
    case Gap => parts
    case In(p) =>
      if HostPartOf(s) == In(p) && p in parts then parts[p := Span(parts[p].off, parts[p].len + 1)]
      else parts[p := Span(n, 1)]
  }

  lemma HostGap(buf: seq<char>, s: HostState, labels: seq<Label>, parts: map<Part, Span>, s': HostState)
    requires |labels| < |buf| && HostSplitting(buf, s, labels, parts) && s' == HostChar(s, buf[|labels|])
    requires !s'.HostDead? && HostPartOf(s').Gap?
    ensures HostSplitting(buf, s', labels + [Gap], parts)
  {
    AddGap(buf, labels, parts);
    if s.InUserinfo? { LastPart(labels, parts, Userinfo); }
    hide Fit, InOrder;
  }

  lemma LastPart(labels: seq<Label>, parts: map<Part, Span>, p: Part)
    requires Fit(labels, parts) && labels != [] && labels[|labels| - 1] == In(p)
    ensures p in parts && parts[p].off + parts[p].len == |labels|
  {
    assert Within(|labels| - 1, parts[p]);
  }

  /** Where each part of the host can begin. */
  lemma HostMoves(s: HostState, ch: char)
    ensures var s' := HostChar(s, ch);
            && (HostPartOf(s).In? ==> Reach(s) == HostPartOf(s).part)
            && (HostPartOf(s').In? ==> Reach(s') == HostPartOf(s').part)
            && (s'.InUserinfo? ==> s.UserinfoStart? || s.InUserinfo?)
            && (HostPartOf(s') == In(Host) ==> s.HostStart? || s.V6Start? || HostPartOf(s) == In(Host))
            && (s'.InPort? ==> IsNum(ch) && (s.PortStart? || s.InPort?))
  {
  }

  /** The anchors after one more byte of a part. */
  lemma HostAnchors(buf: seq<char>, s: HostState, labels: seq<Label>, parts: map<Part, Span>, s': HostState, b: Span)
    requires |labels| < |buf| && HostSplitting(buf, s, labels, parts) && s' == HostChar(s, buf[|labels|])
    requires HostPartOf(s').In? && b.off + b.len == |labels| + 1
    requires if HostPartOf(s) == HostPartOf(s') then
               var p := HostPartOf(s').part;
               p in parts && b == Span(parts[p].off, parts[p].len + 1)
             else b == Span(|labels|, 1)
    ensures HostAnchored(buf, s', |labels| + 1, parts[HostPartOf(s').part := b])
  {
    HostMoves(s, buf[|labels|]);
    hide Fit, InOrder, HostChar, IsNum;
  }

  lemma HostSame(buf: seq<char>, s: HostState, labels: seq<Label>, parts: map<Part, Span>, s': HostState)
    requires |labels| < |buf| && HostSplitting(buf, s, labels, parts) && s' == HostChar(s, buf[|labels|])
    requires !s'.HostDead?
    requires HostPartOf(s').In? && HostPartOf(s) == HostPartOf(s')
    ensures HostSplitting(buf, s', labels + [HostPartOf(s')], HostNoted(parts, s, s', |labels|))
  {
    hide Fit, InOrder, HostChar, Rank;
    var p := HostPartOf(s').part;
    HostMoves(s, buf[|labels|]);
    AddSame(buf, labels, parts, p);
    HostAnchors(buf, s, labels, parts, s', Span(parts[p].off, parts[p].len + 1));
    hide HostAnchored;
  }

  lemma HostNew(buf: seq<char>, s: HostState, labels: seq<Label>, parts: map<Part, Span>, s': HostState)
    requires |labels| < |buf| && HostSplitting(buf, s, labels, parts) && s' == HostChar(s, buf[|labels|])
    requires !s'.HostDead?
    requires HostPartOf(s').In? && HostPartOf(s) != HostPartOf(s')
    ensures HostPartOf(s').part !in parts
    ensures HostSplitting(buf, s', labels + [HostPartOf(s')], HostNoted(parts, s, s', |labels|))
  {
    hide Fit, InOrder, HostChar;
    var p := HostPartOf(s').part;
    HostMoves(s, buf[|labels|]);
    AddNew(buf, labels, parts, p);
    HostAnchors(buf, s, labels, parts, s', Span(|labels|, 1));
    hide HostAnchored;
  }

  // ---------------------------------------------------------------- the loops

  /** A URL whose bytes are all labelled. */
  ghost predicate Labelled(buf: seq<char>, labels: seq<Label>, parts: map<Part, Span>) {
    |labels| == |buf| && Fit(labels, parts) && InOrder(buf, labels) && Anchored(buf, parts)
  }

  lemma SplitStart(buf: seq<char>, isConnect: bool)
    ensures Splitting(buf, if isConnect then ServerStart else AtStart, None, [], map[])
  {
  }

  lemma SplitStep(buf: seq<char>, s: State, last: Last, labels: seq<Label>, parts: map<Part, Span>)
    requires |labels| < |buf| && Splitting(buf, ZoneOf(s), last, labels, parts) && !ParseUrlChar(s, buf[|labels|]).Dead?
    ensures var z := ZoneOf(ParseUrlChar(s, buf[|labels|]));
            Splitting(buf, z, LastAfter(last, z), labels + [PartOf(z)], Noted(parts, last, z, |labels|))
            && (PartOf(z).In? && last == Some(PartOf(z).part) ==> PartOf(z).part in parts)
  {
    Moves(s, buf[|labels|]);
    var z, z' := ZoneOf(s), ZoneOf(ParseUrlChar(s, buf[|labels|]));
    hide ParseUrlChar, ZoneOf, Splitting, Leads, Noted;
    if PartOf(z').Gap? {
      SplitGap(buf, z, last, labels, parts, z');
      SplitNotes(parts, last, z', |labels|);
    } else if PartOf(z) == PartOf(z') {
      SplitSame(buf, z, last, labels, parts, z');
      SplitKnows(buf, z, last, labels, parts);
    } else {
      SplitNew(buf, z, last, labels, parts, z');
    }
  }

  lemma SplitNotes(parts: map<Part, Span>, last: Last, z: Zone, n: nat)
    requires PartOf(z).Gap?
    ensures Noted(parts, last, z, n) == parts
  {
  }

  lemma SplitKnows(buf: seq<char>, z: Zone, last: Last, labels: seq<Label>, parts: map<Part, Span>)
    requires Splitting(buf, z, last, labels, parts)
    ensures |labels| <= |buf| && Fit(labels, parts) && InOrder(buf, labels) && Anchored(buf, parts)
    ensures (last.Some? ==> last.part in parts) && forall p | p in parts :: Raw(p)
  {
  }

  /** The automaton after the first `n` bytes. */
  function UrlState(buf: seq<char>, isConnect: bool, n: nat): State
    requires n <= |buf|
  {
    if n == 0 then (if isConnect then ReqServerStart else ReqSpacesBeforeUrl)
    else ParseUrlChar(UrlState(buf, isConnect, n - 1), buf[n - 1])
  }

  /** A rejected byte rejects the URL. */
  lemma {:induction false} DeadStays(buf: seq<char>, isConnect: bool, n: nat, m: nat)
    requires n <= m <= |buf| && UrlState(buf, isConnect, n).Dead?
    ensures UrlState(buf, isConnect, m).Dead?
  {
    if n < m { DeadStays(buf, isConnect, n, m - 1); }
  }

  /** The labels are those of the automaton's states. */
  ghost predicate StateLabels(buf: seq<char>, isConnect: bool, labels: seq<Label>) {
    |labels| <= |buf| && forall i | 0 <= i < |labels| :: labels[i] == ZonePart(UrlState(buf, isConnect, i + 1))
  }

  /** Some byte of the host is an '@'. */
  ghost predicate HasAt(buf: seq<char>, labels: seq<Label>) {
    exists i | 0 <= i < |labels| <= |buf| :: labels[i] == In(Host) && buf[i] == '@'
  }

  lemma HasAtStep(buf: seq<char>, s: State, labels: seq<Label>)
    requires |labels| < |buf|
    ensures var s' := ParseUrlChar(s, buf[|labels|]);
            HasAt(buf, labels + [ZonePart(s')]) <==> HasAt(buf, labels) || s'.ReqServerWithAt?
  {
    var s' := ParseUrlChar(s, buf[|labels|]);
    var l := labels + [ZonePart(s')];
    assert forall i | 0 <= i < |labels| :: l[i] == labels[i];
    assert s'.ReqServerWithAt? <==> l[|labels|] == In(Host) && buf[|labels|] == '@';
    hide ParseUrlChar, ZonePart;
    if HasAt(buf, labels) {
      var i :| 0 <= i < |labels| && labels[i] == In(Host) && buf[i] == '@';
      assert l[i] == In(Host);
    }
  }

  /**
   The loop of `http_parser_parse_url`: the parts before the host is looked into.
   They are the runs of the automaton's labels, and the URL is taken unless a byte kills the automaton.
   */
  method SplitRaw(buf: seq<char>, isConnect: bool)
    returns (ok: bool, parts: map<Part, Span>, foundAt: bool, ghost labels: seq<Label>)
    ensures ok <==> !UrlState(buf, isConnect, |buf|).Dead?
    ensures ok ==>
              Labelled(buf, labels, parts) && StateLabels(buf, isConnect, labels) && forall p | p in parts :: Raw(p)
    ensures ok ==> (foundAt <==> HasAt(buf, labels))
  {
    hide ParseUrlChar, ZoneOf, Splitting, Fit, InOrder, Anchored, HasAt;
    var s := if isConnect then ReqServerStart else ReqSpacesBeforeUrl;
    var oldUf := None;
    parts, foundAt, labels := map[], false, [];
    SplitStart(buf, isConnect);
    ZoneStart(isConnect);
    NoAt(buf);
    var p := 0;
    while p < |buf|
      invariant p <= |buf| && |labels| == p && s == UrlState(buf, isConnect, p) && !s.Dead?
      invariant Splitting(buf, ZoneOf(s), oldUf, labels, parts)
      invariant StateLabels(buf, isConnect, labels)
      invariant foundAt <==> HasAt(buf, labels)
    {
      ghost var s0 := s;
      s := ParseUrlChar(s, buf[p]);
      if s.Dead? {
        DeadStays(buf, isConnect, p + 1, |buf|);
        return false, map[], false, [];
      }
      SplitStep(buf, s0, oldUf, labels, parts);
      HasAtStep(buf, s0, labels);
      if s.ReqServerWithAt? { foundAt := true; }
      match ZonePart(s) {
        case Gap =>
        case In(uf) =>
          if oldUf == Some(uf) {
            parts := parts[uf := Span(parts[uf].off, parts[uf].len + 1)];
          } else {
            parts := parts[uf := Span(p, 1)];
            oldUf := Some(uf);
          }
      }
      labels := labels + [ZonePart(s)];
      p := p + 1;
    }
    SplitKnows(buf, ZoneOf(s), oldUf, labels, parts);
    return true, parts, foundAt, labels;
  }

  lemma NoAt(buf: seq<char>)
    ensures !HasAt(buf, [])
  {
  }

  function ZonePart(s: State): Label { PartOf(ZoneOf(s)) }

  lemma ZoneStart(isConnect: bool)
    ensures ZoneOf(if isConnect then ReqServerStart else ReqSpacesBeforeUrl)
            == if isConnect then ServerStart else AtStart
  {
  }

  lemma HostStep(buf: seq<char>, s: HostState, labels: seq<Label>, parts: map<Part, Span>)
    requires |labels| < |buf| && HostSplitting(buf, s, labels, parts) && !HostChar(s, buf[|labels|]).HostDead?
    ensures var s' := HostChar(s, buf[|labels|]);
            HostSplitting(buf, s', labels + [HostPartOf(s')], HostNoted(parts, s, s', |labels|))
            && (HostPartOf(s').In? ==> (HostPartOf(s) == HostPartOf(s') <==> HostPartOf(s').part in parts))
  {
    var s' := HostChar(s, buf[|labels|]);
    if HostPartOf(s').Gap? {
      HostGap(buf, s, labels, parts, s');
    } else if HostPartOf(s) == HostPartOf(s') {
      HostSame(buf, s, labels, parts, s');
    } else {
      HostNew(buf, s, labels, parts, s');
    }
    hide HostChar, Fit, InOrder, HostAnchored;
  }

  /** `http_parse_host` ends well in three states, and then there is a host. */
  predicate HostDone(s: HostState) { s.InHost? || s.V6End? || s.InPort? }

  /** The host automaton after the bytes [off, n). */
  function HostRun(buf: seq<char>, off: nat, n: nat, foundAt: bool): HostState
    requires off <= n <= |buf|
    decreases n
  {
    if n == off then (if foundAt then UserinfoStart else HostStart)
    else HostChar(HostRun(buf, off, n - 1, foundAt), buf[n - 1])
  }

  lemma {:induction false} HostDeadStays(buf: seq<char>, off: nat, n: nat, m: nat, foundAt: bool)
    requires off <= n <= m <= |buf| && HostRun(buf, off, n, foundAt).HostDead?
    ensures HostRun(buf, off, m, foundAt).HostDead?
  {
    if n < m { HostDeadStays(buf, off, n, m - 1, foundAt); }
  }

  /** The labels from `off` on are those of the host automaton's states. */
  ghost predicate HostLabels(buf: seq<char>, off: nat, foundAt: bool, labels: seq<Label>) {
    |labels| <= |buf| && forall i | off <= i < |labels| :: labels[i] == HostPartOf(HostRun(buf, off, i + 1, foundAt))
  }

  /**
   `http_parse_host` on the bytes [off, end): userinfo, host and port. `front` and `before` are the labels and parts in
   front of it.
   */
  method ParseHost(buf: seq<char>, off: nat, end: nat, foundAt: bool, ghost front: seq<Label>, before: map<Part, Span>)
    returns (ok: bool, parts: map<Part, Span>, ghost labels: seq<Label>)
    requires off <= end <= |buf| && |front| == off && Fit(front, before) && InOrder(buf, front)
    requires forall p | p in before :: p.Schema?
    ensures ok <==> HostDone(HostRun(buf, off, end, foundAt))
    ensures ok ==>
              |labels| == end && HostSplitting(buf, HostRun(buf, off, end, foundAt), labels, parts) && front <= labels
    ensures ok ==> HostLabels(buf, off, foundAt, labels)
    ensures ok ==>
              forall p ::
                (p in before ==> p in parts && parts[p] == before[p]) && (p.Schema? && p in parts ==> p in before)
  {
    hide HostChar, Fit, InOrder, HostAnchored;
    var t := if foundAt then UserinfoStart else HostStart;
    parts, labels := before, front;
    HostBegin(buf, t, front, before);
    var p := off;
    while p < end
      invariant off <= p <= end && |labels| == p && t == HostRun(buf, off, p, foundAt) && !t.HostDead?
      invariant HostSplitting(buf, t, labels, parts) && front <= labels && HostLabels(buf, off, foundAt, labels)
      invariant forall q ::
                  (q in before ==> q in parts && parts[q] == before[q]) && (q.Schema? && q in parts ==> q in before)
    {
      var t' := HostChar(t, buf[p]);
      if t'.HostDead? {
        HostDeadStays(buf, off, p + 1, end, foundAt);
        return false, map[], [];
      }
      HostStep(buf, t, labels, parts);
      match HostPartOf(t') {
        case Gap =>
        case In(uf) =>
          if HostPartOf(t) == HostPartOf(t') {
            parts := parts[uf := Span(parts[uf].off, parts[uf].len + 1)];
          } else {
            parts := parts[uf := Span(p, 1)];
          }
      }
      labels := labels + [HostPartOf(t')];
      t := t';
      p := p + 1;
    }
    return HostDone(t), parts, labels;
  }

  lemma HostBegin(buf: seq<char>, s: HostState, front: seq<Label>, before: map<Part, Span>)
    requires |front| <= |buf| && Fit(front, before) && InOrder(buf, front) && (forall p | p in before :: p.Schema?)
    requires (s.UserinfoStart? || s.HostStart?)
    ensures HostSplitting(buf, s, front, before)
  {
  }
}
