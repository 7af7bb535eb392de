/**
 `http_parser_parse_url` as a whole: the raw split, the host inside it, and the port number that
 `strtoul` reads from memory.
 */
module HttpParseUrl {
  import opened HttpMachine
  import opened HttpUrl

  const ULONG_MAX := 0xffff_ffff_ffff_ffff

  // ---------------------------------------------------------------- the host inside the raw split

  /** A table of parts is determined by the labels. */
  lemma FitUnique(labels: seq<Label>, a: map<Part, Span>, b: map<Part, Span>)
    requires Fit(labels, a) && Fit(labels, b)
    ensures a == b
  {
    forall p | p in a ensures p in b && a[p] == b[p] { FitSame(labels, a, b, p); }
    forall p | p in b ensures p in a { FitSame(labels, b, a, p); }
  }

  lemma FitSame(labels: seq<Label>, a: map<Part, Span>, b: map<Part, Span>, p: Part)
    requires Fit(labels, a) && Fit(labels, b) && p in a
    ensures p in b && a[p] == b[p]
  {
    var lo, hi := a[p].off, a[p].off + a[p].len - 1;
    assert Within(lo, a[p]) && Within(hi, a[p]);
    assert labels[lo] == In(p) && labels[hi] == In(p);
    assert Within(lo, b[p]) && Within(hi, b[p]);
    var lo', hi' := b[p].off, b[p].off + b[p].len - 1;
    assert Within(lo', b[p]) && Within(hi', b[p]);
    assert labels[lo'] == In(p) && labels[hi'] == In(p);
    assert Within(lo', a[p]) && Within(hi', a[p]);
  }

  /** What stands before the host is the schema. */
  function Front(raw: map<Part, Span>): map<Part, Span> { map p | p in raw && p.Schema? :: raw[p] }

  predicate Tail(p: Part) { p.Path? || p.Query? || p.Fragment? }

  lemma BeforeHost(buf: seq<char>, labels: seq<Label>, raw: map<Part, Span>)
    requires Labelled(buf, labels, raw) && (forall p | p in raw :: Raw(p)) && Host in raw
    ensures raw[Host].off <= |labels| && Fit(labels[..raw[Host].off], Front(raw))
    ensures InOrder(buf, labels[..raw[Host].off])
  {
    var off := raw[Host].off;
    assert Within(off, raw[Host]);
    assert labels[off] == In(Host);
    forall i | 0 <= i < off && labels[i].In? ensures labels[i] == In(Schema) {
      assert Within(i, raw[labels[i].part]);
      assert labels[i].part != Host;
    }
    if Schema in raw { PartsInOrder(buf, labels, raw, Schema, Host); }
  }

  lemma AfterHost(buf: seq<char>, labels: seq<Label>, raw: map<Part, Span>, i: nat)
    requires Labelled(buf, labels, raw) && (forall p | p in raw :: Raw(p)) && Host in raw
    requires raw[Host].off + raw[Host].len <= i < |labels| && labels[i].In?
    ensures Tail(labels[i].part)
  {
    assert Within(raw[Host].off, raw[Host]);
    assert labels[raw[Host].off] == In(Host);
    assert Within(i, raw[labels[i].part]);
    assert labels[i].part != Host;
  }

  /** The table after the host has been looked into. */
  function Joined(host: map<Part, Span>, raw: map<Part, Span>): map<Part, Span> {
    map p | p in host.Keys + raw.Keys && (p in host || Tail(p)) :: if p in host then host[p] else raw[p]
  }

  /** No part of the host's table lies behind the host, and the rest of the raw labels do. */
  ghost predicate Joins(buf: seq<char>, labels: seq<Label>, raw: map<Part, Span>, inner: seq<Label>,
                        host: map<Part, Span>) {
    && Labelled(buf, labels, raw) && (forall p | p in raw :: Raw(p)) && Host in raw
    && |inner| == raw[Host].off + raw[Host].len
    && Fit(inner, host) && InOrder(buf, inner) && forall p | p in host :: !Tail(p)
  }

  lemma JoinTail(buf: seq<char>, labels: seq<Label>, raw: map<Part, Span>, inner: seq<Label>, host: map<Part, Span>,
                 p: Part)
    requires Joins(buf, labels, raw, inner, host) && p in raw && Tail(p)
    ensures |inner| <= raw[p].off
  {
    PartsInOrder(buf, labels, raw, Host, p);
  }

  lemma JoinFit(buf: seq<char>, labels: seq<Label>, raw: map<Part, Span>, inner: seq<Label>, host: map<Part, Span>)
    requires Joins(buf, labels, raw, inner, host)
    ensures |inner| <= |labels| && Fit(inner + labels[|inner|..], Joined(host, raw))
  {
    var l, m := inner + labels[|inner|..], Joined(host, raw);
    forall p | p in m ensures m[p].len >= 1 && m[p].off + m[p].len <= |l| {}
    forall i | 0 <= i < |l| && l[i].In? ensures l[i].part in m && Within(i, m[l[i].part]) {
      if i < |inner| {
        assert l[i] == inner[i] && Within(i, host[inner[i].part]);
      } else {
        assert l[i] == labels[i];
        AfterHost(buf, labels, raw, i);
        assert Within(i, raw[labels[i].part]);
      }
    }
    forall p, i | p in m && 0 <= i < |l| && Within(i, m[p]) ensures l[i] == In(p) {
      if p in host {
        assert Within(i, host[p]) && i < |inner|;
        assert inner[i] == In(p);
      } else {
        JoinTail(buf, labels, raw, inner, host, p);
        assert Within(i, raw[p]);
        assert labels[i] == In(p);
      }
    }
  }

  lemma JoinOrder(buf: seq<char>, labels: seq<Label>, raw: map<Part, Span>, inner: seq<Label>, host: map<Part, Span>)
    requires Joins(buf, labels, raw, inner, host)
    ensures |inner| <= |labels| && InOrder(buf, inner + labels[|inner|..])
  {
    var l := inner + labels[|inner|..];
    assert forall i | 0 <= i < |inner| :: l[i] == inner[i];
    assert forall i | |inner| <= i < |l| :: l[i] == labels[i];
    forall i, j | 0 <= i < j < |l| && l[i].In? && l[j].In? ensures Rank(l[i].part) <= Rank(l[j].part) {
      if i < |inner| <= j {
        AfterHost(buf, labels, raw, j);
        assert inner[i].part in host;
        assert !Tail(inner[i].part);
      } else if i < |inner| {
        assert inner[i].In? && inner[j].In?;
      } else {
        assert labels[i].In? && labels[j].In?;
      }
    }
  }

  /** How userinfo ends, and how port begins and what it is made of. */
  ghost predicate HostPieces(buf: seq<char>, parts: map<Part, Span>) {
    && (Userinfo in parts ==> var e := parts[Userinfo].off + parts[Userinfo].len; e < |buf| && buf[e] == '@')
    && (Port in parts ==>
          var f := parts[Port];
          0 < f.off <= |buf| && buf[f.off - 1] == ':' && AllDigits(buf, f.off, f.off + f.len))
    && (Userinfo in parts || Port in parts || Schema in parts ==> Host in parts)
  }

  lemma JoinAnchored(buf: seq<char>, raw: map<Part, Span>, host: map<Part, Span>)
    requires Anchored(buf, raw) && Host in raw && (forall p | p in host :: !Tail(p))
    requires Schema in host ==> Schema in raw && host[Schema] == raw[Schema]
    ensures Anchored(buf, Joined(host, raw))
  {
  }

  lemma JoinPieces(buf: seq<char>, raw: map<Part, Span>, inner: seq<Label>, host: map<Part, Span>, s: HostState)
    requires HostDone(s) && HostSplitting(buf, s, inner, host)
    ensures HostPieces(buf, Joined(host, raw)) && Host in Joined(host, raw) && (forall p | p in host :: !Tail(p))
  {
    assert Reach(s).Host? || Reach(s).Port?;
    assert Rank(Reach(s)) <= 3;
    hide Fit, InOrder;
  }

  // ---------------------------------------------------------------- the port number

  /** Decimal value of the digits. */
  function Decimal(s: seq<char>): nat
    requires forall i | 0 <= i < |s| :: IsNum(s[i])
  {
    if s == [] then 0 else Decimal(s[..|s| - 1]) * 10 + Digit(s[|s| - 1])
  }

  /**
   The number at position `i` of memory: every digit up to the first byte that is none. A zero byte follows the memory.
   */
  function RunValue(mem: seq<char>, i: nat, acc: nat): nat
    requires i <= |mem|
    decreases |mem| - i
  {
    if i < |mem| && IsNum(mem[i]) then RunValue(mem, i + 1, acc * 10 + Digit(mem[i])) else acc
  }

  /** `strtoul` on memory that starts with a digit: too large a number gives the largest one. */
  function Strtoul(mem: seq<char>, i: nat): nat
    requires i <= |mem|
  {
    var v := RunValue(mem, i, 0);
    if v > ULONG_MAX then ULONG_MAX else v
  }

  lemma {:induction false} RunOverField(mem: seq<char>, lo: nat, hi: nat, k: nat)
    requires lo <= k <= hi <= |mem| && AllDigits(mem, lo, hi)
    ensures RunValue(mem, lo, 0) == RunValue(mem, k, Decimal(mem[lo..k]))
  {
    if lo < k {
      RunOverField(mem, lo, hi, k - 1);
      assert mem[lo..k][..k - 1 - lo] == mem[lo..k - 1];
    } else {
      assert mem[lo..k] == [];
    }
  }

  /** Digits can only keep or raise a value, and keep it only if all is zero. */
  lemma {:induction false} RunGrows(mem: seq<char>, i: nat, acc: nat)
    requires i <= |mem|
    ensures RunValue(mem, i, acc) >= acc
    ensures i < |mem| && IsNum(mem[i]) && acc > 0 ==> RunValue(mem, i, acc) > acc
    decreases |mem| - i
  {
    if i < |mem| && IsNum(mem[i]) { RunGrows(mem, i + 1, acc * 10 + Digit(mem[i])); }
  }

  /** `strtoul` reads exactly the field, unless a digit stands right behind it and not everything it reads is zero. */
  lemma PortIsField(mem: seq<char>, lo: nat, hi: nat)
    requires lo <= hi <= |mem| && AllDigits(mem, lo, hi)
    ensures RunValue(mem, lo, 0) == Decimal(mem[lo..hi])
       <==> (hi < |mem| && IsNum(mem[hi]) ==> Decimal(mem[lo..hi]) == 0 && RunValue(mem, hi, 0) == 0)
  {
    RunOverField(mem, lo, hi, hi);
    RunGrows(mem, hi, Decimal(mem[lo..hi]));
  }

  /** Inside a URL no digit stands behind the port. */
  lemma PortEnds(buf: seq<char>, labels: seq<Label>, parts: map<Part, Span>)
    requires Labelled(buf, labels, parts) && HostPieces(buf, parts) && Port in parts
    requires parts[Port].off + parts[Port].len < |buf|
    ensures !IsNum(buf[parts[Port].off + parts[Port].len])
  {
    var hi := parts[Port].off + parts[Port].len;
    assert Within(hi - 1, parts[Port]);
    assert labels[hi - 1] == In(Port);
    if labels[hi].In? {
      var p := labels[hi].part;
      assert Within(hi, parts[p]);
      if Rank(p) > Rank(Port) { PartsInOrder(buf, labels, parts, Port, p); }
      assert !Within(hi, parts[Port]);
      assert Tail(p) && parts[p].off == hi;
      assert IsNum(buf[hi - 1]);
    }
  }

  // ---------------------------------------------------------------- the whole

  /** The raw split of a URL that no byte kills. */
  ghost predicate Splits(buf: seq<char>, isConnect: bool, labels: seq<Label>, raw: map<Part, Span>) {
    && !UrlState(buf, isConnect, |buf|).Dead?
    && Labelled(buf, labels, raw) && StateLabels(buf, isConnect, labels) && forall p | p in raw :: Raw(p)
  }

  /** A schema has a host with it, and the inside of the host is well formed. */
  ghost predicate HostFits(buf: seq<char>, labels: seq<Label>, raw: map<Part, Span>) {
    if Host in raw then
      var end := raw[Host].off + raw[Host].len;
      end <= |buf| && HostDone(HostRun(buf, raw[Host].off, end, HasAt(buf, labels)))
    else Schema !in raw
  }

  predicate Hosted(i: int, raw: map<Part, Span>) { Host in raw && Within(i, raw[Host]) }

  /** The final label of a byte: the host automaton decides within the raw host, the URL automaton elsewhere. */
  ghost predicate FinalLabels(buf: seq<char>, rawLabels: seq<Label>, raw: map<Part, Span>, labels: seq<Label>) {
    && |labels| == |buf| == |rawLabels|
    && forall i | 0 <= i < |buf| ::
         labels[i] == if Hosted(i, raw) then HostPartOf(HostRun(buf, raw[Host].off, i + 1, HasAt(buf, rawLabels)))
         else rawLabels[i]
  }

  /** What the table of parts says about the URL. */
  ghost predicate Describes(buf: seq<char>, labels: seq<Label>, parts: map<Part, Span>) {
    Labelled(buf, labels, parts) && HostPieces(buf, parts)
  }

  /** Parts are non-empty, in bounds, disjoint and in order, and every byte outside them is a delimiter. */
  ghost predicate Placed(buf: seq<char>, parts: map<Part, Span>) {
    && (forall p | p in parts :: parts[p].len >= 1 && parts[p].off + parts[p].len <= |buf|)
    && (forall p, q | p in parts && q in parts && Rank(p) < Rank(q) :: parts[p].off + parts[p].len <= parts[q].off)
    && (forall i | 0 <= i < |buf| && (forall p | p in parts :: !Within(i, parts[p])) :: IsDelimiter(buf[i]))
  }

  lemma DescribesPlaced(buf: seq<char>, labels: seq<Label>, parts: map<Part, Span>)
    requires Describes(buf, labels, parts)
    ensures Placed(buf, parts)
  {
    forall p, q | p in parts && q in parts && Rank(p) < Rank(q) ensures parts[p].off + parts[p].len <= parts[q].off {
      PartsInOrder(buf, labels, parts, p, q);
    }
    forall i | 0 <= i < |buf| && (forall p | p in parts :: !Within(i, parts[p])) ensures IsDelimiter(buf[i]) {
      assert labels[i].Gap?;
    }
  }

  /** `http_parse_host` in the raw split. */
  method SplitHost(buf: seq<char>, isConnect: bool, raw: map<Part, Span>, foundAt: bool, ghost rawLabels: seq<Label>)
    returns (ok: bool, parts: map<Part, Span>, ghost labels: seq<Label>)
    requires Splits(buf, isConnect, rawLabels, raw) && foundAt == HasAt(buf, rawLabels) && Host in raw
    ensures ok <==> HostFits(buf, rawLabels, raw)
    ensures ok ==> Describes(buf, labels, parts) && FinalLabels(buf, rawLabels, raw, labels) && Host in parts
  {
    hide Anchored, InOrder, UrlState, HasAt, HostChar, HostPartOf, HostPieces, HostDone;
    ghost var inner;
    var off, end := raw[Host].off, raw[Host].off + raw[Host].len;
    BeforeHost(buf, rawLabels, raw);
    hide Fit, StateLabels;
    HostEnds(buf, rawLabels, raw);
    ok, parts, inner := ParseHost(buf, off, end, foundAt, rawLabels[..off], Front(raw));
    if !ok { return false, map[], []; }
    JoinPieces(buf, raw, inner, parts, HostRun(buf, off, end, foundAt));
    JoinAnchored(buf, raw, parts);
    JoinFit(buf, rawLabels, raw, inner, parts);
    JoinOrder(buf, rawLabels, raw, inner, parts);
    labels := inner + rawLabels[end..];
    parts := Joined(parts, raw);
    FinalGlue(buf, rawLabels, raw, inner, foundAt);
  }

  lemma HostEnds(buf: seq<char>, labels: seq<Label>, raw: map<Part, Span>)
    requires Labelled(buf, labels, raw) && Host in raw
    ensures raw[Host].off + raw[Host].len <= |buf|
  {
  }

  lemma FinalGlue(buf: seq<char>, rawLabels: seq<Label>, raw: map<Part, Span>, inner: seq<Label>, foundAt: bool)
    requires Host in raw && |rawLabels| == |buf| && |inner| == raw[Host].off + raw[Host].len <= |buf|
    requires foundAt == HasAt(buf, rawLabels) && rawLabels[..raw[Host].off] <= inner
    requires HostLabels(buf, raw[Host].off, foundAt, inner)
    ensures FinalLabels(buf, rawLabels, raw, inner + rawLabels[|inner|..])
  {
    hide HasAt, HostRun, HostPartOf;
    var l, off := inner + rawLabels[|inner|..], raw[Host].off;
    forall i | 0 <= i < |buf|
      ensures l[i] == if Hosted(i, raw) then HostPartOf(HostRun(buf, off, i + 1, HasAt(buf, rawLabels)))
              else rawLabels[i]
    {
      if i < off { assert inner[i] == rawLabels[..off][i]; }
    }
  }

  /**
   What splitting the URL `buf`, the first bytes of `mem`, must come to. It is taken exactly when: no byte kills the URL
   automaton, a schema comes with a host, the host is well formed, CONNECT has a host and a port and nothing else, and
   the number read at the port fits 16 bits.
   */
  ghost predicate Verdict(mem: seq<char>, buf: seq<char>, isConnect: bool, ok: bool, u: Url,
                          raw: map<Part, Span>, rawLabels: seq<Label>, labels: seq<Label>)
  {
    && (!UrlState(buf, isConnect, |buf|).Dead? ==> Splits(buf, isConnect, rawLabels, raw))
    && (Splits(buf, isConnect, rawLabels, raw) && HostFits(buf, rawLabels, raw) ==>
          Describes(buf, labels, u.parts) && FinalLabels(buf, rawLabels, raw, labels))
    && (ok <==>
          && Splits(buf, isConnect, rawLabels, raw) && HostFits(buf, rawLabels, raw)
          && (isConnect ==> u.parts.Keys == {Host, Port})
          && (Port in u.parts ==> u.parts[Port].off <= |mem| && RunValue(mem, u.parts[Port].off, 0) <= 0xffff))
    && (ok && Port in u.parts ==> u.port == RunValue(mem, u.parts[Port].off, 0))
    && (ok && Port !in u.parts ==> u.port == 0)
  }

  /** `http_parser_parse_url` on the first `buflen` bytes of memory. */
  method ParseUrl(mem: seq<char>, buflen: nat, isConnect: bool)
    returns (ok: bool, u: Url, ghost raw: map<Part, Span>, ghost rawLabels: seq<Label>, ghost labels: seq<Label>)
    requires buflen <= |mem| && buflen <= 65535
    ensures Verdict(mem, mem[..buflen], isConnect, ok, u, raw, rawLabels, labels)
    ensures ok ==> Placed(mem[..buflen], u.parts) && HostPieces(mem[..buflen], u.parts) && u.port <= 0xffff
  {
    hide Anchored, InOrder, Fit, UrlState, HasAt, HostChar, HostPartOf, HostRun, HostDone, StateLabels, FinalLabels,
         RunValue, Placed;
    var buf := mem[..buflen];
    var foundAt;
    ok, u := false, Parsed(map[], 0);
    var parts;
    ok, parts, foundAt, rawLabels := SplitRaw(buf, isConnect);
    raw, labels := parts, rawLabels;
    if !ok { return; }
    if Schema in parts && Host !in parts {
      ok := false;
      return;
    }
    if Host in parts {
      ok, parts, labels := SplitHost(buf, isConnect, parts, foundAt, rawLabels);
      if !ok { return; }
    } else {
      NoHost(buf, rawLabels, parts);
    }
    DescribesPlaced(buf, labels, parts);
    u := Parsed(parts, 0);
    if isConnect && parts.Keys != {Host, Port} {
      ok := false;
      return;
    }
    if Port in parts {
      var v := Strtoul(mem, parts[Port].off);
      if v > 0xffff {
        ok := false;
        return;
      }
      u := Parsed(parts, v);
    }
  }

  lemma NoHost(buf: seq<char>, labels: seq<Label>, raw: map<Part, Span>)
    requires Labelled(buf, labels, raw) && (forall p | p in raw :: Raw(p)) && Host !in raw && Schema !in raw
    ensures Describes(buf, labels, raw) && FinalLabels(buf, labels, raw, labels) && Port !in raw
  {
  }

  /** The port's field in memory: digits, and none behind them inside the URL. */
  lemma PortField(mem: seq<char>, buflen: nat, labels: seq<Label>, parts: map<Part, Span>)
    requires buflen <= |mem| && Describes(mem[..buflen], labels, parts) && Port in parts
    ensures parts[Port].off + parts[Port].len <= buflen
    ensures AllDigits(mem, parts[Port].off, parts[Port].off + parts[Port].len)
    ensures parts[Port].off + parts[Port].len < buflen ==> !IsNum(mem[parts[Port].off + parts[Port].len])
  {
    var buf, f := mem[..buflen], parts[Port];
    assert AllDigits(buf, f.off, f.off + f.len);
    hide Fit, InOrder, Anchored, IsNum;
    forall i | f.off <= i < f.off + f.len ensures IsNum(mem[i]) { assert mem[i] == buf[i]; }
    if f.off + f.len < buflen {
      PortEnds(buf, labels, parts);
      assert mem[f.off + f.len] == buf[f.off + f.len];
    }
  }

  /**
   The port of an accepted URL is the decimal value of its field, unless the field ends the URL, a digit follows in
   memory, and not all of it is zero.
   */
  lemma PortValue(mem: seq<char>, buflen: nat, labels: seq<Label>, parts: map<Part, Span>)
    requires buflen <= |mem| && Describes(mem[..buflen], labels, parts) && Port in parts
    ensures parts[Port].off + parts[Port].len <= buflen
    ensures AllDigits(mem, parts[Port].off, parts[Port].off + parts[Port].len)
    ensures var f := parts[Port];
            var field := Decimal(mem[f.off..f.off + f.len]);
            var readsOn := f.off + f.len == buflen < |mem| && IsNum(mem[buflen]);
            RunValue(mem, f.off, 0) == field <==> (readsOn ==> field == 0 && RunValue(mem, buflen, 0) == 0)
  {
    hide Describes, RunValue, Decimal, AllDigits, IsNum;
    PortField(mem, buflen, labels, parts);
    PortIsField(mem, parts[Port].off, parts[Port].off + parts[Port].len);
  }
}
