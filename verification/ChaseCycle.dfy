/**
 Where lmbench's pointer chains lie in memory, in which order they visit it, and
 why each of them is one cycle.

 Addresses are byte offsets from the page-aligned base. A slot is one pointer-sized
 cell, named by its place in the page order, the line order and the word order.
 */
module ChaseCycle {
  import opened MulFacts
  import opened BitReversal

  /**
   Pointer size, pointers per line, lines per page (both powers of two, with their exponents), the order of the
   used pages, and the number of pages allocated.
   */
  datatype Layout = Layout(word: nat, words: nat, lines: nat, wordBits: nat, lineBits: nat, order: seq<nat>,
                           total: nat) {
    ghost predicate Valid() {
      word > 0 && words == Pow2(wordBits) && lines == Pow2(lineBits) && order != [] && IsOrder(order, total)
    }

    function Pages(): nat { |order| }
    function LineSize(): nat { words * word }
    function PageSize(): nat { lines * LineSize() }
  }

  datatype Slot = Slot(page: nat, line: nat, lane: nat)

  predicate InRange(l: Layout, s: Slot) { s.page < l.Pages() && s.line < l.lines && s.lane < l.words }

  /** First byte of the line that holds slot `s`. */
  function LineBase(l: Layout, page: nat, line: nat): nat
    requires page < l.Pages()
  {
    l.order[page] * l.PageSize() + Rev(l.lineBits, line) * l.LineSize()
  }

  function Addr(l: Layout, s: Slot): nat
    requires s.page < l.Pages()
  {
    LineBase(l, s.page, s.line) + Rev(l.wordBits, s.lane) * l.word
  }

  // ---------------------------------------------------------------- addresses

  /** A slot lies inside its line, a line inside its page. */
  lemma Inside(l: Layout, s: Slot)
    requires l.Valid() && InRange(l, s)
    ensures Rev(l.wordBits, s.lane) * l.word + l.word <= l.LineSize()
    ensures Rev(l.lineBits, s.line) * l.LineSize() + l.LineSize() <= l.PageSize()
    ensures Addr(l, s) + l.word <= LineBase(l, s.page, s.line) + l.LineSize()
    ensures LineBase(l, s.page, s.line) + l.LineSize()
            <= l.order[s.page] * l.PageSize() + l.PageSize() <= l.total * l.PageSize()
  {
    RevBound(l.wordBits, s.lane);
    RevBound(l.lineBits, s.line);
    Ge(l.words, l.word);
    Ge(l.lines, l.LineSize());
    RadixBound(Rev(l.wordBits, s.lane), 0, l.words, l.word);
    RadixBound(Rev(l.lineBits, s.line), 0, l.lines, l.LineSize());
    RadixBound(l.order[s.page], 0, l.total, l.PageSize());
  }

  /** A number that is in two aligned blocks of one size is in one block. */
  lemma SameBlock(x: nat, y: nat, size: nat, a: nat)
    requires x * size <= a < x * size + size && y * size <= a < y * size + size
    ensures x == y
  {
    MixedRadix(x, a - x * size, y, a - y * size, size);
  }

  /** Lines do not overlap: an address in two lines is in one line. */
  lemma SameLine(l: Layout, s: Slot, t: Slot, a: nat)
    requires l.Valid() && InRange(l, s) && InRange(l, t)
    requires LineBase(l, s.page, s.line) <= a < LineBase(l, s.page, s.line) + l.LineSize()
    requires LineBase(l, t.page, t.line) <= a < LineBase(l, t.page, t.line) + l.LineSize()
    ensures s.page == t.page && s.line == t.line
  {
    Inside(l, s);
    Inside(l, t);
    hide Rev, Pow2, Layout.LineSize, Layout.PageSize;
    Nat(Rev(l.lineBits, s.line), l.LineSize());
    Nat(Rev(l.lineBits, t.line), l.LineSize());
    SameBlock(l.order[s.page], l.order[t.page], l.PageSize(), a);
    SameBlock(Rev(l.lineBits, s.line), Rev(l.lineBits, t.line), l.LineSize(), a - l.order[s.page] * l.PageSize());
    RevInjective(l.lineBits, s.line, t.line);
  }

  /** Different slots have different addresses. */
  lemma AddrInjective(l: Layout, s: Slot, t: Slot)
    requires l.Valid() && InRange(l, s) && InRange(l, t) && Addr(l, s) == Addr(l, t)
    ensures s == t
  {
    Inside(l, s);
    Inside(l, t);
    hide Rev, Pow2, Layout.LineSize, Layout.PageSize, LineBase;
    Nat(Rev(l.wordBits, s.lane), l.word);
    SameLine(l, s, t, Addr(l, s));
    ScaleInjective(Rev(l.wordBits, s.lane), Rev(l.wordBits, t.lane), l.word);
    RevInjective(l.wordBits, s.lane, t.lane);
  }

  // ---------------------------------------------------------------- visiting orders

  /**
   The chains: word lane by word lane through all lines of each page, of the last page only the first `tail`;
   the first word of the first `used` lines of each page; a new page at each step; all pages of a group line by line,
   in the last group only the first `tail` lines.
   */
  datatype Shape = Lanes(tail: nat) | Heads(used: nat) | Thrash | Grouped(group: nat, tail: nat)

  predicate Fits(l: Layout, sh: Shape) {
    match sh
    case Lanes(tail) => 1 <= tail <= l.lines
    case Heads(used) => 1 <= used <= l.lines
    case Thrash => true
    case Grouped(group, tail) => group >= 1 && 1 <= tail <= l.lines
  }

  predicate On(l: Layout, sh: Shape, s: Slot) {
    InRange(l, s) &&
    match sh
    case Lanes(tail) => s.page == l.Pages() - 1 ==> s.line < tail
    case Heads(used) => s.line < used && s.lane == 0
    case Thrash => s.lane == 0
    case Grouped(group, tail) => group >= 1 && s.line < Height(l, group, tail, s.page)
  }

  function Min(a: nat, b: nat): nat { if a < b then a else b }

  /** First page of the group of `page`, and how many pages that group has. */
  function GroupStart(group: nat, page: nat): nat
    requires group >= 1
  {
    page - page % group
  }

  function GroupSize(l: Layout, group: nat, page: nat): (r: nat)
    requires group >= 1 && page < l.Pages()
    ensures r >= 1
  {
    Min(group, l.Pages() - GroupStart(group, page))
  }

  /** Lines visited of the pages of a group. */
  function Height(l: Layout, group: nat, tail: nat, page: nat): nat
    requires group >= 1 && page < l.Pages()
  {
    if GroupStart(group, page) == GroupStart(group, l.Pages() - 1) then tail else l.lines
  }

  function Next(l: Layout, sh: Shape, s: Slot): Slot
    requires Fits(l, sh) && On(l, sh, s)
  {
    match sh
    case Lanes(tail) =>
      if s.line + 1 < (if s.page == l.Pages() - 1 then tail else l.lines) then s.(line := s.line + 1)
      else if s.page + 1 < l.Pages() then Slot(s.page + 1, 0, s.lane)
      else Slot(0, 0, if s.lane + 1 == l.words then 0 else s.lane + 1)
    case Heads(used) =>
      if s.line + 1 < used then s.(line := s.line + 1)
      else Slot(if s.page + 1 < l.Pages() then s.page + 1 else 0, 0, 0)
    case Thrash =>
      if s.page + 1 < l.Pages() then Slot(s.page + 1, (s.line + 1) % l.lines, 0)
      else Slot(0, (s.line - s.page + 1) % l.lines, 0)
    case Grouped(group, tail) =>
      var b := GroupStart(group, s.page);
      if s.page + 1 < b + GroupSize(l, group, s.page) then s.(page := s.page + 1)
      else if s.line + 1 < Height(l, group, tail, s.page) then Slot(b, s.line + 1, s.lane)
      else if s.page + 1 < l.Pages() then Slot(s.page + 1, 0, s.lane)
      else Slot(0, 0, if s.lane + 1 == l.words then 0 else s.lane + 1)
  }

  /** Lines visited in one word lane. */
  function LaneLength(l: Layout, tail: nat): nat
    requires l.Pages() > 0
  {
    (l.Pages() - 1) * l.lines + tail
  }

  /** Lines visited in one word lane of a regrouped chain. */
  function GroupedLength(l: Layout, group: nat, tail: nat): nat
    requires group >= 1 && l.Pages() > 0
  {
    var b := GroupStart(group, l.Pages() - 1);
    b * l.lines + (l.Pages() - b) * tail
  }

  /** Number of slots on a chain. */
  function Length(l: Layout, sh: Shape): nat
    requires l.Pages() > 0 && Fits(l, sh)
  {
    match sh
    case Lanes(tail) => l.words * LaneLength(l, tail)
    case Heads(used) => l.Pages() * used
    case Thrash => l.lines * l.Pages()
    case Grouped(group, tail) => l.words * GroupedLength(l, group, tail)
  }

  /** When a slot is visited, counted from slot (0, 0, 0). */
  function Rank(l: Layout, sh: Shape, s: Slot): nat
    requires l.Pages() > 0 && Fits(l, sh) && On(l, sh, s)
  {
    match sh
    case Lanes(tail) =>
      Nat(s.lane, LaneLength(l, tail));
      s.lane * LaneLength(l, tail) + (s.page * l.lines + s.line)
    case Heads(used) => s.page * used + s.line
    case Thrash => (s.line - s.page) % l.lines * l.Pages() + s.page
    case Grouped(group, tail) =>
      Nat(s.lane, GroupedLength(l, group, tail));
      s.lane * GroupedLength(l, group, tail) + GroupRank(l, group, s)
  }

  function GroupRank(l: Layout, group: nat, s: Slot): nat
    requires group >= 1 && InRange(l, s)
  {
    var b := GroupStart(group, s.page);
    b * l.lines + (s.line * GroupSize(l, group, s.page) + (s.page - b))
  }

  // ---------------------------------------------------------------- ranks run through 0, 1, ..., length - 1

  /** `r'` follows `r` on a circle of `n`. */
  predicate Succ(r: nat, r': nat, n: nat) { r < n && r' == if r + 1 == n then 0 else r + 1 }

  lemma LaneBound(l: Layout, tail: nat, s: Slot)
    requires l.Pages() > 0 && 1 <= tail <= l.lines && On(l, Lanes(tail), s)
    ensures s.page * l.lines + s.line < LaneLength(l, tail)
  {
    if s.page < l.Pages() - 1 {
      RadixBound(s.page, s.line, l.Pages() - 1, l.lines);
    }
  }

  /** Stepping along one lane, or on to the next. */
  lemma LaneSucc(lane: nat, lanes: nat, q: nat, n: nat)
    requires lane < lanes && q < n
    ensures lane * n + q < lanes * n
    ensures q + 1 < n ==> Succ(lane * n + q, lane * n + (q + 1), lanes * n)
    ensures q + 1 == n ==> Succ(lane * n + q, (if lane + 1 == lanes then 0 else lane + 1) * n + 0, lanes * n)
  {
    RadixBound(lane, q, lanes, n);
    Add(lane, 1, n);
    if q + 1 < n { RadixBound(lane, q + 1, lanes, n); }
    if lane + 1 < lanes { RadixBound(lane + 1, 0, lanes, n); }
  }

  lemma LanesSucc(l: Layout, tail: nat, s: Slot)
    requires l.Pages() > 0 && Fits(l, Lanes(tail)) && On(l, Lanes(tail), s)
    ensures var sh := Lanes(tail);
            On(l, sh, Next(l, sh, s)) && Succ(Rank(l, sh, s), Rank(l, sh, Next(l, sh, s)), Length(l, sh))
  {
    LaneBound(l, tail, s);
    LaneSucc(s.lane, l.words, s.page * l.lines + s.line, LaneLength(l, tail));
    Add(s.page, 1, l.lines);
    var t := Next(l, Lanes(tail), s);
    LaneBound(l, tail, t);
  }

  lemma HeadsSucc(l: Layout, used: nat, s: Slot)
    requires l.Pages() > 0 && Fits(l, Heads(used)) && On(l, Heads(used), s)
    ensures var sh := Heads(used);
            On(l, sh, Next(l, sh, s)) && Succ(Rank(l, sh, s), Rank(l, sh, Next(l, sh, s)), Length(l, sh))
  {
    LaneSucc(s.page, l.Pages(), s.line, used);
  }

  lemma ThrashSucc(l: Layout, s: Slot)
    requires l.Pages() > 0 && On(l, Thrash, s)
    ensures On(l, Thrash, Next(l, Thrash, s))
    ensures Succ(Rank(l, Thrash, s), Rank(l, Thrash, Next(l, Thrash, s)), Length(l, Thrash))
  {
    var m := l.lines;
    var x := (s.line - s.page) % m;
    LaneSucc(x, m, s.page, l.Pages());
    if s.page + 1 < l.Pages() {
      ModShift(s.line + 1, -(s.page + 1), m);
      assert s.line + 1 - (s.page + 1) == s.line - s.page;
    } else {
      ModSucc(s.line - s.page, m);
      ModShift(s.line - s.page + 1, 0, m);
    }
  }

  lemma GroupStartFacts(group: nat, page: nat)
    requires group >= 1
    ensures 0 <= GroupStart(group, page) <= page < GroupStart(group, page) + group
    ensures page + 1 == GroupStart(group, page) + group ==> GroupStart(group, page + 1) == page + 1
    ensures page + 1 < GroupStart(group, page) + group ==> GroupStart(group, page + 1) == GroupStart(group, page)
    ensures GroupStart(group, GroupStart(group, page)) == GroupStart(group, page)
    ensures GroupStart(group, 0) == 0
  {
    ModSucc(page, group);
    ModShift(page, -(page % group), group);
  }

  lemma GroupBound(l: Layout, group: nat, s: Slot)
    requires group >= 1 && InRange(l, s)
    ensures var b := GroupStart(group, s.page);
            var n := GroupSize(l, group, s.page);
            b <= s.page < b + n <= l.Pages() && GroupRank(l, group, s) < b * l.lines + n * l.lines
  {
    GroupStartFacts(group, s.page);
    var b, n := GroupStart(group, s.page), GroupSize(l, group, s.page);
    RadixBound(s.line, s.page - b, l.lines, n);
    assert n * l.lines == l.lines * n;
  }

  /** All that is ranked before the end of a group fits the length. */
  lemma GroupEnd(l: Layout, group: nat, tail: nat, page: nat)
    requires group >= 1 && page < l.Pages()
    ensures var b := GroupStart(group, page);
            var n := GroupSize(l, group, page);
            0 <= b <= page < b + n <= l.Pages()
            && b * l.lines + n * Height(l, group, tail, page) <= GroupedLength(l, group, tail)
            && (b + n == l.Pages() <==> b == GroupStart(group, l.Pages() - 1))
            && (b + n == l.Pages() ==> b * l.lines + n * Height(l, group, tail, page) == GroupedLength(l, group, tail))
  {
    var b, n, c := GroupStart(group, page), GroupSize(l, group, page), GroupStart(group, l.Pages() - 1);
    GroupStartFacts(group, page);
    GroupStartFacts(group, l.Pages() - 1);
    if b < c {
      StartsApart(group, b, c, page, l.Pages() - 1);
      Nat(l.Pages() - c, tail);
      hide GroupStart;
      PastBlock(b, n, c, l.lines);
    } else if c < b {
      StartsApart(group, c, b, l.Pages() - 1, page);
    }
  }

  lemma GroupedBound(l: Layout, group: nat, tail: nat, s: Slot)
    requires Fits(l, Grouped(group, tail)) && On(l, Grouped(group, tail), s)
    ensures GroupRank(l, group, s) < GroupedLength(l, group, tail)
  {
    var b, n, h := GroupStart(group, s.page), GroupSize(l, group, s.page), Height(l, group, tail, s.page);
    GroupStartFacts(group, s.page);
    GroupEnd(l, group, tail, s.page);
    hide GroupedLength, Height;
    RadixBound(s.line, s.page - b, h, n);
    assert n * h == h * n;
  }

  /** The next page of the group. */
  lemma GroupAcross(l: Layout, group: nat, tail: nat, s: Slot)
    requires Fits(l, Grouped(group, tail)) && On(l, Grouped(group, tail), s)
    requires s.page + 1 < GroupStart(group, s.page) + GroupSize(l, group, s.page)
    ensures var t := s.(page := s.page + 1);
            On(l, Grouped(group, tail), t) && GroupRank(l, group, t) == GroupRank(l, group, s) + 1
  {
    GroupStartFacts(group, s.page);
    hide GroupStart;
  }

  /** The next line of the group. */
  lemma GroupDown(l: Layout, group: nat, tail: nat, s: Slot)
    requires Fits(l, Grouped(group, tail)) && On(l, Grouped(group, tail), s)
    requires s.page + 1 == GroupStart(group, s.page) + GroupSize(l, group, s.page)
    requires s.line + 1 < Height(l, group, tail, s.page)
    ensures GroupStart(group, s.page) <= s.page
    ensures var t := Slot(GroupStart(group, s.page), s.line + 1, s.lane);
            On(l, Grouped(group, tail), t) && GroupRank(l, group, t) == GroupRank(l, group, s) + 1
  {
    GroupStartFacts(group, s.page);
    hide GroupStart;
    Add(s.line, 1, GroupSize(l, group, s.page));
  }

  /** The next group, or the end of the lane. */
  lemma GroupOut(l: Layout, group: nat, tail: nat, s: Slot)
    requires Fits(l, Grouped(group, tail)) && On(l, Grouped(group, tail), s)
    requires s.page + 1 == GroupStart(group, s.page) + GroupSize(l, group, s.page)
    requires s.line + 1 == Height(l, group, tail, s.page)
    ensures s.page + 1 < l.Pages() ==>
              var t := Slot(s.page + 1, 0, s.lane);
              On(l, Grouped(group, tail), t) && GroupRank(l, group, t) == GroupRank(l, group, s) + 1
    ensures s.page + 1 == l.Pages() ==> GroupRank(l, group, s) + 1 == GroupedLength(l, group, tail)
    ensures forall lane: nat | lane < l.words ::
              On(l, Grouped(group, tail), Slot(0, 0, lane)) && GroupRank(l, group, Slot(0, 0, lane)) == 0
  {
    var b, n, h := GroupStart(group, s.page), GroupSize(l, group, s.page), Height(l, group, tail, s.page);
    GroupEnd(l, group, tail, s.page);
    GroupStartFacts(group, s.page);
    hide GroupedLength, GroupStart;
    Add(s.line, 1, n);
    assert n * h == h * n;
    Add(b, n, l.lines);
  }

  lemma GroupSucc(l: Layout, group: nat, tail: nat, s: Slot)
    requires Fits(l, Grouped(group, tail)) && On(l, Grouped(group, tail), s)
    ensures var t := Next(l, Grouped(group, tail), s);
            On(l, Grouped(group, tail), t)
            && (t.lane == s.lane && t != Slot(0, 0, s.lane) ==> GroupRank(l, group, t) == GroupRank(l, group, s) + 1)
            && (t.page == 0 && t.line == 0 ==>
                  GroupRank(l, group, t) == 0 && GroupRank(l, group, s) + 1 == GroupedLength(l, group, tail))
            && (t.lane == s.lane || (t.page == 0 && t.line == 0))
            && (t.page == 0 && t.line == 0 ==> t.lane == if s.lane + 1 == l.words then 0 else s.lane + 1)
  {
    var b, n, h := GroupStart(group, s.page), GroupSize(l, group, s.page), Height(l, group, tail, s.page);
    GroupBound(l, group, s);
    if s.page + 1 < b + n {
      GroupAcross(l, group, tail, s);
    } else if s.line + 1 < h {
      GroupDown(l, group, tail, s);
    } else {
      GroupOut(l, group, tail, s);
    }
    hide GroupStart, GroupSize, Height, GroupedLength, GroupRank;
  }

  lemma GroupedSucc(l: Layout, group: nat, tail: nat, s: Slot)
    requires l.Pages() > 0 && Fits(l, Grouped(group, tail)) && On(l, Grouped(group, tail), s)
    ensures var sh := Grouped(group, tail);
            On(l, sh, Next(l, sh, s)) && Succ(Rank(l, sh, s), Rank(l, sh, Next(l, sh, s)), Length(l, sh))
  {
    hide GroupRank, GroupedLength;
    GroupSucc(l, group, tail, s);
    GroupedBound(l, group, tail, s);
    var t := Next(l, Grouped(group, tail), s);
    hide Next, GroupStart, GroupSize, Height;
    LaneSucc(s.lane, l.words, GroupRank(l, group, s), GroupedLength(l, group, tail));
    GroupedBound(l, group, tail, t);
  }

  /** Every step along a chain stays on it and visits the next rank. */
  lemma StepsByOne(l: Layout, sh: Shape, s: Slot)
    requires l.Valid() && Fits(l, sh) && On(l, sh, s)
    ensures On(l, sh, Next(l, sh, s)) && Succ(Rank(l, sh, s), Rank(l, sh, Next(l, sh, s)), Length(l, sh))
  {
    hide LaneLength, GroupRank, GroupedLength;
    match sh
    case Lanes(tail) => LanesSucc(l, tail, s);
    case Heads(used) => HeadsSucc(l, used, s);
    case Thrash => ThrashSucc(l, s);
    case Grouped(group, tail) => GroupedSucc(l, group, tail, s);
  }

  lemma GroupRankInjective(l: Layout, group: nat, s: Slot, t: Slot)
    requires group >= 1 && InRange(l, s) && InRange(l, t) && GroupRank(l, group, s) == GroupRank(l, group, t)
    ensures s.page == t.page && s.line == t.line
  {
    GroupBound(l, group, s);
    GroupBound(l, group, t);
    var b, c := GroupStart(group, s.page), GroupStart(group, t.page);
    if b < c { GroupsApart(l, group, s, t); }
    if c < b { GroupsApart(l, group, t, s); }
    MixedRadix(s.line, s.page - b, t.line, t.page - c, GroupSize(l, group, s.page));
  }

  lemma PastBlock(b: nat, n: nat, c: nat, m: nat)
    requires b + n <= c
    ensures b * m + n * m <= c * m
  {
    Add(b, n, m);
    Mono(b + n, c, m);
  }

  /** A later group is ranked later. */
  lemma GroupsApart(l: Layout, group: nat, s: Slot, t: Slot)
    requires group >= 1 && InRange(l, s) && InRange(l, t) && GroupStart(group, s.page) < GroupStart(group, t.page)
    ensures GroupRank(l, group, s) < GroupRank(l, group, t)
  {
    GroupBound(l, group, s);
    var b, c := GroupStart(group, s.page), GroupStart(group, t.page);
    GroupStartFacts(group, t.page);
    StartsApart(group, b, c, s.page, t.page);
    var n := GroupSize(l, group, s.page);
    Nat(t.line, GroupSize(l, group, t.page));
    hide GroupStart, GroupSize;
    PastBlock(b, n, c, l.lines);
  }

  lemma StartsApart(group: nat, b: nat, c: nat, p: nat, q: nat)
    requires group >= 1 && b == GroupStart(group, p) && c == GroupStart(group, q) && b < c
    ensures c >= b + group
  {
    var i, j := p / group, q / group;
    DivMod(p, group);
    DivMod(q, group);
    if j <= i { Mono(j, i, group); }
    Mono(i + 1, j, group);
    Add(i, 1, group);
  }

  lemma ThrashInjective(l: Layout, s: Slot, t: Slot)
    requires l.Pages() > 0 && On(l, Thrash, s) && On(l, Thrash, t) && Rank(l, Thrash, s) == Rank(l, Thrash, t)
    ensures s == t
  {
    var m := l.lines;
    MixedRadix((s.line - s.page) % m, s.page, (t.line - t.page) % m, t.page, l.Pages());
    ModShift(s.line - s.page, s.page, m);
    ModShift(t.line - t.page, t.page, m);
    ModUnique(s.line, 0, s.line, m);
    ModUnique(t.line, 0, t.line, m);
  }

  lemma HeadsInjective(l: Layout, used: nat, s: Slot, t: Slot)
    requires l.Pages() > 0 && Fits(l, Heads(used)) && On(l, Heads(used), s) && On(l, Heads(used), t)
    requires Rank(l, Heads(used), s) == Rank(l, Heads(used), t)
    ensures s == t
  {
    MixedRadix(s.page, s.line, t.page, t.line, used);
  }

  lemma LanesInjective(l: Layout, tail: nat, s: Slot, t: Slot)
    requires l.Pages() > 0 && Fits(l, Lanes(tail)) && On(l, Lanes(tail), s) && On(l, Lanes(tail), t)
    requires Rank(l, Lanes(tail), s) == Rank(l, Lanes(tail), t)
    ensures s == t
  {
    LaneBound(l, tail, s);
    LaneBound(l, tail, t);
    hide LaneLength;
    MixedRadix(s.lane, s.page * l.lines + s.line, t.lane, t.page * l.lines + t.line, LaneLength(l, tail));
    MixedRadix(s.page, s.line, t.page, t.line, l.lines);
  }

  lemma GroupedInjective(l: Layout, group: nat, tail: nat, s: Slot, t: Slot)
    requires l.Pages() > 0 && Fits(l, Grouped(group, tail)) && On(l, Grouped(group, tail), s)
    requires On(l, Grouped(group, tail), t)
    requires Rank(l, Grouped(group, tail), s) == Rank(l, Grouped(group, tail), t)
    ensures s == t
  {
    GroupedBound(l, group, tail, s);
    GroupedBound(l, group, tail, t);
    hide GroupedLength, GroupRank, GroupStart, GroupSize, Height;
    MixedRadix(s.lane, GroupRank(l, group, s), t.lane, GroupRank(l, group, t), GroupedLength(l, group, tail));
    GroupRankInjective(l, group, s, t);
  }

  /** No two slots of a chain are visited at the same time. */
  lemma RankInjective(l: Layout, sh: Shape, s: Slot, t: Slot)
    requires l.Valid() && Fits(l, sh) && On(l, sh, s) && On(l, sh, t) && Rank(l, sh, s) == Rank(l, sh, t)
    ensures s == t
  {
    hide Rank;
    match sh
    case Lanes(tail) => LanesInjective(l, tail, s, t);
    case Heads(used) => HeadsInjective(l, used, s, t);
    case Thrash => ThrashInjective(l, s, t);
    case Grouped(group, tail) => GroupedInjective(l, group, tail, s, t);
  }

  // ---------------------------------------------------------------- one cycle

  /** Pointer-sized cells by byte offset. */
  type Memory = map<nat, nat>

  /** Each slot of the chain holds the address of the next one. */
  ghost predicate Threaded(l: Layout, sh: Shape, mem: Memory)
    requires Fits(l, sh) && l.Pages() > 0
  {
    forall s: Slot | On(l, sh, s) :: Points(l, mem, s, Next(l, sh, s))
  }

  ghost predicate Points(l: Layout, mem: Memory, s: Slot, t: Slot)
    requires s.page < l.Pages()
  {
    t.page < l.Pages() && Addr(l, s) in mem && mem[Addr(l, s)] == Addr(l, t)
  }

  /** Where `n` loads lead from `a`; a cell that was never written leads nowhere else. */
  function Follow(mem: Memory, a: nat, n: nat): nat {
    if n == 0 then a
    else
      var b := Follow(mem, a, n - 1);
      if b in mem then mem[b] else b
  }

  function Walk(l: Layout, sh: Shape, s: Slot, n: nat): (t: Slot)
    requires l.Valid() && Fits(l, sh) && On(l, sh, s)
    ensures On(l, sh, t)
  {
    if n == 0 then s
    else
      var t := Walk(l, sh, s, n - 1);
      StepsByOne(l, sh, t);
      Next(l, sh, t)
  }

  /** Places `n` steps further on a circle. */
  function Around(r: nat, n: nat, len: nat): nat
    requires r < len && n <= len
  {
    if r + n < len then r + n else r + n - len
  }

  lemma {:induction false} WalkRank(l: Layout, sh: Shape, s: Slot, n: nat)
    requires l.Valid() && Fits(l, sh) && On(l, sh, s) && n <= Length(l, sh)
    ensures Rank(l, sh, s) < Length(l, sh)
    ensures Rank(l, sh, Walk(l, sh, s, n)) == Around(Rank(l, sh, s), n, Length(l, sh))
  {
    hide Next, Rank, Length, On;
    StepsByOne(l, sh, s);
    if n > 0 {
      WalkRank(l, sh, s, n - 1);
      StepsByOne(l, sh, Walk(l, sh, s, n - 1));
    }
  }

  lemma {:induction false} WalkFollows(l: Layout, sh: Shape, mem: Memory, s: Slot, n: nat)
    requires l.Valid() && Fits(l, sh) && On(l, sh, s) && Threaded(l, sh, mem)
    ensures Follow(mem, Addr(l, s), n) == Addr(l, Walk(l, sh, s, n))
  {
    hide Next, Addr;
    if n > 0 {
      WalkFollows(l, sh, mem, s, n - 1);
      assert Points(l, mem, Walk(l, sh, s, n - 1), Walk(l, sh, s, n));
    }
  }

  /**
   One cycle: starting at any slot of the chain, the loads reach every slot of it exactly once before they are back
   at the start, which happens after as many loads as there are slots.
   */
  ghost predicate OneCycle(l: Layout, sh: Shape, mem: Memory)
    requires Fits(l, sh) && l.Pages() > 0
  {
    forall s: Slot, t: Slot | On(l, sh, s) && On(l, sh, t) :: ReachedOnce(mem, Addr(l, s), Addr(l, t), Length(l, sh))
  }

  ghost predicate ReachedOnce(mem: Memory, a: nat, b: nat, len: nat) {
    && Follow(mem, a, len) == a
    && (exists n: nat | n < len :: Follow(mem, a, n) == b)
    && (forall n: nat, m: nat | n < m < len :: Follow(mem, a, n) == b ==> Follow(mem, a, m) != b)
  }

  /** Loads until slot `t`, coming from slot `s`. */
  function Gap(l: Layout, sh: Shape, s: Slot, t: Slot): int
    requires l.Pages() > 0 && Fits(l, sh) && On(l, sh, s) && On(l, sh, t)
  {
    var d := Rank(l, sh, t) - Rank(l, sh, s);
    if d >= 0 then d else d + Length(l, sh)
  }

  lemma ReachExactly(l: Layout, sh: Shape, mem: Memory, s: Slot, t: Slot, n: nat)
    requires l.Valid() && Fits(l, sh) && On(l, sh, s) && On(l, sh, t) && Threaded(l, sh, mem) && n < Length(l, sh)
    ensures 0 <= Gap(l, sh, s, t) < Length(l, sh)
    ensures Follow(mem, Addr(l, s), n) == Addr(l, t) <==> n == Gap(l, sh, s, t)
  {
    hide Next, Rank, Length, Addr;
    StepsByOne(l, sh, t);
    WalkRank(l, sh, s, n);
    WalkFollows(l, sh, mem, s, n);
    var u := Walk(l, sh, s, n);
    if n == Gap(l, sh, s, t) {
      RankInjective(l, sh, u, t);
    } else if Addr(l, u) == Addr(l, t) {
      OnInRange(l, sh, u);
      OnInRange(l, sh, t);
      AddrInjective(l, u, t);
    }
  }

  lemma OnInRange(l: Layout, sh: Shape, s: Slot)
    ensures On(l, sh, s) ==> InRange(l, s)
  {
  }

  /** A threaded chain is one cycle. */
  lemma ThreadedIsCycle(l: Layout, sh: Shape, mem: Memory)
    requires l.Valid() && Fits(l, sh) && Threaded(l, sh, mem)
    ensures OneCycle(l, sh, mem)
  {
    hide Next, Rank, Length, Addr, Threaded;
    forall s: Slot, t: Slot | On(l, sh, s) && On(l, sh, t)
      ensures ReachedOnce(mem, Addr(l, s), Addr(l, t), Length(l, sh))
    {
      var len := Length(l, sh);
      WalkRank(l, sh, s, len);
      WalkFollows(l, sh, mem, s, len);
      RankInjective(l, sh, Walk(l, sh, s, len), s);
      forall n: nat | n < len
        ensures 0 <= Gap(l, sh, s, t) < len
        ensures Follow(mem, Addr(l, s), n) == Addr(l, t) <==> n == Gap(l, sh, s, t)
      {
        ReachExactly(l, sh, mem, s, t, n);
      }
      assert Follow(mem, Addr(l, s), Gap(l, sh, s, t)) == Addr(l, t);
    }
  }
}
