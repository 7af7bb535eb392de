/**
 lat_dram_page.c: the chain of `mem_initialize`, regrouped so that each group of
 pages is visited line by line across its pages.
 */
module DramPage {
  import opened MulFacts
  import opened BitReversal
  import opened ChaseCycle
  import opened ChaseBuild

  /** The slot at word `c` of a page, counted in memory order. */
  function CellSlot(l: Layout, page: nat, c: nat): Slot
    requires l.words > 0
  {
    Slot(page, Rev(l.lineBits, c / l.words), Rev(l.wordBits, c % l.words))
  }

  /** The word of its page at which a slot lies. */
  function CellOf(l: Layout, s: Slot): nat { Rev(l.lineBits, s.line) * l.words + Rev(l.wordBits, s.lane) }

  lemma CellSplit(l: Layout, c: nat)
    requires l.words > 0 && c < l.lines * l.words
    ensures c / l.words < l.lines && c % l.words < l.words
  {
    DivMod(c, l.words);
    Less(c / l.words, l.lines, l.words);
  }

  /** The address of word `c` of a page. */
  function CellAt(l: Layout, page: nat, c: nat): nat
    requires page < l.Pages()
  {
    Nat(l.order[page], l.PageSize());
    Nat(c, l.word);
    l.order[page] * l.PageSize() + c * l.word
  }

  /** Line and word of a cell, in memory order. */
  lemma CellParts(l: Layout, page: nat, c: nat)
    requires l.Valid() && page < l.Pages() && c < l.lines * l.words
    ensures var s := CellSlot(l, page, c);
            s.page == page && InRange(l, s) && Rev(l.lineBits, s.line) == c / l.words
            && Rev(l.wordBits, s.lane) == c % l.words
  {
    hide Rev, Pow2;
    CellSplit(l, c);
    RevInvolution(l.lineBits, c / l.words);
    RevInvolution(l.wordBits, c % l.words);
  }

  lemma CellAddr(l: Layout, page: nat, c: nat)
    requires l.Valid() && page < l.Pages() && c < l.lines * l.words
    ensures InRange(l, CellSlot(l, page, c)) && CellOf(l, CellSlot(l, page, c)) == c
    ensures Addr(l, CellSlot(l, page, c)) == CellAt(l, page, c)
  {
    hide Rev, Pow2, Layout.PageSize, CellSlot;
    CellParts(l, page, c);
    DivMod(c, l.words);
    hide Layout.Valid;
    CellOffset(c / l.words, c % l.words, c, l.words, l.word);
  }

  lemma CellOffset(x: nat, y: nat, c: nat, words: nat, word: nat)
    requires c == x * words + y
    ensures x * (words * word) + y * word == c * word
  {
    Assoc(x, words, word);
    Add(x * words, y, word);
  }

  lemma SlotCell(l: Layout, s: Slot)
    requires l.Valid() && InRange(l, s)
    ensures CellOf(l, s) < l.lines * l.words && CellSlot(l, s.page, CellOf(l, s)) == s
  {
    var x, y := Rev(l.lineBits, s.line), Rev(l.wordBits, s.lane);
    RevInvolution(l.lineBits, s.line);
    RevInvolution(l.wordBits, s.lane);
    hide Rev, Pow2;
    RadixBound(x, y, l.lines, l.words);
    ModUnique(x * l.words + y, x, y, l.words);
  }

  /** An address is in a page's block exactly when its slot is on that page. */
  lemma PageOf(l: Layout, s: Slot, page: nat)
    requires l.Valid() && InRange(l, s) && page < l.Pages()
    ensures l.order[page] * l.PageSize() <= Addr(l, s) < l.order[page] * l.PageSize() + l.PageSize() <==> s.page == page
  {
    Inside(l, s);
    hide Rev, Pow2, Layout.PageSize, Layout.LineSize;
    Nat(Rev(l.lineBits, s.line), l.LineSize());
    Nat(Rev(l.wordBits, s.lane), l.word);
    if l.order[page] * l.PageSize() <= Addr(l, s) < l.order[page] * l.PageSize() + l.PageSize() {
      SameBlock(l.order[page], l.order[s.page], l.PageSize(), Addr(l, s));
    }
  }

  /** A slot's address on another page lies at the same offset. */
  lemma OtherPage(l: Layout, s: Slot, page: nat)
    requires l.Valid() && InRange(l, s) && page < l.Pages()
    ensures Addr(l, s.(page := page)) - l.order[page] * l.PageSize() == Addr(l, s) - l.order[s.page] * l.PageSize()
  {
  }

  /** Pointers of slots on other pages than [lo, hi) stay. */
  ghost predicate PagesKept(l: Layout, before: Memory, after: Memory, lo: nat, hi: nat) {
    forall u: Slot, v: Slot | InRange(l, u) && !(lo <= u.page < hi) && Points(l, before, u, v) :: Points(l, after, u, v)
  }

  /** Where `regroup` leaves the pointer of a slot on the last page of a group that starts at page `first`. */
  function Redirected(t: Slot, last: nat, first: nat): Slot { if t.page == last then t.(page := first) else t }

  /** What one store to cell `c` of page `i` achieves. */
  lemma StoreCell(l: Layout, mem: Memory, i: nat, c: nat, t: Slot)
    requires l.Valid() && i < l.Pages() && c < l.lines * l.words && InRange(l, t) && InBounds(l, mem)
    ensures var after := mem[CellAt(l, i, c) := Addr(l, t)];
            Points(l, after, CellSlot(l, i, c), t) && InBounds(l, after) && PagesKept(l, mem, after, i, i + 1)
            && (forall m: nat, v: Slot | m < l.lines * l.words && m != c && Points(l, mem, CellSlot(l, i, m), v) ::
                  Points(l, after, CellSlot(l, i, m), v))
  {
    hide Addr, CellOf, Rev;
    CellAddr(l, i, c);
    hide CellSlot, Layout.PageSize;
    var s := CellSlot(l, i, c);
    assert s.page == i by { CellPage(l, i, c); }
    StoreSlot(l, mem, s, t);
    var after := mem[Addr(l, s) := Addr(l, t)];
    forall u: Slot, v: Slot | InRange(l, u) && !(i <= u.page < i + 1) && Points(l, mem, u, v)
      ensures Points(l, after, u, v)
    {
      StoreKeeps(l, mem, s, t, u, v);
    }
    forall m: nat, v: Slot
      | m < l.lines * l.words && m != c && CellSlot(l, i, m).page == i && Points(l, mem, CellSlot(l, i, m), v)
      ensures Points(l, after, CellSlot(l, i, m), v)
    {
      CellAddr(l, i, m);
      StoreKeeps(l, mem, s, t, CellSlot(l, i, m), v);
    }
  }

  /** A store of any value to cell `c` of page `i`. */
  lemma StoreRaw(l: Layout, mem: Memory, i: nat, c: nat, x: nat)
    requires l.Valid() && i < l.Pages() && c < l.lines * l.words && InBounds(l, mem)
    ensures var after := mem[CellAt(l, i, c) := x];
            InBounds(l, after) && PagesKept(l, mem, after, i, i + 1)
            && (forall m: nat, v: Slot | m < l.lines * l.words && m != c && Points(l, mem, CellSlot(l, i, m), v) ::
                  Points(l, after, CellSlot(l, i, m), v))
  {
    hide Addr, CellOf, Rev;
    CellAddr(l, i, c);
    hide CellSlot, Layout.PageSize;
    var s := CellSlot(l, i, c);
    assert s.page == i by { CellPage(l, i, c); }
    StoreInside(l, mem, s, x);
    var after := mem[Addr(l, s) := x];
    forall u: Slot, v: Slot | InRange(l, u) && !(i <= u.page < i + 1) && Points(l, mem, u, v)
      ensures Points(l, after, u, v)
    {
      RawKeeps(l, mem, s, x, u, v);
    }
    forall m: nat, v: Slot
      | m < l.lines * l.words && m != c && CellSlot(l, i, m).page == i && Points(l, mem, CellSlot(l, i, m), v)
      ensures Points(l, after, CellSlot(l, i, m), v)
    {
      CellAddr(l, i, m);
      RawKeeps(l, mem, s, x, CellSlot(l, i, m), v);
    }
  }

  lemma StoreInside(l: Layout, mem: Memory, s: Slot, x: nat)
    requires l.Valid() && InRange(l, s) && InBounds(l, mem)
    ensures InBounds(l, mem[Addr(l, s) := x])
  {
    StoreSlot(l, mem, s, s);
    hide Addr, Layout.PageSize;
    assert Addr(l, s) in mem[Addr(l, s) := Addr(l, s)];
  }

  lemma RawKeeps(l: Layout, mem: Memory, s: Slot, x: nat, u: Slot, v: Slot)
    requires l.Valid() && InRange(l, s) && InRange(l, u) && u != s && Points(l, mem, u, v)
    ensures Points(l, mem[Addr(l, s) := x], u, v)
  {
    hide Addr;
    if Addr(l, u) == Addr(l, s) { AddrInjective(l, u, s); }
  }

  lemma CellPage(l: Layout, i: nat, c: nat)
    requires l.words > 0
    ensures CellSlot(l, i, c).page == i
  {
  }

  // ---------------------------------------------------------------- regroup

  /** The chain of `mem_initialize` on the pages from `from` on. */
  ghost predicate LanesFrom(l: Layout, tail: nat, mem: Memory, from: nat, to: nat)
    requires l.Pages() > 0 && Fits(l, Lanes(tail))
  {
    forall s: Slot | On(l, Lanes(tail), s) && from <= s.page < to :: Points(l, mem, s, Next(l, Lanes(tail), s))
  }

  /** Cells 0 to `c` of page `i` point to where `Next` and the regrouping say. */
  ghost predicate CellsDone(l: Layout, mem: Memory, i: nat, i2: nat, c: nat)
    requires l.words > 0 && i < l.Pages()
  {
    forall m: nat | m < c :: Points(l, mem, CellSlot(l, i, m), CellSlot(l, i2, m))
  }

  /** The facts about a state's sizes that the loops below use. */
  lemma Sizes(st: MemState)
    requires st.Based()
    ensures st.lay.Valid() && st.lay.words > 0 && st.lay.lines > 0 && st.npages == st.lay.Pages() <= |st.pages|
    ensures st.npages > 0
    ensures st.word == st.lay.word > 0 && st.pagesize == st.lay.PageSize() == (st.lay.lines * st.lay.words) * st.word
    ensures forall i | 0 <= i < st.npages :: st.pages[i] == st.lay.order[i] * st.lay.PageSize()
  {
    Assoc(st.lay.lines, st.lay.words, st.lay.word);
  }

  /** One page but the last of its group: every word points to the same word of the next page. */
  method CopyPage(st: MemState, i: nat)
    requires st.Based() && i + 1 < st.npages && InBounds(st.lay, st.mem)
    modifies st`mem
    ensures InBounds(st.lay, st.mem) && PagesKept(st.lay, old(st.mem), st.mem, i, i + 1)
    ensures forall s: Slot | InRange(st.lay, s) && s.page == i :: Points(st.lay, st.mem, s, s.(page := i + 1))
  {
    hide Addr, CellSlot, CellOf, Rev, MemState.Based, InBounds, Layout.Valid, Layout.PageSize;
    Sizes(st);
    ghost var l := st.lay;
    ghost var n := l.lines * l.words;
    var j := 0;
    ghost var c := 0;
    while j < st.pagesize
      modifies st`mem
      invariant c <= n && j == c * st.word && InBounds(l, st.mem)
      invariant CellsDone(l, st.mem, i, i + 1, c) && PagesKept(l, old(st.mem), st.mem, i, i + 1)
      decreases st.pagesize - j
    {
      Less(c, n, st.word);
      Add(c, 1, st.word);
      CellAddr(l, i, c);
      CellAddr(l, i + 1, c);
      StoreCell(l, st.mem, i, c, CellSlot(l, i + 1, c));
      st.mem := st.mem[st.pages[i] + j := st.pages[i + 1] + j];
      j := j + st.word;
      c := c + 1;
    }
    if c < n { RadixBound(c, 0, n, st.word); }
    forall s: Slot | InRange(l, s) && s.page == i ensures Points(l, st.mem, s, s.(page := i + 1)) {
      CopyTarget(l, s, i + 1);
      SlotCell(l, s);
    }
  }

  lemma CopyTarget(l: Layout, s: Slot, page: nat)
    requires l.Valid() && InRange(l, s)
    ensures CellSlot(l, page, CellOf(l, s)) == s.(page := page)
  {
    SlotCell(l, s);
  }

  /**
   The last page of a group: pointers that stay on the page go to the group's first page instead. A cell that has never
   been written holds an arbitrary value, and is treated like any other.
   */
  method TurnPage(st: MemState, ghost tail: nat, first: nat, i: nat, junk: nat -> nat)
    requires st.Based() && first < i < st.npages == st.lay.Pages() && InBounds(st.lay, st.mem)
    requires Fits(st.lay, Lanes(tail)) && LanesFrom(st.lay, tail, st.mem, i, i + 1)
    modifies st`mem
    ensures InBounds(st.lay, st.mem) && PagesKept(st.lay, old(st.mem), st.mem, i, i + 1)
    ensures forall s: Slot | On(st.lay, Lanes(tail), s) && s.page == i ::
              Points(st.lay, st.mem, s, Redirected(Next(st.lay, Lanes(tail), s), i, first))
  {
    hide Addr, CellSlot, CellOf, Rev, MemState.Based, InBounds, Layout.Valid, Layout.PageSize, Next;
    Sizes(st);
    ghost var l := st.lay;
    ghost var n := l.lines * l.words;
    TurnsStart(l, tail, st.mem, i, first);
    var page := st.pages[i];
    var j := 0;
    ghost var c := 0;
    while j < st.pagesize
      modifies st`mem
      invariant c <= n && j == c * st.word && InBounds(l, st.mem)
      invariant Turned(l, tail, st.mem, i, first, c) && PagesKept(l, old(st.mem), st.mem, i, i + 1)
      decreases st.pagesize - j
    {
      Less(c, n, st.word);
      Add(c, 1, st.word);
      ghost var s := CellSlot(l, i, c);
      assert TurnedCell(l, tail, st.mem, i, first, c, c);
      CellAddr(l, i, c);
      TurnsTo(l, tail, st.mem, i, first, c);
      ghost var before := st.mem;
      var ptr := if page + j in st.mem then st.mem[page + j] else junk(page + j);
      if page <= ptr < page + st.pagesize {
        var offset := ptr - page;
        StoreTurned(l, tail, st.mem, i, first, c, st.pages[first] + offset);
        st.mem := st.mem[page + j := st.pages[first] + offset];
      }
      TurnsOn(l, tail, before, st.mem, i, first, c);
      j := j + st.word;
      c := c + 1;
    }
    if c < n { RadixBound(c, 0, n, st.word); }
    forall s: Slot | On(l, Lanes(tail), s) && s.page == i
      ensures Points(l, st.mem, s, Redirected(Next(l, Lanes(tail), s), i, first))
    {
      SlotCell(l, s);
      assert TurnedCell(l, tail, st.mem, i, first, c, CellOf(l, s));
    }
  }

  /** Cell `m` of page `i`, if it is on the chain: turned if it comes before `c`, else as `mem_initialize` left it. */
  ghost predicate TurnedCell(l: Layout, tail: nat, mem: Memory, i: nat, first: nat, c: nat, m: nat)
    requires l.words > 0 && i < l.Pages() && Fits(l, Lanes(tail))
  {
    var s := CellSlot(l, i, m);
    InRange(l, s) &&
    (On(l, Lanes(tail), s) ==>
       var t := Next(l, Lanes(tail), s);
       Points(l, mem, s, if m < c then Redirected(t, i, first) else t))
  }

  ghost predicate Turned(l: Layout, tail: nat, mem: Memory, i: nat, first: nat, c: nat)
    requires l.words > 0 && i < l.Pages() && Fits(l, Lanes(tail))
  {
    forall m: nat | m < l.lines * l.words :: TurnedCell(l, tail, mem, i, first, c, m)
  }

  lemma TurnsStart(l: Layout, tail: nat, mem: Memory, i: nat, first: nat)
    requires l.Valid() && i < l.Pages() && Fits(l, Lanes(tail)) && LanesFrom(l, tail, mem, i, i + 1)
    ensures Turned(l, tail, mem, i, first, 0)
  {
    hide Addr, CellOf, Rev, Next;
    forall m: nat | m < l.lines * l.words ensures TurnedCell(l, tail, mem, i, first, 0, m) {
      CellAddr(l, i, m);
    }
  }

  /** What the loop reads at cell `c` of the chain, and what its test means. */
  lemma TurnsTo(l: Layout, tail: nat, mem: Memory, i: nat, first: nat, c: nat)
    requires l.Valid() && first < l.Pages() && i < l.Pages() && Fits(l, Lanes(tail)) && c < l.lines * l.words
    requires TurnedCell(l, tail, mem, i, first, c, c)
    ensures On(l, Lanes(tail), CellSlot(l, i, c)) ==>
              var page := l.order[i] * l.PageSize();
              var t := Next(l, Lanes(tail), CellSlot(l, i, c));
              CellAt(l, i, c) in mem && mem[CellAt(l, i, c)] == Addr(l, t) && InRange(l, t)
              && (page <= Addr(l, t) < page + l.PageSize() <==> t.page == i)
              && (t.page == i ==> Addr(l, t.(page := first)) == l.order[first] * l.PageSize() + (Addr(l, t) - page))
  {
    hide Addr, CellOf, Rev, Layout.PageSize;
    CellAddr(l, i, c);
    if On(l, Lanes(tail), CellSlot(l, i, c)) {
      var t := Next(l, Lanes(tail), CellSlot(l, i, c));
      hide CellSlot, Next;
      PageOf(l, t, i);
      OtherPage(l, t, first);
    }
  }

  /** The loop's store at cell `c`. */
  lemma StoreTurned(l: Layout, tail: nat, mem: Memory, i: nat, first: nat, c: nat, x: nat)
    requires l.Valid() && first < l.Pages() && i < l.Pages() && Fits(l, Lanes(tail)) && c < l.lines * l.words
    requires InBounds(l, mem)
    requires InRange(l, CellSlot(l, i, c))
    requires On(l, Lanes(tail), CellSlot(l, i, c)) ==>
               var t := Next(l, Lanes(tail), CellSlot(l, i, c));
               InRange(l, t) && t.page == i && x == Addr(l, t.(page := first))
    ensures var after := mem[CellAt(l, i, c) := x];
            InBounds(l, after) && PagesKept(l, mem, after, i, i + 1)
            && (forall m: nat, v: Slot | m < l.lines * l.words && m != c && Points(l, mem, CellSlot(l, i, m), v) ::
                  Points(l, after, CellSlot(l, i, m), v))
            && (On(l, Lanes(tail), CellSlot(l, i, c)) ==>
                  Points(l, after, CellSlot(l, i, c), Next(l, Lanes(tail), CellSlot(l, i, c)).(page := first)))
  {
    hide Addr, CellOf, Rev, Layout.PageSize, Next, InBounds;
    if On(l, Lanes(tail), CellSlot(l, i, c)) {
      hide CellSlot;
      StoreCell(l, mem, i, c, Next(l, Lanes(tail), CellSlot(l, i, c)).(page := first));
    } else {
      hide CellSlot;
      StoreRaw(l, mem, i, c, x);
    }
  }

  /** The loop goes on to the next cell: `after` differs only where the pointer stayed on the page. */
  lemma TurnsOn(l: Layout, tail: nat, mem: Memory, after: Memory, i: nat, first: nat, c: nat)
    requires l.words > 0 && i < l.Pages() && Fits(l, Lanes(tail)) && c < l.lines * l.words
    requires Turned(l, tail, mem, i, first, c) && InRange(l, CellSlot(l, i, c))
    requires On(l, Lanes(tail), CellSlot(l, i, c)) ==>
               var t := Next(l, Lanes(tail), CellSlot(l, i, c));
               if t.page == i then Points(l, after, CellSlot(l, i, c), t.(page := first)) else after == mem
    requires forall m: nat, v: Slot
               | m < l.lines * l.words && m != c && InRange(l, CellSlot(l, i, m))
               && Points(l, mem, CellSlot(l, i, m), v) ::
               Points(l, after, CellSlot(l, i, m), v)
    ensures Turned(l, tail, after, i, first, c + 1)
  {
    hide Addr, Next, Rev;
    CellPage(l, i, c);
    hide CellSlot;
    var c1 := c + 1;
    forall m: nat | m < l.lines * l.words ensures TurnedCell(l, tail, after, i, first, c1, m) {
      assert TurnedCell(l, tail, mem, i, first, c, m);
    }
  }

  /** `regroup` on the pages [b, b + size): each page points into the next, the last back into the first. */
  method Regroup(st: MemState, ghost tail: nat, b: nat, size: nat, junk: nat -> nat)
    requires st.Based() && b + size <= st.npages == st.lay.Pages() && InBounds(st.lay, st.mem)
    requires Fits(st.lay, Lanes(tail)) && LanesFrom(st.lay, tail, st.mem, b, b + size)
    modifies st`mem
    ensures InBounds(st.lay, st.mem) && PagesKept(st.lay, old(st.mem), st.mem, b, b + size)
    ensures forall s: Slot | On(st.lay, Lanes(tail), s) && b <= s.page < b + size ::
              Points(st.lay, st.mem, s, GroupNext(st.lay, tail, s, b, size))
  {
    hide Addr, MemState.Based, InBounds, Layout.Valid, Layout.PageSize, Next;
    Sizes(st);
    if size <= 1 { return; }
    ghost var l := st.lay;
    var i := 0;
    while i < size - 1
      modifies st`mem
      invariant i <= size - 1 && InBounds(l, st.mem) && PagesKept(l, old(st.mem), st.mem, b, b + size)
      invariant LanesFrom(l, tail, st.mem, b + i, b + size)
      invariant forall s: Slot | InRange(l, s) && b <= s.page < b + i :: Points(l, st.mem, s, s.(page := s.page + 1))
    {
      CopyPage(st, b + i);
      i := i + 1;
    }
    TurnPage(st, tail, b, b + size - 1, junk);
  }

  /** The successor of a slot in a group of `size` pages from `b` on. */
  function GroupNext(l: Layout, tail: nat, s: Slot, b: nat, size: nat): Slot
    requires Fits(l, Lanes(tail)) && On(l, Lanes(tail), s)
  {
    if s.page + 1 < b + size then s.(page := s.page + 1)
    else if size <= 1 then Next(l, Lanes(tail), s)
    else Redirected(Next(l, Lanes(tail), s), s.page, b)
  }

  /** That successor is the one of the regrouped order. */
  lemma GroupNextIsNext(l: Layout, group: nat, tail: nat, s: Slot)
    requires Fits(l, Grouped(group, tail)) && On(l, Grouped(group, tail), s)
    ensures On(l, Lanes(tail), s)
    ensures GroupStart(group, s.page) >= 0
            && GroupNext(l, tail, s, GroupStart(group, s.page), GroupSize(l, group, s.page))
               == Next(l, Grouped(group, tail), s)
  {
    GroupStartFacts(group, s.page);
    GroupEnd(l, group, tail, s.page);
    hide GroupStart, GroupedLength;
  }

  lemma GroupStartOf(group: nat, i: nat, page: nat)
    requires group >= 1 && i % group == 0 && i <= page < i + group
    ensures GroupStart(group, page) == i
  {
    DivMod(i, group);
    ModUnique(page, i / group, page - i, group);
  }

  ghost predicate GroupedTo(l: Layout, group: nat, tail: nat, mem: Memory, i: nat)
    requires Fits(l, Grouped(group, tail))
  {
    forall s: Slot | On(l, Grouped(group, tail), s) && s.page < i :: Points(l, mem, s, Next(l, Grouped(group, tail), s))
  }

  /** The last group is a single page. */
  predicate LoneLast(l: Layout, group: nat)
    requires group >= 1 && l.Pages() > 0
  {
    GroupStart(group, l.Pages() - 1) == l.Pages() - 1
  }

  /**
   Regrouping keeps exactly the slots of the chain if and only if the last page is linked whole or is a group of its
   own; otherwise the lines from `tail` on of the other pages of its group fall off the chain.
   */
  lemma KeepsSlotsIff(l: Layout, group: nat, tail: nat)
    requires l.Valid() && Fits(l, Grouped(group, tail))
    ensures SameSlots(l, group, tail) <==> tail == l.lines || LoneLast(l, group)
    ensures tail == l.lines || LoneLast(l, group) ==> Length(l, Grouped(group, tail)) == Length(l, Lanes(tail))
  {
    var b := GroupStart(group, l.Pages() - 1);
    GroupStartFacts(group, l.Pages() - 1);
    if tail == l.lines || LoneLast(l, group) {
      forall s: Slot ensures On(l, Grouped(group, tail), s) <==> On(l, Lanes(tail), s) {
        if InRange(l, s) { GroupStartFacts(group, s.page); }
      }
      Add(b, l.Pages() - b, l.lines);
      Add(l.Pages() - 1, 1, l.lines);
    } else {
      GroupStartFacts(group, b);
      assert l.words > 0;
      assert On(l, Lanes(tail), Slot(b, tail, 0)) && !On(l, Grouped(group, tail), Slot(b, tail, 0));
    }
  }

  /** The group that begins at page `i`, regrouped, is threaded. */
  lemma GroupThreaded(l: Layout, group: nat, tail: nat, mem: Memory, i: nat)
    requires l.Pages() > 0 && Fits(l, Grouped(group, tail)) && i % group == 0 && i < l.Pages()
    requires forall s: Slot | On(l, Lanes(tail), s) && i <= s.page < i + Min(group, l.Pages() - i) ::
               Points(l, mem, s, GroupNext(l, tail, s, i, Min(group, l.Pages() - i)))
    requires GroupedTo(l, group, tail, mem, i)
    ensures GroupedTo(l, group, tail, mem, i + group)
  {
    hide Addr, Next, GroupNext, GroupStart, GroupSize, Height;
    forall s: Slot | On(l, Grouped(group, tail), s) && s.page < i + group
      ensures Points(l, mem, s, Next(l, Grouped(group, tail), s))
    {
      if s.page >= i {
        GroupStartOf(group, i, s.page);
        GroupNextIsNext(l, group, tail, s);
        SizeOf(l, group, s.page, i);
      }
    }
  }

  /** The groups before a page stay threaded when later pages are rewritten. */
  lemma GroupedKept(l: Layout, group: nat, tail: nat, before: Memory, after: Memory, i: nat, hi: nat)
    requires Fits(l, Grouped(group, tail)) && GroupedTo(l, group, tail, before, i) && PagesKept(l, before, after, i, hi)
    ensures GroupedTo(l, group, tail, after, i)
  {
    hide Addr, Next, Height;
  }

  lemma LanesKept(l: Layout, tail: nat, before: Memory, after: Memory, i: nat, hi: nat, to: nat)
    requires l.Pages() > 0 && Fits(l, Lanes(tail)) && LanesFrom(l, tail, before, i, to)
    requires PagesKept(l, before, after, i, hi) && i <= hi
    ensures LanesFrom(l, tail, after, hi, to)
  {
    hide Addr, Next;
  }

  /** The loop over the groups. */
  method RegroupAll(st: MemState, ghost tail: nat, group: nat, junk: nat -> nat)
    requires st.Based() && group >= 1 && st.npages == st.lay.Pages() > 0 && InBounds(st.lay, st.mem)
    requires Fits(st.lay, Lanes(tail)) && Threaded(st.lay, Lanes(tail), st.mem)
    modifies st`mem
    ensures InBounds(st.lay, st.mem) && Threaded(st.lay, Grouped(group, tail), st.mem)
  {
    hide Addr, MemState.Based, InBounds, Layout.Valid, Layout.PageSize, Next, GroupNext, On, GroupedTo, LanesFrom,
         PagesKept, Threaded;
    ghost var l := st.lay;
    var i := 0;
    GroupsStart(l, group, tail, st.mem);
    while i < st.npages
      modifies st`mem
      invariant i % group == 0 && InBounds(l, st.mem)
      invariant GroupedTo(l, group, tail, st.mem, i) && LanesFrom(l, tail, st.mem, i, st.npages)
    {
      var groupsize := group;
      if groupsize > st.npages - i { groupsize := st.npages - i; }
      ghost var before := st.mem;
      LanesShorter(l, tail, before, i, i + groupsize, st.npages);
      Regroup(st, tail, i, groupsize, junk);
      GroupedKept(l, group, tail, before, st.mem, i, i + groupsize);
      LanesKept(l, tail, before, st.mem, i, i + groupsize, st.npages);
      GroupThreaded(l, group, tail, st.mem, i);
      LanesShorter(l, tail, st.mem, i + groupsize, st.npages, st.npages);
      if i + group > st.npages { LanesNone(l, tail, st.mem, i + group, st.npages); }
      NextGroup(i, group);
      i := i + group;
    }
    GroupsEnd(l, group, tail, st.mem, i);
  }

  lemma GroupsStart(l: Layout, group: nat, tail: nat, mem: Memory)
    requires l.Pages() > 0 && Fits(l, Grouped(group, tail)) && Threaded(l, Lanes(tail), mem)
    ensures 0 % group == 0 && GroupedTo(l, group, tail, mem, 0) && LanesFrom(l, tail, mem, 0, l.Pages())
  {
    hide Addr, Next, Height;
    DivMod(0, group);
    ModUnique(0, 0, 0, group);
  }

  lemma LanesShorter(l: Layout, tail: nat, mem: Memory, from: nat, to: nat, end: nat)
    requires l.Pages() > 0 && Fits(l, Lanes(tail)) && LanesFrom(l, tail, mem, from, end) && to <= end
    ensures LanesFrom(l, tail, mem, from, to)
  {
    hide Addr, Next;
  }

  lemma LanesNone(l: Layout, tail: nat, mem: Memory, from: nat, to: nat)
    requires l.Pages() > 0 && Fits(l, Lanes(tail)) && from >= to
    ensures LanesFrom(l, tail, mem, from, to)
  {
    hide Addr, Next;
  }

  lemma GroupsEnd(l: Layout, group: nat, tail: nat, mem: Memory, i: nat)
    requires l.Pages() > 0 && Fits(l, Grouped(group, tail)) && GroupedTo(l, group, tail, mem, i) && i >= l.Pages()
    ensures Threaded(l, Grouped(group, tail), mem)
  {
    hide Addr, Next, Height;
  }

  /** The regrouped chain has exactly the slots of the chain before. */
  ghost predicate SameSlots(l: Layout, group: nat, tail: nat) {
    forall s: Slot :: On(l, Grouped(group, tail), s) <==> On(l, Lanes(tail), s)
  }

  /**
   `dram_page_initialize`: one cycle, group after group, and inside a group line by line across its pages, in the last
   group only the lines that are linked on the last page. The last group may be short. For whole pages these are all
   lines.
   */
  method DramPageInitialize(st: MemState, rand: nat -> nat, group: nat, junk: nat -> nat) returns (ghost tail: nat)
    requires st.Sized() && group >= 1
    modifies st
    ensures st.Based() && st.lay.Valid() && st.lay.lines > 0 && InBounds(st.lay, st.mem)
    ensures st.npages > 0 && st.nlines > 0 && st.line > 0 && tail == LastTail(st.npages, st.nlines, st.len / st.line)
    ensures st.pagesize > 0 && (st.len % st.pagesize == 0 ==> tail == st.lay.lines)
    ensures Fits(st.lay, Grouped(group, tail)) && Threaded(st.lay, Grouped(group, tail), st.mem)
    ensures OneCycle(st.lay, Grouped(group, tail), st.mem)
    ensures SameSlots(st.lay, group, tail) <==>
              st.nlines == 1 || st.len / st.line > st.npages * (st.nlines - 1) || LoneLast(st.lay, group)
    ensures SameSlots(st.lay, group, tail) ==> Length(st.lay, Grouped(group, tail)) == Length(st.lay, Lanes(tail))
  {
    hide Addr, MemState.Based, InBounds, Layout.Valid, Layout.PageSize, Next, On, Threaded, MemState.LinesReady,
         MemState.WordsReady, LastTail, OneCycle, Rank, LoneLast, SameSlots, Length;
    tail := st.MemInitialize(rand);
    st.Facts();
    RegroupAll(st, tail, group, junk);
    ThreadedIsCycle(st.lay, Grouped(group, tail), st.mem);
    KeepsSlotsIff(st.lay, group, tail);
    TailIsFull(st.npages, st.nlines, st.len / st.line);
  }

  /** A page and one line, in groups of two pages of four lines: two lines of the first page fall off the chain. */
  method LostLinesExample(rand: nat -> nat, junk: nat -> nat) returns (st: MemState, ghost tail: nat)
    ensures st.lay.Valid() && Fits(st.lay, Grouped(2, tail)) && OneCycle(st.lay, Grouped(2, tail), st.mem)
    ensures tail == 2 && !SameSlots(st.lay, 2, tail)
  {
    SmallPowers();
    st := new MemState(8, 3, 2, 64, 256, 320, 320);
    tail := DramPageInitialize(st, rand, 2, junk);
    SmallPage(st);
    hide OneCycle, Fits, SameSlots;
  }

  lemma SmallPowers()
    ensures Pow2(3) == 8 && Pow2(2) == 4
  {
    assert Pow2(1) == 2;
  }

  lemma SmallPage(st: MemState)
    requires st.Based() && st.lineBits == 2 && st.line == 64 && st.pagesize == 256 && st.len == 320
    ensures st.npages == 2 && st.nlines == 4 && st.lay.lines == 4 && LastTail(2, 4, 5) == 2 && !LoneLast(st.lay, 2)
  {
    SmallPowers();
  }

  lemma SizeOf(l: Layout, group: nat, page: nat, b: nat)
    requires group >= 1 && page < l.Pages() && GroupStart(group, page) == b
    ensures GroupSize(l, group, page) == Min(group, l.Pages() - b)
  {
  }

  lemma NextGroup(i: nat, group: nat)
    requires group >= 1 && i % group == 0
    ensures (i + group) % group == 0
  {
    DivMod(i, group);
    Add(i / group, 1, group);
    ModUnique(i + group, i / group + 1, 0, group);
  }
}
