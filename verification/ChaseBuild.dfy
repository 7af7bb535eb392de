/**
 The loops of lib_mem.c that store the pointer chains.

 Line and page sizes are powers of two, as the callers ask for them. The random
 numbers are any function; the starting addresses `p[k]` are not part of the model.
 */
module ChaseBuild {
  import opened MulFacts
  import opened BitReversal
  import opened ChaseCycle

  /** Rounding up. */
  lemma CeilBounds(n: nat, m: nat)
    requires n > 0 && m > 0
    ensures var c := (n + m - 1) / m; c > 0 && n <= c * m < n + m
    ensures n % m == 0 ==> n == (n + m - 1) / m * m
  {
    var c := (n + m - 1) / m;
    DivMod(n + m - 1, m);
    if n % m == 0 {
      DivMod(n, m);
      ModUnique(n + m - 1, n / m, m - 1, m);
    }
  }

  lemma CeilMono(n: nat, n': nat, m: nat)
    requires 0 < n <= n' && m > 0
    ensures (n + m - 1) / m <= (n' + m - 1) / m
  {
    var c, c' := (n + m - 1) / m, (n' + m - 1) / m;
    CeilBounds(n, m);
    CeilBounds(n', m);
    if c' < c {
      Mono(c' + 1, c, m);
      Add(c', 1, m);
    }
  }

  /** Cells outside [lo, hi) are as before. */
  ghost predicate Elsewhere(before: Memory, after: Memory, lo: nat, hi: nat) {
    forall a: nat :: !(lo <= a < hi) ==> (a in after <==> a in before) && (a in after ==> after[a] == before[a])
  }

  /** Every stored pointer lies in the allocated pages. */
  ghost predicate InBounds(l: Layout, mem: Memory) {
    forall a: nat | a in mem :: a + l.word <= l.total * l.PageSize()
  }

  /** Storing one pointer of a chain changes that slot, keeps to its line and stays inside the allocation. */
  lemma StoreSlot(l: Layout, mem: Memory, s: Slot, t: Slot)
    requires l.Valid() && InRange(l, s) && InRange(l, t) && InBounds(l, mem)
    ensures var after := mem[Addr(l, s) := Addr(l, t)];
            Points(l, after, s, t) && InBounds(l, after)
            && Elsewhere(mem, after, LineBase(l, s.page, s.line), LineBase(l, s.page, s.line) + l.LineSize())
  {
    Inside(l, s);
    hide Rev, Layout.LineSize, Layout.PageSize, LineBase;
    Nat(Rev(l.wordBits, s.lane), l.word);
  }

  /** ... and leaves the pointers of other slots alone. */
  lemma StoreKeeps(l: Layout, mem: Memory, s: Slot, t: Slot, u: Slot, v: Slot)
    requires l.Valid() && InRange(l, s) && t.page < l.Pages() && InRange(l, u) && u != s && Points(l, mem, u, v)
    ensures Points(l, mem[Addr(l, s) := Addr(l, t)], u, v)
  {
    hide Addr;
    if Addr(l, u) == Addr(l, s) { AddrInjective(l, u, s); }
  }

  lemma ElsewhereTwice(m0: Memory, m1: Memory, m2: Memory, lo: nat, hi: nat)
    requires Elsewhere(m0, m1, lo, hi) && Elsewhere(m1, m2, lo, hi)
    ensures Elsewhere(m0, m2, lo, hi)
  {
  }

  /**
   Lines of a page that are linked when `done` links were made before it: `npointers` bounds the links made in all.
   */
  function LinesLinked(done: nat, lines: nat, npointers: nat): nat {
    var left := npointers - 1 - done;
    if left >= lines - 1 then lines else if left <= 0 then 1 else left + 1
  }

  /** Links made on `pages` full pages: all lines but the last of each. */
  function Links(pages: nat, lines: nat): nat
    requires lines > 0
  {
    Nat(pages, lines - 1);
    pages * (lines - 1)
  }

  lemma LinksGrow(pages: nat, lines: nat)
    requires lines > 0
    ensures Links(0, lines) == 0 && Links(pages + 1, lines) == Links(pages, lines) + (lines - 1)
  {
    Add(pages, 1, lines - 1);
  }

  /** The pointer count covers all pages but the last. */
  predicate Roomy(pages: nat, lines: nat, npointers: nat) { (pages - 1) * lines <= npointers }

  /** Lines linked on the last of `pages` pages, each earlier page having all but its last line linked. */
  function LastTail(pages: nat, lines: nat, npointers: nat): nat
    requires pages > 0 && lines > 0
  {
    LinesLinked(Links(pages - 1, lines), lines, npointers)
  }

  lemma TailFits(done: nat, lines: nat, npointers: nat)
    requires lines > 0
    ensures 1 <= LinesLinked(done, lines, npointers) <= lines
  {
  }

  /** When the pointers fill whole pages, every line of the last page is linked too. */
  lemma FullTail(pages: nat, lines: nat, npointers: nat)
    requires pages > 0 && lines > 0 && npointers == pages * lines
    ensures LastTail(pages, lines, npointers) == lines
  {
    Add(pages - 1, 1, lines);
    ProductLess(pages - 1, lines);
  }

  /** The last page is linked whole exactly when there is a pointer left for each of its links. */
  lemma TailIsFull(pages: nat, lines: nat, npointers: nat)
    requires pages > 0 && lines > 0
    ensures LastTail(pages, lines, npointers) == lines <==> lines == 1 || npointers > pages * (lines - 1)
  {
    Add(pages - 1, 1, lines - 1);
  }

  lemma ProductLess(a: nat, b: nat)
    ensures a * (b - 1) == a * b - a
  {
  }

  /** A page before the last finds the pointer count not yet used up. */
  lemma RoomOnPage(i: nat, pages: nat, lines: nat, npointers: nat)
    requires i + 1 < pages && Roomy(pages, lines, npointers) && lines > 0
    ensures Links(i, lines) + lines <= npointers
  {
    Mono(i, pages - 2, lines - 1);
    ProductLess(pages - 2, lines);
    Add(pages - 2, 1, lines);
  }

  /** Pointers that fit in `len` bytes: at least all the lines of all pages but the last. */
  lemma PointerCount(len: nat, line: nat, lines: nat)
    requires len > 0 && line > 0 && lines > 0 && lines * line > 0
    ensures var pages := (len + lines * line - 1) / (lines * line);
            pages > 0 && (pages - 1) * lines <= len / line
            && (len % (lines * line) == 0 ==> len / line == pages * lines)
  {
    var m := lines * line;
    var pages := (len + m - 1) / m;
    CeilBounds(len, m);
    Add(pages - 1, 1, m);
    Assoc(pages - 1, lines, line);
    Assoc(pages, lines, line);
    DivMod(len, line);
    var a := (pages - 1) * lines;
    Nat(pages - 1, lines);
    assert a * line < (len / line + 1) * line by { Add(len / line, 1, line); }
    Less(a, len / line + 1, line);
    if len % m == 0 { DivExact(pages * lines, line); }
  }

  /** Slots visited on earlier pages, or on this page in earlier lines. */
  predicate Before(s: Slot, i: nat, j: nat) { s.page < i || (s.page == i && s.line < j) }

  ghost predicate ThreadedTo(l: Layout, sh: Shape, mem: Memory, i: nat, j: nat)
    requires Fits(l, sh) && l.Pages() > 0
  {
    forall s: Slot | On(l, sh, s) && Before(s, i, j) :: Points(l, mem, s, Next(l, sh, s))
  }

  /** All slots of a line point to the same lanes of another line. */
  ghost predicate LineLinked(l: Layout, mem: Memory, i: nat, j: nat, i2: nat, j2: nat)
    requires i < l.Pages()
  {
    forall lane: nat | lane < l.words :: Points(l, mem, Slot(i, j, lane), Slot(i2, j2, lane))
  }

  /** Pointers outside a rewritten line stay. */
  lemma PointsKept(l: Layout, before: Memory, after: Memory, i: nat, j: nat, s: Slot, t: Slot)
    requires l.Valid() && InRange(l, s) && i < l.Pages() && j < l.lines && !(s.page == i && s.line == j)
    requires Elsewhere(before, after, LineBase(l, i, j), LineBase(l, i, j) + l.LineSize()) && Points(l, before, s, t)
    ensures Points(l, after, s, t)
  {
    Inside(l, s);
    var a := Addr(l, s);
    if LineBase(l, i, j) <= a < LineBase(l, i, j) + l.LineSize() {
      SameLine(l, s, Slot(i, j, 0), a);
    }
  }

  lemma ThreadKept(l: Layout, sh: Shape, before: Memory, after: Memory, i: nat, j: nat)
    requires l.Valid() && Fits(l, sh) && i < l.Pages() && j < l.lines
    requires Elsewhere(before, after, LineBase(l, i, j), LineBase(l, i, j) + l.LineSize())
    requires ThreadedTo(l, sh, before, i, j)
    ensures ThreadedTo(l, sh, after, i, j)
  {
    hide Next, Addr, LineBase;
    forall s: Slot | On(l, sh, s) && Before(s, i, j) ensures Points(l, after, s, Next(l, sh, s)) {
      PointsKept(l, before, after, i, j, s, Next(l, sh, s));
    }
  }

  /** The round of `thrash_initialize` that links a line of a page. */
  function RoundOf(line: nat, page: nat, lines: nat): (r: nat)
    requires lines > 0
    ensures r < lines
  {
    (line - page) % lines
  }

  /** The memories agree but for the head of line `last` of the pages from `from` on. */
  ghost predicate SameBut(l: Layout, m: Memory, full: Memory, last: nat, from: nat) {
    m.Keys == full.Keys && forall a: nat | a in m :: m[a] == full[a] || IsHead(l, a, last, from)
  }

  ghost predicate IsHead(l: Layout, a: nat, line: nat, from: nat) {
    exists k: nat | from <= k < l.Pages() :: Addr(l, Slot(k, line, 0)) == a
  }

  /** The pointer of slot `s` has been set to slot `t`, and no other pointer has changed. */
  ghost predicate Stored(l: Layout, before: Memory, after: Memory, s: Slot, t: Slot)
    requires s.page < l.Pages() && t.page < l.Pages()
  {
    && after == before[Addr(l, s) := Addr(l, t)] && Points(l, after, s, t)
    && forall u: Slot, v: Slot | InRange(l, u) && u != s && Points(l, before, u, v) :: Points(l, after, u, v)
  }

  lemma StoredKeeps(l: Layout, before: Memory, after: Memory, s: Slot, t: Slot, u: Slot, v: Slot)
    requires s.page < l.Pages() && t.page < l.Pages() && Stored(l, before, after, s, t)
    requires InRange(l, u) && u != s && Points(l, before, u, v)
    ensures Points(l, after, u, v)
  {
    hide Points;
  }

  lemma StoredPoints(l: Layout, before: Memory, after: Memory, s: Slot, t: Slot)
    requires s.page < l.Pages() && t.page < l.Pages() && Stored(l, before, after, s, t)
    ensures Points(l, after, s, t)
  {
    hide Points;
  }

  /** One more head is linked to the next one of the chain. */
  lemma HeadsOn(l: Layout, used: nat, before: Memory, after: Memory, i: nat, j: nat, t: Slot)
    requires l.Pages() > 0 && Fits(l, Heads(used)) && On(l, Heads(used), Slot(i, j, 0)) && t.page < l.Pages()
    requires t == Next(l, Heads(used), Slot(i, j, 0)) && Stored(l, before, after, Slot(i, j, 0), t)
    requires ThreadedTo(l, Heads(used), before, i, j)
    ensures ThreadedTo(l, Heads(used), after, i, j + 1)
  {
    hide Stored, Points, Next;
    StoredPoints(l, before, after, Slot(i, j, 0), t);
    forall s: Slot | On(l, Heads(used), s) && Before(s, i, j + 1) ensures Points(l, after, s, Next(l, Heads(used), s)) {
      if s != Slot(i, j, 0) {
        StoredKeeps(l, before, after, Slot(i, j, 0), t, s, Next(l, Heads(used), s));
      }
    }
  }

  lemma NothingThreaded(l: Layout, sh: Shape)
    requires l.Pages() > 0 && Fits(l, sh)
    ensures InBounds(l, map[]) && ThreadedTo(l, sh, map[], 0, 0)
  {
  }

  lemma HeadsPage(l: Layout, used: nat, mem: Memory, i: nat)
    requires l.Pages() > 0 && Fits(l, Heads(used)) && ThreadedTo(l, Heads(used), mem, i, used)
    ensures ThreadedTo(l, Heads(used), mem, i + 1, 0)
  {
    hide Points, Next;
  }

  lemma SameButOn(l: Layout, before: Memory, after: Memory, full: Memory, line: nat, i: nat, t: Slot)
    requires i < l.Pages() && t.page < l.Pages() && Stored(l, before, after, Slot(i, line, 0), t)
    requires SameBut(l, before, full, line, 0) && Addr(l, Slot(i, line, 0)) in full
    ensures SameBut(l, after, full, line, 0)
  {
    hide Addr, Points;
  }

  /** The fields of `struct mem_state` that the builders use. */
  class MemState {
    const word: nat
    const line: nat
    const pagesize: nat
    const len: nat
    const maxlen: nat
    ghost const wordBits: nat
    ghost const lineBits: nat
    var nwords: nat
    var nlines: nat
    var npages: nat
    var pages: seq<nat>
    var lines: seq<nat>
    var words: seq<nat>
    var mem: Memory
    ghost var lay: Layout

    ghost predicate Sized() {
      word > 0 && line == Pow2(wordBits) * word && pagesize == Pow2(lineBits) * line && 0 < len <= maxlen
    }

    /** `base_initialize` has run: the page table lists distinct pages, all inside the allocation. */
    ghost predicate Based()
      reads `lay, `nwords, `nlines, `npages, `pages
    {
      && Sized() && line > 0 && pagesize > 0 && nwords > 0 && nlines > 0 && npages > 0
      && lay.Valid() && lay.word == word && lay.wordBits == wordBits && lay.lineBits == lineBits
      && nwords == lay.words && nlines == lay.lines && npages == lay.Pages() <= |pages|
      && npages == (len + pagesize - 1) / pagesize
      && lay.total * pagesize <= maxlen + pagesize - 1
      && (forall i | 0 <= i < npages :: pages[i] == lay.order[i] * pagesize)
    }

    ghost predicate LinesReady()
      reads `lines, `nlines
    {
      lines == WordTable(nlines, line)
    }

    ghost predicate WordsReady()
      reads `words, `nwords
    {
      words == WordTable(nwords, word)
    }

    constructor (word: nat, ghost wordBits: nat, ghost lineBits: nat, line: nat, pagesize: nat, len: nat, maxlen: nat)
      requires word > 0 && line == Pow2(wordBits) * word && pagesize == Pow2(lineBits) * line && 0 < len <= maxlen
      ensures Sized() && this.len == len && this.wordBits == wordBits && this.lineBits == lineBits && this.word == word
      ensures this.line == line && this.pagesize == pagesize && this.maxlen == maxlen
    {
      this.word, this.wordBits, this.lineBits := word, wordBits, lineBits;
      this.line, this.pagesize, this.len, this.maxlen := line, pagesize, len, maxlen;
      nwords, nlines, npages, pages, lines, words, mem := 0, 0, 0, [], [], [], map[];
      lay := Layout(0, 0, 0, 0, 0, [], 0);
    }

    /** `base_initialize`: sizes, a random page order, fresh memory. */
    method BaseInitialize(rand: nat -> nat)
      requires Sized()
      modifies this
      ensures Based() && mem == map[]
    {
      Ge(Pow2(wordBits), word);
      Ge(Pow2(lineBits), line);
      nwords := line / word;
      nlines := pagesize / line;
      npages := (len + pagesize - 1) / pagesize;
      var nmpages := (maxlen + pagesize - 1) / pagesize;
      DivExact(Pow2(wordBits), word);
      DivExact(Pow2(lineBits), line);
      CeilBounds(len, pagesize);
      CeilBounds(maxlen, pagesize);
      CeilMono(len, maxlen, pagesize);
      ghost var order;
      pages, order := Permutation(nmpages, pagesize, rand);
      mem := map[];
      lay := Layout(word, nwords, nlines, wordBits, lineBits, order[..npages], nmpages);
    }

    lemma Facts()
      requires Based()
      ensures lay.Valid() && nwords == lay.words > 0 && nlines == lay.lines > 0 && npages == lay.Pages() > 0
      ensures line == lay.LineSize() > 0 && pagesize == lay.PageSize() > 0 && npages <= |pages|
    {
    }

    lemma LineAt(i: nat, j: nat)
      requires Based() && LinesReady() && i < npages && j < nlines
      ensures pages[i] + lines[j] == LineBase(lay, i, j) && |lines| == nlines
      ensures LineBase(lay, i, j) + line <= lay.total * lay.PageSize() && line == lay.LineSize()
    {
      LogPow2(lineBits);
      Inside(lay, Slot(i, j, 0));
    }

    lemma SlotAt(i: nat, j: nat, k: nat)
      requires Based() && LinesReady() && WordsReady() && i < npages && j < nlines && k < nwords
      ensures |words| == nwords && |lines| == nlines && pages[i] + lines[j] + words[k] == Addr(lay, Slot(i, j, k))
    {
      LogPow2(lineBits);
      LogPow2(wordBits);
    }

    lemma WordAt(i: nat, j: nat, c: nat)
      requires Based() && LinesReady() && i < npages && j < nlines && c < nwords
      ensures Rev(wordBits, c) < nwords && Rev(wordBits, Rev(wordBits, c)) == c
      ensures |lines| == nlines && pages[i] + lines[j] + c * word == Addr(lay, Slot(i, j, Rev(wordBits, c)))
    {
      LineAt(i, j);
      RevInvolution(wordBits, c);
    }

    /** Links every word of a line to the same word of another: the loop over word offsets. */
    method LinkLine(i: nat, j: nat, i2: nat, j2: nat)
      requires Based() && LinesReady() && i < npages && j < nlines && i2 < npages && j2 < nlines
      requires InBounds(lay, mem)
      modifies this`mem
      ensures LineLinked(lay, mem, i, j, i2, j2) && InBounds(lay, mem)
      ensures Elsewhere(old(mem), mem, LineBase(lay, i, j), LineBase(lay, i, j) + line)
    {
      hide Addr, LineBase, Rev, Layout.Valid, Layout.LineSize, Layout.PageSize, Based, LinesReady, InBounds;
      Facts();
      LineCount();
      var k := 0;
      ghost var c := 0;
      while k < line
        modifies this`mem
        invariant c <= nwords && k == c * word && InBounds(lay, mem)
        invariant forall m: nat | m < c ::
                    Points(lay, mem, Slot(i, j, Rev(wordBits, m)), Slot(i2, j2, Rev(wordBits, m)))
        invariant Elsewhere(old(mem), mem, LineBase(lay, i, j), LineBase(lay, i, j) + line)
        decreases line - k
      {
        Less(c, nwords, word);
        Add(c, 1, word);
        WordAt(i, j, c);
        WordAt(i2, j2, c);
        ghost var s, t := Slot(i, j, Rev(wordBits, c)), Slot(i2, j2, Rev(wordBits, c));
        StoreSlot(lay, mem, s, t);
        forall m: nat | m < c
          ensures Points(lay, mem[Addr(lay, s) := Addr(lay, t)], Slot(i, j, Rev(wordBits, m)),
                         Slot(i2, j2, Rev(wordBits, m)))
        {
          WordAt(i, j, m);
          StoreKeeps(lay, mem, s, t, Slot(i, j, Rev(wordBits, m)), Slot(i2, j2, Rev(wordBits, m)));
        }
        ElsewhereTwice(old(mem), mem, mem[Addr(lay, s) := Addr(lay, t)], LineBase(lay, i, j),
                       LineBase(lay, i, j) + line);
        mem := mem[pages[i] + lines[j] + k := pages[i2] + lines[j2] + k];
        k := k + word;
        c := c + 1;
      }
      if c < nwords { RadixBound(c, 0, nwords, word); }
      forall lane: nat | lane < lay.words ensures Points(lay, mem, Slot(i, j, lane), Slot(i2, j2, lane)) {
        WordAt(i, j, lane);
        assert Points(lay, mem, Slot(i, j, Rev(wordBits, Rev(wordBits, lane))),
                      Slot(i2, j2, Rev(wordBits, Rev(wordBits, lane))));
      }
    }

    lemma LineCount()
      requires Based()
      ensures line == nwords * word && word > 0
    {
    }

    /** The lane a lane is linked to, from the last page back to the first. */
    function Shifted(shift: bool, k: nat): nat
      reads `nwords
    {
      if !shift then k else if k + 1 == nwords then 0 else k + 1
    }

    /** Links the words of a line, in word order, to those of another line, one lane further on if `shift`. */
    method LinkLanes(i: nat, j: nat, i2: nat, j2: nat, shift: bool)
      requires Based() && LinesReady() && WordsReady() && i < npages && j < nlines && i2 < npages && j2 < nlines
      requires InBounds(lay, mem)
      modifies this`mem
      ensures forall k: nat | k < nwords :: Points(lay, mem, Slot(i, j, k), Slot(i2, j2, Shifted(shift, k)))
      ensures InBounds(lay, mem) && Elsewhere(old(mem), mem, LineBase(lay, i, j), LineBase(lay, i, j) + line)
    {
      hide Addr, LineBase, Layout.Valid, Layout.LineSize, Layout.PageSize, Based, LinesReady, WordsReady, InBounds;
      Facts();
      LineAt(i, j);
      var k := 0;
      while k < nwords
        invariant k <= nwords && Based() && LinesReady() && WordsReady() && InBounds(lay, mem)
        invariant forall m: nat | m < k :: Points(lay, mem, Slot(i, j, m), Slot(i2, j2, Shifted(shift, m)))
        invariant Elsewhere(old(mem), mem, LineBase(lay, i, j), LineBase(lay, i, j) + line)
      {
        var nw := Shifted(shift, k);
        SlotAt(i, j, k);
        SlotAt(i2, j2, nw);
        ghost var s, t := Slot(i, j, k), Slot(i2, j2, nw);
        StoreSlot(lay, mem, s, t);
        forall m: nat | m < k
          ensures Points(lay, mem[Addr(lay, s) := Addr(lay, t)], Slot(i, j, m), Slot(i2, j2, Shifted(shift, m)))
        {
          StoreKeeps(lay, mem, s, t, Slot(i, j, m), Slot(i2, j2, Shifted(shift, m)));
        }
        ElsewhereTwice(old(mem), mem, mem[Addr(lay, s) := Addr(lay, t)], LineBase(lay, i, j),
                       LineBase(lay, i, j) + line);
        mem := mem[pages[i] + lines[j] + words[k] := pages[i2] + lines[j2] + words[nw]];
        k := k + 1;
      }
    }

    // ---------------------------------------------------------------- mem_initialize

    /** The lines of one page, linked one after the other as far as the pointer count allows. */
    method LinkPage(i: nat, l0: nat, npointers: nat, ghost tail: nat) returns (j: nat, l: nat)
      requires Based() && LinesReady() && i < npages && InBounds(lay, mem)
      requires Fits(lay, Lanes(tail)) && ThreadedTo(lay, Lanes(tail), mem, i, 0)
      requires if i + 1 < npages then l0 + nlines <= npointers else tail == LinesLinked(l0, nlines, npointers)
      modifies this`mem
      ensures j == (if i + 1 < npages then nlines else tail) - 1 && l == l0 + j
      ensures ThreadedTo(lay, Lanes(tail), mem, i, j) && InBounds(lay, mem)
    {
      hide Addr, LineBase, Layout.Valid, Layout.LineSize, Layout.PageSize, Based, LinesReady, WordsReady, InBounds;
      Facts();
      j, l := 0, l0;
      while j < nlines - 1 && l < npointers - 1
        invariant 0 <= j <= (if i + 1 < npages then nlines else tail) - 1 && l == l0 + j
        invariant Based() && LinesReady() && InBounds(lay, mem) && ThreadedTo(lay, Lanes(tail), mem, i, j)
        decreases nlines - j
      {
        ghost var before := mem;
        LineAt(i, j);
        LinkLine(i, j, i, j + 1);
        ThreadKept(lay, Lanes(tail), before, mem, i, j);
        j, l := j + 1, l + 1;
      }
    }

    /** What `Next` does at the end of a page, seen lane by lane. */
    lemma PageEnd(tail: nat, i: nat, j: nat)
      requires Based() && Fits(lay, Lanes(tail)) && i < npages && j + 1 == (if i + 1 < npages then nlines else tail)
      requires ThreadedTo(lay, Lanes(tail), mem, i, j)
      requires forall k: nat | k < nwords ::
                 Points(lay, mem, Slot(i, j, k),
                        Slot(if i + 1 < npages then i + 1 else 0, 0, Shifted(i + 1 == npages, k)))
      ensures ThreadedTo(lay, Lanes(tail), mem, i + 1, 0)
    {
      hide Addr, LineBase, Layout.Valid;
      forall s: Slot | On(lay, Lanes(tail), s) && Before(s, i + 1, 0)
        ensures Points(lay, mem, s, Next(lay, Lanes(tail), s))
      {
        if !Before(s, i, j) { assert s == Slot(i, j, s.lane); }
      }
    }

    /** The run through the pages, up to the last line of the last page. */
    method LinkPages(npointers: nat, ghost tail: nat) returns (j: nat)
      requires Based() && LinesReady() && WordsReady() && mem == map[]
      requires tail == LastTail(npages, nlines, npointers) && Roomy(npages, nlines, npointers)
      modifies this`mem
      ensures Fits(lay, Lanes(tail)) && j == tail - 1 && InBounds(lay, mem)
      ensures ThreadedTo(lay, Lanes(tail), mem, npages - 1, tail - 1)
    {
      hide Addr, LineBase, Layout.Valid, Layout.LineSize, Layout.PageSize, Based, LinesReady, WordsReady, Next,
           LinesLinked, Links, Roomy;
      Facts();
      TailFits(Links(npages - 1, nlines), nlines, npointers);
      LinksGrow(0, nlines);
      var l, i := 0, 0;
      j := 0;
      while i < npages
        invariant i <= npages && Based() && LinesReady() && WordsReady() && InBounds(lay, mem)
        invariant i < npages ==> l == Links(i, nlines)
        invariant i == npages ==> j == tail - 1
        invariant if i < npages then ThreadedTo(lay, Lanes(tail), mem, i, 0)
                  else ThreadedTo(lay, Lanes(tail), mem, npages - 1, tail - 1)
      {
        if i + 1 < npages { RoomOnPage(i, npages, nlines, npointers); }
        j, l := LinkPage(i, l, npointers, tail);
        if i < npages - 1 {
          ghost var before := mem;
          LineAt(i, j);
          LinkLanes(i, j, i + 1, 0, false);
          ThreadKept(lay, Lanes(tail), before, mem, i, j);
          PageEnd(tail, i, j);
        }
        LinksGrow(i, nlines);
        i := i + 1;
      }
    }

    /**
     `mem_initialize`: the chain runs through every word of every line of the used pages, or of as many lines of the
     last page as `len` asks for, as one cycle inside the allocation.
     */
    method MemInitialize(rand: nat -> nat) returns (ghost tail: nat)
      requires Sized()
      modifies this
      ensures Based() && LinesReady() && WordsReady() && InBounds(lay, mem)
      ensures tail == LastTail(npages, nlines, len / line) && (len % pagesize == 0 ==> tail == nlines)
      ensures Fits(lay, Lanes(tail)) && Threaded(lay, Lanes(tail), mem) && OneCycle(lay, Lanes(tail), mem)
    {
      hide Addr, LineBase, Layout.Valid, Layout.LineSize, Layout.PageSize, Based, Next, Length, LastTail, Roomy,
           WordTable, Threaded, OneCycle;
      BaseInitialize(rand);
      Facts();
      PageCount();
      var npointers := len / line;
      words := WordsInitialize(nwords, word);
      lines := WordsInitialize(nlines, line);
      tail := LastTail(npages, nlines, npointers);
      var j := LinkPages(npointers, tail);
      ghost var before := mem;
      LineAt(npages - 1, j);
      LinkLanes(npages - 1, j, 0, 0, true);
      ThreadKept(lay, Lanes(tail), before, mem, npages - 1, j);
      PageEnd(tail, npages - 1, j);
      AllThreaded(Lanes(tail));
      ThreadedIsCycle(lay, Lanes(tail), mem);
      if len % pagesize == 0 { FullTail(npages, nlines, npointers); }
    }

    lemma PageCount()
      requires Based()
      ensures Roomy(npages, nlines, len / line) && (len % pagesize == 0 ==> len / line == npages * nlines)
    {
      PointerCount(len, line, nlines);
    }

    lemma AllThreaded(sh: Shape)
      requires Based() && Fits(lay, sh) && ThreadedTo(lay, sh, mem, npages, 0)
      ensures Threaded(lay, sh, mem)
    {
      hide Next, Addr;
    }

    // ---------------------------------------------------------------- line_initialize and line_test

    lemma HeadAt(i: nat, j: nat)
      requires Based() && LinesReady() && i < npages && j < nlines
      ensures |lines| == nlines && pages[i] + lines[j] == Addr(lay, Slot(i, j, 0))
    {
      LineAt(i, j);
      RevZero(wordBits);
    }

    /** Stores the pointer of one line head; the heads linked before stay linked. */
    method LinkHead(i: nat, j: nat, i2: nat, j2: nat)
      requires Based() && LinesReady() && i < npages && j < nlines && i2 < npages && j2 < nlines && InBounds(lay, mem)
      modifies this`mem
      ensures i < lay.Pages() && i2 < lay.Pages() && InBounds(lay, mem)
      ensures Stored(lay, old(mem), mem, Slot(i, j, 0), Slot(i2, j2, 0))
    {
      hide Addr, LineBase, Layout.Valid, Layout.LineSize, Layout.PageSize, Based, LinesReady, InBounds;
      Facts();
      HeadAt(i, j);
      HeadAt(i2, j2);
      ghost var s, t := Slot(i, j, 0), Slot(i2, j2, 0);
      StoreSlot(lay, mem, s, t);
      forall u: Slot, v: Slot | InRange(lay, u) && u != s && Points(lay, mem, u, v)
        ensures Points(lay, mem[Addr(lay, s) := Addr(lay, t)], u, v)
      {
        StoreKeeps(lay, mem, s, t, u, v);
      }
      mem := mem[pages[i] + lines[j] := pages[i2] + lines[j2]];
    }

    /** `line_initialize`: one cycle through the first word of every line, page after page. */
    method LineInitialize(rand: nat -> nat)
      requires Sized()
      modifies this
      ensures Based() && LinesReady() && InBounds(lay, mem)
      ensures Fits(lay, Heads(nlines)) && Threaded(lay, Heads(nlines), mem) && OneCycle(lay, Heads(nlines), mem)
    {
      hide Addr, LineBase, Layout.Valid, Layout.LineSize, Layout.PageSize, Based, WordTable, Length, OneCycle,
           ThreadedTo, Stored, InBounds, Threaded;
      BaseInitialize(rand);
      lines := WordsInitialize(nlines, line);
      Facts();
      ghost var sh := Heads(nlines);
      NothingThreaded(lay, sh);
      var i := 0;
      while i < npages
        modifies this`mem
        invariant i <= npages && InBounds(lay, mem) && ThreadedTo(lay, sh, mem, i, 0)
      {
        var j := 0;
        while j < nlines - 1
          modifies this`mem
          invariant 0 <= j <= nlines - 1 && i < npages && InBounds(lay, mem) && ThreadedTo(lay, sh, mem, i, j)
        {
          ghost var before := mem;
          LinkHead(i, j, i, j + 1);
          HeadsOn(lay, nlines, before, mem, i, j, Slot(i, j + 1, 0));
          j := j + 1;
        }
        ghost var before := mem;
        LinkHead(i, j, if i < npages - 1 then i + 1 else 0, 0);
        HeadsOn(lay, nlines, before, mem, i, j, Slot(if i < npages - 1 then i + 1 else 0, 0, 0));
        HeadsPage(lay, nlines, mem, i);
        i := i + 1;
      }
      AllThreaded(sh);
      ThreadedIsCycle(lay, sh, mem);
    }

    /** `m` is as `line_initialize` leaves it. */
    ghost predicate HeadsOf(m: Memory)
      reads `lay, `nlines, `npages
    {
      nlines == lay.lines && npages == lay.Pages() > 0 && Fits(lay, Heads(nlines)) && Threaded(lay, Heads(nlines), m)
    }

    /** All heads but the last used one of each page from `i` on point where the shorter chain wants them. */
    ghost predicate RelinkedTo(used: nat, m: Memory, i: nat)
      requires Fits(lay, Heads(used))
      reads `lay
    {
      forall s: Slot | On(lay, Heads(used), s) && (s.line + 1 < used || s.page < i) ::
        Points(lay, m, s, Next(lay, Heads(used), s))
    }

    lemma InnerLinks(used: nat)
      requires HeadsOf(mem) && 1 <= used < nlines
      ensures RelinkedTo(used, mem, 0)
    {
      hide Addr;
      forall s: Slot | On(lay, Heads(used), s) && s.line + 1 < used
        ensures Points(lay, mem, s, Next(lay, Heads(used), s))
      {
        assert On(lay, Heads(nlines), s);
        assert Next(lay, Heads(nlines), s) == Next(lay, Heads(used), s);
      }
    }

    /** One more of the last used heads points to the next page. */
    lemma Relinked(used: nat, before: Memory, after: Memory, i: nat)
      requires lay.Pages() == npages > 0 && nlines == lay.lines && 1 <= used < nlines && i < npages
      requires RelinkedTo(used, before, i)
      requires Stored(lay, before, after, Slot(i, used - 1, 0), Slot(if i < npages - 1 then i + 1 else 0, 0, 0))
      ensures RelinkedTo(used, after, i + 1)
    {
      hide Stored, Points;
      var s0, t := Slot(i, used - 1, 0), Slot(if i < npages - 1 then i + 1 else 0, 0, 0);
      StoredPoints(lay, before, after, s0, t);
      forall s: Slot | On(lay, Heads(used), s) && (s.line + 1 < used || s.page < i + 1)
        ensures Points(lay, after, s, Next(lay, Heads(used), s))
      {
        if s != s0 { StoredKeeps(lay, before, after, s0, t, s, Next(lay, Heads(used), s)); }
      }
    }

    /** A head of the full chain is in memory. */
    lemma HeadKnown(m: Memory, i: nat, j: nat)
      requires HeadsOf(m) && i < npages && j < nlines && lay.words > 0
      ensures Addr(lay, Slot(i, j, 0)) in m
    {
      assert Points(lay, m, Slot(i, j, 0), Next(lay, Heads(nlines), Slot(i, j, 0)));
      hide Addr;
    }

    lemma RelinkedAll(used: nat, m: Memory)
      requires lay.Pages() == npages > 0 && nlines == lay.lines && 1 <= used < nlines && RelinkedTo(used, m, npages)
      ensures Threaded(lay, Heads(used), m)
    {
      hide Points, Next;
    }

    /** The relinking of `line_test`: only the first `used` lines of each page remain on the chain. */
    method Relink(used: nat)
      requires Based() && LinesReady() && InBounds(lay, mem) && 1 <= used < nlines
      requires HeadsOf(mem)
      modifies this`mem
      ensures Fits(lay, Heads(used)) && Threaded(lay, Heads(used), mem) && InBounds(lay, mem)
      ensures SameBut(lay, mem, old(mem), used - 1, 0)
    {
      hide Addr, LineBase, Layout.Valid, Layout.LineSize, Layout.PageSize, Based, LinesReady, InBounds, Stored, SameBut,
           RelinkedTo, HeadsOf, Threaded;
      Facts();
      InnerLinks(used);
      ghost var full := mem;
      SameAtFirst(used);
      var i := 0;
      while i < npages
        modifies this`mem
        invariant i <= npages && InBounds(lay, mem) && SameBut(lay, mem, full, used - 1, 0)
        invariant RelinkedTo(used, mem, i)
      {
        ghost var before := mem;
        HeadKnown(full, i, used - 1);
        LinkHead(i, used - 1, if i < npages - 1 then i + 1 else 0, 0);
        Relinked(used, before, mem, i);
        SameButOn(lay, before, mem, full, used - 1, i, Slot(if i < npages - 1 then i + 1 else 0, 0, 0));
        i := i + 1;
      }
      RelinkedAll(used, mem);
    }

    lemma SameAtFirst(used: nat)
      requires used >= 1
      ensures SameBut(lay, mem, mem, used - 1, 0)
    {
      hide IsHead;
    }

    /** One head repaired. */
    lemma Repaired(used: nat, before: Memory, after: Memory, full: Memory, i: nat)
      requires HeadsOf(full) && lay.words > 0 && 1 <= used < nlines && i < npages
      requires SameBut(lay, before, full, used - 1, i)
      requires Stored(lay, before, after, Slot(i, used - 1, 0), Slot(i, used, 0))
      ensures SameBut(lay, after, full, used - 1, i + 1)
    {
      assert Points(lay, full, Slot(i, used - 1, 0), Next(lay, Heads(nlines), Slot(i, used - 1, 0)));
      hide Addr, HeadsOf;
    }

    lemma RepairedAll(used: nat, m: Memory, full: Memory)
      requires used >= 1 && SameBut(lay, m, full, used - 1, lay.Pages())
      ensures m == full
    {
      hide Addr;
    }

    /** The repair at the end of `line_test`. */
    method Repair(used: nat, ghost full: Memory)
      requires Based() && LinesReady() && InBounds(lay, mem) && 1 <= used < nlines
      requires HeadsOf(full)
      requires SameBut(lay, mem, full, used - 1, 0)
      modifies this`mem
      ensures mem == full
    {
      hide Addr, LineBase, Layout.Valid, Layout.LineSize, Layout.PageSize, Based, LinesReady, InBounds, Stored, SameBut,
           HeadsOf;
      Facts();
      var i := 0;
      while i < npages
        modifies this`mem
        invariant i <= npages && InBounds(lay, mem) && SameBut(lay, mem, full, used - 1, i)
      {
        ghost var before := mem;
        LinkHead(i, used - 1, i, used);
        Repaired(used, before, mem, full, i);
        i := i + 1;
      }
      RepairedAll(used, mem, full);
    }

    /** Line size `testLine` divides the page into 2^bits lines, no more than the chain has. */
    ghost predicate TestLine(testLine: nat, bits: nat) {
      testLine > 0 && pagesize == Pow2(bits) * testLine && bits <= lineBits
    }

    /**
     `line_test` around its timing loop: while it measures, memory is one cycle through the first lines of every
     page; afterwards memory is what `line_initialize` wrote.
     */
    method LineTest(testLine: nat, ghost bits: nat) returns (ghost during: Memory)
      requires Based() && LinesReady() && InBounds(lay, mem) && TestLine(testLine, bits)
      requires HeadsOf(mem)
      modifies this`mem
      ensures mem == old(mem) && Fits(lay, Heads(Pow2(bits))) && OneCycle(lay, Heads(Pow2(bits)), during)
    {
      DivExact(Pow2(bits), testLine);
      Pow2Mono(bits, lineBits);
      Facts();
      hide Addr, LineBase, Layout.Valid, Layout.LineSize, Layout.PageSize, Based, LinesReady, InBounds, Length,
           OneCycle;
      var used := pagesize / testLine;
      if used < nlines { Relink(used); }
      during := mem;
      ThreadedIsCycle(lay, Heads(used), mem);
      if used < nlines { Repair(used, old(mem)); }
    }

    // ---------------------------------------------------------------- thrash_initialize

    /** Pages before `i` are linked, and on page `i` the heads that the first `j` rounds reach. */
    ghost predicate ThrashedTo(i: nat, j: nat)
      requires lay.Pages() > 0 && nlines > 0
      reads `lay, `nlines, `mem
    {
      forall s: Slot | On(lay, Thrash, s) && (s.page < i || (s.page == i && RoundOf(s.line, i, nlines) < j)) ::
        Points(lay, mem, s, Next(lay, Thrash, s))
    }

    /** The head that round `j` reaches on page `i` is the only one of its kind, and its successor is the one stored. */
    lemma ThrashRound(i: nat, j: nat, s: Slot)
      requires Based() && i < npages && j < nlines
      ensures nlines == lay.lines && npages == lay.Pages() && On(lay, Thrash, Slot(i, (i + j) % nlines, 0))
      ensures Next(lay, Thrash, Slot(i, (i + j) % nlines, 0))
              == Slot(if i + 1 < npages then i + 1 else 0, (if i < npages - 1 then i + j + 1 else j + 1) % nlines, 0)
      ensures On(lay, Thrash, s) && s.page == i ==>
                (RoundOf(s.line, i, nlines) == j <==> s == Slot(i, (i + j) % nlines, 0))
    {
      Facts();
      ModShift(i + j, 1, nlines);
      ModShift(i + j, 1 - i, nlines);
      ModShift(i + j, 0 - i, nlines);
      ModUnique(j, 0, j, nlines);
      ModShift(s.line - i, i, nlines);
      if s.line < nlines { ModUnique(s.line, 0, s.line, nlines); }
      assert i + j + (1 - i) == j + 1 && i + j + (0 - i) == j && s.line - i + i == s.line;
    }

    /** All lines of one page, each linked to the next line of the next page. */
    method ThrashPage(i: nat)
      requires Based() && LinesReady() && i < npages == lay.Pages() && InBounds(lay, mem) && nlines > 0
      requires ThrashedTo(i, 0)
      modifies this`mem
      ensures InBounds(lay, mem) && ThrashedTo(i + 1, 0)
    {
      hide Addr, LineBase, Layout.Valid, Layout.LineSize, Layout.PageSize, Based, LinesReady, InBounds, Next, RoundOf;
      Facts();
      var j := 0;
      while j < nlines
        modifies this`mem
        invariant j <= nlines && InBounds(lay, mem) && ThrashedTo(i, j)
      {
        forall s: Slot
          ensures On(lay, Thrash, s) && s.page == i ==>
                    (RoundOf(s.line, i, nlines) == j <==> s == Slot(i, (i + j) % nlines, 0))
        {
          ThrashRound(i, j, s);
        }
        ThrashRound(i, j, Slot(0, 0, 0));
        var cur, next := (i + j) % nlines, (if i < npages - 1 then i + j + 1 else j + 1) % nlines;
        LinkHead(i, cur, if i < npages - 1 then i + 1 else 0, next);
        j := j + 1;
      }
    }

    /** The chain through one stretch of `count` lines, in table order, from and back to the base. */
    method ThrashStretch(count: nat)
      requires count > 0 && line > 0
      modifies this`mem, this`lines
      ensures lines == WordTable(count, line) && mem == Stretch(lines)
    {
      lines := WordsInitialize(count, line);
      mem := map[];
      var i := 0;
      while i < count - 1
        modifies this`mem
        invariant i <= count - 1 && mem == StretchTo(lines, i)
      {
        mem := mem[lines[i] := lines[i + 1]];
        i := i + 1;
      }
      mem := mem[lines[i] := 0];
    }

    /**
     `thrash_initialize`: for a length of whole pages, one cycle that is on a new page at every step; for any other
     length, a chain that reaches every line exactly when their number is a power of two.
     */
    method ThrashInitialize(rand: nat -> nat)
      requires Sized() && len >= line
      modifies this
      ensures Based()
      ensures (len % pagesize == 0 ==> Threaded(lay, Thrash, mem) && OneCycle(lay, Thrash, mem) && InBounds(lay, mem))
      ensures line > 0 && len % pagesize != 0 ==>
                ((forall c: nat | c < len / line :: Reached(mem, c * line)) <==> IsPow2(len / line))
    {
      hide Addr, LineBase, Layout.Valid, Layout.LineSize, Layout.PageSize, Based, WordTable, Length, OneCycle, Next,
           Reached, Stretch, IsPow2;
      BaseInitialize(rand);
      Facts();
      if len % pagesize != 0 {
        DivMod(len, line);
        ThrashStretch(len / line);
        StretchReaches(len / line, line);
      } else {
        lines := WordsInitialize(nlines, line);
        var i := 0;
        while i < npages
          modifies this`mem
          invariant i <= npages && InBounds(lay, mem) && ThrashedTo(i, 0)
        {
          ThrashPage(i);
          i := i + 1;
        }
        ThreadedIsCycle(lay, Thrash, mem);
      }
    }
  }

  /** Entries 0 to `n` of the table, each linked to the next. */
  function StretchTo(table: seq<nat>, n: nat): Memory
    requires n < |table| || n == 0
  {
    if n == 0 then map[] else StretchTo(table, n - 1)[table[n - 1] := table[n]]
  }

  function Stretch(table: seq<nat>): Memory
    requires table != []
  {
    StretchTo(table, |table| - 1)[table[|table| - 1] := 0]
  }

  ghost predicate Reached(mem: Memory, a: nat) { exists n: nat :: Follow(mem, 0, n) == a }

  lemma {:induction false} StretchValues(table: seq<nat>, n: nat, a: nat)
    requires n < |table|
    ensures a in StretchTo(table, n) ==> StretchTo(table, n)[a] in table
    ensures Distinct(table) ==>
              forall i | 0 <= i < n :: table[i] in StretchTo(table, n) && StretchTo(table, n)[table[i]] == table[i + 1]
  {
    if n > 0 {
      StretchValues(table, n - 1, a);
    }
  }

  lemma {:induction false} FollowTable(table: seq<nat>, n: nat)
    requires n < |table| && Distinct(table) && table[0] == 0
    ensures Follow(Stretch(table), 0, n) == table[n]
  {
    if n > 0 {
      FollowTable(table, n - 1);
      StretchValues(table, |table| - 1, 0);
    }
  }

  lemma {:induction false} FollowStays(table: seq<nat>, n: nat)
    requires table != [] && table[0] == 0
    ensures Follow(Stretch(table), 0, n) in table
  {
    if n > 0 {
      FollowStays(table, n - 1);
      StretchValues(table, |table| - 1, Follow(Stretch(table), 0, n - 1));
    }
  }

  /** Entry `i` of a table of line offsets. */
  lemma TableAt(count: nat, line: nat, i: nat)
    requires i < count
    ensures |WordTable(count, line)| == count && WordTable(count, line)[i] == Rev(Log(count), i) * line
    ensures i == 0 ==> WordTable(count, line)[i] == 0
  {
    RevZero(Log(count));
  }

  lemma AllReached(count: nat, line: nat, c: nat)
    requires c < count && line > 0 && IsPow2(count)
    ensures Reached(Stretch(WordTable(count, line)), c * line)
  {
    var table, n := WordTable(count, line), Log(count);
    RevInvolution(n, c);
    WordTableDistinct(count, line);
    hide WordTable, Stretch, Rev, IsPow2;
    TableAt(count, line, 0);
    TableAt(count, line, Rev(n, c));
    FollowTable(table, Rev(n, c));
  }

  lemma LastMissed(count: nat, line: nat)
    requires count > 0 && line > 0 && !IsPow2(count)
    ensures !Reached(Stretch(WordTable(count, line)), (count - 1) * line)
  {
    var table, n, c := WordTable(count, line), Log(count), count - 1;
    LogBounds(count);
    hide WordTable, Stretch, Rev;
    TableAt(count, line, 0);
    if Reached(Stretch(table), c * line) {
      var k: nat :| Follow(Stretch(table), 0, k) == c * line;
      FollowStays(table, k);
      var i: nat :| i < count && table[i] == c * line;
      TableAt(count, line, i);
      RevBound(n, i);
      ScaleInjective(Rev(n, i), c, line);
    }
  }

  lemma StretchReaches(count: nat, line: nat)
    requires count > 0 && line > 0
    ensures (forall c: nat | c < count :: Reached(Stretch(WordTable(count, line)), c * line)) <==> IsPow2(count)
  {
    hide Stretch, WordTable, IsPow2, Reached;
    TableAt(count, line, 0);
    if IsPow2(count) {
      forall c: nat | c < count ensures Reached(Stretch(WordTable(count, line)), c * line) {
        AllReached(count, line, c);
      }
    } else {
      LastMissed(count, line);
    }
  }

  lemma {:induction false} Pow2Mono(m: nat, n: nat)
    requires m <= n
    ensures Pow2(m) <= Pow2(n)
  {
    if m < n { Pow2Mono(m, n - 1); }
  }

  /**
   The lines that `line_test` visits start exactly at the multiples of the tested line size: each chain slot is such
   an offset in its page, and each such offset is a slot of the chain.
   */
  lemma TestedLines(l: Layout, bits: nat, testLine: nat, page: nat, c: nat)
    requires l.Valid() && bits <= l.lineBits && l.PageSize() == Pow2(bits) * testLine && page < l.Pages()
    requires c < Pow2(bits)
    ensures On(l, Heads(Pow2(bits)), Slot(page, c, 0)) && On(l, Heads(Pow2(bits)), Slot(page, Rev(bits, c), 0))
    ensures Addr(l, Slot(page, c, 0)) == l.order[page] * l.PageSize() + Rev(bits, c) * testLine
    ensures Addr(l, Slot(page, Rev(bits, c), 0)) == l.order[page] * l.PageSize() + c * testLine
  {
    RevInvolution(bits, c);
    Pow2Mono(bits, l.lineBits);
    HeadOffset(l, bits, testLine, c);
    HeadOffset(l, bits, testLine, Rev(bits, c));
    RevZero(l.wordBits);
  }

  lemma {:induction false} Pow2Add(m: nat, n: nat)
    ensures Pow2(m + n) == Pow2(m) * Pow2(n)
  {
    if n > 0 {
      Pow2Add(m, n - 1);
      TwoFold(Pow2(m), n);
    }
  }

  lemma Cancel(r: nat, k: nat, ls: nat, t: nat, p: nat)
    requires p > 0 && (p * k) * ls == p * t
    ensures (r * k) * ls == r * t
  {
    Assoc(p, k, ls);
    assert (k * ls) * p == t * p;
    ScaleInjective(k * ls, t, p);
    Assoc(r, k, ls);
  }

  lemma HeadOffset(l: Layout, bits: nat, testLine: nat, x: nat)
    requires l.Valid() && bits <= l.lineBits && l.PageSize() == Pow2(bits) * testLine && x < Pow2(bits)
    ensures Rev(l.lineBits, x) * l.LineSize() == Rev(bits, x) * testLine
  {
    RevPrefix(bits, l.lineBits, x);
    Pow2Add(bits, l.lineBits - bits);
    hide Rev, Pow2, Layout.LineSize;
    Cancel(Rev(bits, x), Pow2(l.lineBits - bits), l.LineSize(), testLine, Pow2(bits));
  }
}
