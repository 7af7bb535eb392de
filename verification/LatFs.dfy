/**
 lat_fs: laying out `n` files in a tree of directories with at most `max` entries
 each. A path is the list of the numbers in it; printing them is not modelled.
 */
module LatFs {
  import opened MulFacts

  type Path = seq<nat>

  function Pow(m: nat, k: nat): nat { if k == 0 then 1 else Pow(m, k - 1) * m }

  lemma {:induction false} PowPos(m: nat, k: nat)
    requires m > 0
    ensures Pow(m, k) > 0
  {
    if k > 0 {
      PowPos(m, k - 1);
      Ge(Pow(m, k - 1), m);
    }
  }

  lemma {:induction false} PowAdd(m: nat, a: nat, b: nat)
    ensures Pow(m, a + b) == Pow(m, a) * Pow(m, b)
  {
    if b > 0 {
      PowAdd(m, a, b - 1);
      Assoc(Pow(m, a), Pow(m, b - 1), m);
    }
  }

  /** Files in `i` full trees of depth `d - 1`. */
  function Full(m: nat, d: nat, i: nat): nat {
    Nat(i, Pow(m, d));
    i * Pow(m, d)
  }

  function CeilDiv(a: nat, m: nat): nat
    requires m > 0
  {
    a / m + (if a % m != 0 then 1 else 0)
  }

  /** Rounding up: the only number of full or started blocks of `m` in `a`. */
  lemma CeilUnique(a: nat, m: nat, c: nat)
    requires m > 0
    ensures CeilDiv(a, m) == c <==> a <= c * m < a + m
  {
    var q, r := a / m, a % m;
    DivMod(a, m);
    var d := CeilDiv(a, m);
    Add(q, 1, m);
    if a <= c * m < a + m {
      if c < d { Mono(c + 1, d, m); Add(c, 1, m); }
      if d < c { Mono(d + 1, c, m); Add(d, 1, m); }
    }
  }

  /** Rounding up twice is rounding up once. */
  lemma CeilCeil(a: nat, p: nat, m: nat)
    requires p > 0 && m > 0 && p * m > 0
    ensures CeilDiv(CeilDiv(a, p), m) == CeilDiv(a, p * m)
  {
    var x := CeilDiv(a, p);
    var y := CeilDiv(x, m);
    CeilUnique(a, p, x);
    CeilUnique(x, m, y);
    hide CeilDiv;
    Mono(x, y * m, p);
    Mono(y * m, x + m - 1, p);
    Add(x, m - 1, p);
    Add(m, -1, p);
    Assoc(y, m, p);
    assert m * p == p * m;
    CeilUnique(a, p * m, y);
  }

  /** Whole blocks in front do not interfere with rounding. */
  lemma CeilShift(i: nat, a: nat, m: nat)
    requires m > 0
    ensures CeilDiv(i * m + a, m) == i + CeilDiv(a, m)
  {
    var c := CeilDiv(a, m);
    CeilUnique(a, m, c);
    Add(i, c, m);
    Nat(i, m);
    CeilUnique(i * m + a, m, i + c);
  }

  /** Directories below a node that holds `a` files at depth `d`: one per started block of m, m^2, ..., m^d files. */
  function Dirs(m: nat, d: nat, a: nat): nat
    requires m > 0
  {
    if d == 0 then 0 else (PowPos(m, d); Dirs(m, d - 1, a) + CeilDiv(a, Pow(m, d)))
  }

  lemma {:induction false} DirsNone(m: nat, d: nat)
    requires m > 0
    ensures Dirs(m, d, 0) == 0
  {
    if d > 0 {
      PowPos(m, d);
      DirsNone(m, d - 1);
      CeilUnique(0, Pow(m, d), 0);
    }
  }

  /** A full block of m^d files in front needs directories of its own. */
  lemma {:induction false} DirsSplit(m: nat, d: nat, e: nat, i: nat, a: nat)
    requires m > 0 && e <= d
    ensures Dirs(m, e, Full(m, d, i) + a) == Dirs(m, e, Full(m, d, i)) + Dirs(m, e, a)
    decreases e
  {
    Nat(i, Pow(m, d));
    if e > 0 {
      DirsSplit(m, d, e - 1, i, a);
      PowPos(m, e);
      PowAdd(m, d - e, e);
      var k := Pow(m, d - e);
      Assoc(i, k, Pow(m, e));
      Nat(i, k);
      CeilShift(i * k, a, Pow(m, e));
      CeilShift(i * k, 0, Pow(m, e));
      CeilUnique(0, Pow(m, e), 0);
    }
  }

  /** One more subdirectory, with `c` files, behind `i` full ones. */
  lemma OneMoreDir(m: nat, d: nat, i: nat, c: nat)
    requires m > 0 && d > 0 && 1 <= c <= Pow(m, d)
    ensures Dirs(m, d, Full(m, d, i) + c) == Dirs(m, d, Full(m, d, i)) + 1 + Dirs(m, d - 1, c)
  {
    var p := Pow(m, d);
    PowPos(m, d);
    Nat(i, p);
    DirsSplit(m, d, d - 1, i, c);
    CeilShift(i, c, p);
    CeilShift(i, 0, p);
    CeilUnique(0, p, 0);
    CeilUnique(c, p, 1);
  }

  // ---------------------------------------------------------------- where file k lies

  /** `k` in base m with `d` digits, most significant first. */
  function Digits(m: nat, d: nat, k: nat): (p: Path)
    requires m > 0
    ensures |p| == d
  {
    if d == 0 then [] else (PowPos(m, d - 1); [k / Pow(m, d - 1)] + Digits(m, d - 1, k % Pow(m, d - 1)))
  }

  lemma {:induction false} DigitsInjective(m: nat, d: nat, j: nat, k: nat)
    requires m > 0 && j < Pow(m, d) && k < Pow(m, d) && Digits(m, d, j) == Digits(m, d, k)
    ensures j == k
  {
    if d > 0 {
      var p := Pow(m, d - 1);
      PowPos(m, d - 1);
      assert Digits(m, d, j)[1..] == Digits(m, d - 1, j % p) && Digits(m, d, k)[1..] == Digits(m, d - 1, k % p);
      assert Digits(m, d, j)[0] == j / p && Digits(m, d, k)[0] == k / p;
      DigitsInjective(m, d - 1, j % p, k % p);
      DivMod(j, p);
      DivMod(k, p);
    }
  }

  lemma DigitsFirst(m: nat, d: nat, i: nat, r: nat)
    requires m > 0 && d > 0 && r < Pow(m, d - 1)
    ensures Digits(m, d, Full(m, d - 1, i) + r) == [i] + Digits(m, d - 1, r)
  {
    PowPos(m, d - 1);
    Nat(i, Pow(m, d - 1));
    ModUnique(i * Pow(m, d - 1) + r, i, r, Pow(m, d - 1));
  }

  lemma CeilMono(a: nat, b: nat, m: nat)
    requires m > 0 && a <= b
    ensures CeilDiv(a, m) <= CeilDiv(b, m)
  {
    var x, y := CeilDiv(a, m), CeilDiv(b, m);
    CeilUnique(a, m, x);
    CeilUnique(b, m, y);
    hide CeilDiv;
    if y < x {
      Mono(y + 1, x, m);
      Add(y, 1, m);
    }
  }

  lemma {:induction false} DirsMono(m: nat, d: nat, a: nat, b: nat)
    requires m > 0 && a <= b
    ensures Dirs(m, d, a) <= Dirs(m, d, b)
  {
    if d > 0 {
      PowPos(m, d);
      DirsMono(m, d - 1, a, b);
      CeilMono(a, b, Pow(m, d));
    }
  }

  // ---------------------------------------------------------------- the recursion

  /** An array entry: not set yet, or a path. */
  datatype Entry = Null | Name(path: Path)

  /** Files that a node at depth `d` takes of the `left` that remain. */
  function Taken(m: nat, d: nat, left: nat): nat { if left < Pow(m, d + 1) then left else Pow(m, d + 1) }

  /** `names[lo..hi]` are the files below `base`, numbered in base m. */
  ghost predicate Named(m: nat, d: nat, names: seq<Entry>, base: Path, lo: nat, hi: nat)
    requires m > 0 && lo <= hi <= |names|
  {
    forall k | lo <= k < hi :: names[k] == Name(base + Digits(m, d, k - lo))
  }

  /** Sizes alone: `f` files in full subtrees, and a subtree of up to `p` more. */
  lemma SubtreeSize(m: nat, p: nat, i: nat, left: nat)
    requires i < m && p > 0 && i * p < left
    ensures (i + 1) * p == i * p + p <= m * p && i < left / p + 1
  {
    Add(i, 1, p);
    Mono(i + 1, m, p);
    DivMod(left, p);
    Add(left / p, 1, p);
    Less(i, left / p + 1, p);
  }

  /** What one more subtree adds: `c` files behind `i` full subtrees of a node at depth `d`. */
  lemma SubtreeFits(m: nat, d: nat, i: nat, left: nat)
    requires m > 1 && d > 0 && i < m && Full(m, d, i) < left
    ensures var c := Taken(m, d - 1, left - Full(m, d, i));
            1 <= c <= Pow(m, d) && Full(m, d, i) + c <= Taken(m, d, left)
            && (c == Pow(m, d) ==> Full(m, d, i) + c == Full(m, d, i + 1))
            && (c < Pow(m, d) ==> Full(m, d, i) + c == left)
            && Dirs(m, d, Full(m, d, i)) + 1 + Dirs(m, d - 1, c)
               == Dirs(m, d, Full(m, d, i) + c) <= Dirs(m, d, Taken(m, d, left))
            && i < left / Pow(m, d) + 1
  {
    var p := Pow(m, d);
    PowPos(m, d);
    var c := Taken(m, d - 1, left - Full(m, d, i));
    SubtreeSize(m, p, i, left);
    assert m * p == Pow(m, d + 1) by { NextPow(m, d); }
    hide Pow, Dirs;
    assert Full(m, d, i + 1) == Full(m, d, i) + p;
    hide Full;
    OneMoreDir(m, d, i, c);
    DirsMono(m, d, Full(m, d, i) + c, Taken(m, d, left));
  }

  class Layout {
    const n: nat
    const max: nat
    const names: array<Entry>
    const dirs: array<Entry>

    constructor (n: nat, max: nat, ndirs: nat)
      ensures this.n == n && this.max == max && names.Length == n && dirs.Length == ndirs && fresh(names) && fresh(dirs)
      ensures names != dirs
      ensures forall k | 0 <= k < n :: names[k] == Null
      ensures forall k | 0 <= k < ndirs :: dirs[k] == Null
    {
      this.n, this.max := n, max;
      names := new Entry[n](_ => Null);
      dirs := new Entry[ndirs](_ => Null);
    }

    /** The files of a directory at the bottom. */
    method FillLeaf(foff0: nat, base: Path) returns (foff: nat)
      requires max > 1 && foff0 < n == names.Length
      modifies names
      ensures foff == foff0 + Taken(max, 0, n - foff0) <= n && Named(max, 1, names[..], base, foff0, foff)
      ensures forall k | 0 <= k < n && !(foff0 <= k < foff) :: names[k] == old(names[k])
    {
      assert Pow(max, 1) == max by { assert Pow(max, 0) == 1; }
      foff := foff0;
      var i := 0;
      while i < max && foff < n
        invariant i <= max && foff == foff0 + i <= n
        invariant forall k | foff0 <= k < foff :: names[k] == Name(base + [k - foff0])
        invariant forall k | 0 <= k < n && !(foff0 <= k < foff) :: names[k] == old(names[k])
      {
        names[foff] := Name(base + [i]);
        foff := foff + 1;
        i := i + 1;
      }
      forall k | foff0 <= k < foff ensures names[k] == Name(base + Digits(max, 1, k - foff0)) {
        OneDigit(max, k - foff0);
      }
    }

    /**
     `setup_names_recurse`: fills the node at `dirs[doff0]` with the next files, in order, and uses exactly the
     directories that `Dirs` counts.
     */
    method Recurse(foff0: nat, doff0: nat, depth: nat) returns (foff: nat, doff: nat)
      requires max > 1 && foff0 < n == names.Length && doff0 < dirs.Length && dirs[doff0].Name? && names != dirs
      requires doff0 + Dirs(max, depth, Taken(max, depth, n - foff0)) < dirs.Length
      modifies names, dirs
      ensures foff == foff0 + Taken(max, depth, n - foff0) <= n
      ensures doff == doff0 + Dirs(max, depth, Taken(max, depth, n - foff0))
      ensures Named(max, depth + 1, names[..], old(dirs[doff0].path), foff0, foff)
      ensures forall k | 0 <= k < n && !(foff0 <= k < foff) :: names[k] == old(names[k])
      ensures forall k | 0 <= k <= doff0 :: dirs[k] == old(dirs[k])
      ensures forall k | doff0 < k <= doff :: dirs[k].Name?
      decreases depth
    {
      hide Pow, Dirs, Digits, Taken;
      foff, doff := foff0, doff0;
      var base := dirs[doff0].path;
      if depth == 0 {
        NoDirs(max, Taken(max, 0, n - foff0));
        foff := FillLeaf(foff0, base);
        return;
      }
      PowPos(max, depth);
      var count, e := max, 1;
      OnePow(max);
      while e < depth
        modifies {}
        invariant 1 <= e <= depth && count == Pow(max, e)
      {
        NextPow(max, e);
        count := count * max;
        e := e + 1;
      }
      var ndirs := (n - foff0) / count + 1;
      ghost var left := n - foff0;
      var i := 0;
      DirsNone(max, depth);
      Starts(max, depth, left);
      while i < max && i < ndirs && foff < n
        invariant 0 <= i <= max && foff0 <= foff <= n && doff < dirs.Length
        invariant foff - foff0 <= Taken(max, depth, left) && (foff < n ==> foff - foff0 == Full(max, depth, i))
        invariant doff == doff0 + Dirs(max, depth, foff - foff0)
        invariant Named(max, depth + 1, names[..], base, foff0, foff)
        invariant forall k | 0 <= k < n && !(foff0 <= k < foff) :: names[k] == old(names[k])
        invariant forall k | 0 <= k <= doff0 :: dirs[k] == old(dirs[k])
        invariant forall k | doff0 < k <= doff :: dirs[k].Name?
        invariant i == 0 ==> foff == foff0
      {
        SubtreeFits(max, depth, i, left);
        doff := doff + 1;
        dirs[doff] := Name(base + [i]);
        ghost var before, f, d := names[..], foff, dirs[..];
        foff, doff := Recurse(foff, doff, depth - 1);
        NamesJoin(max, depth, before, names[..], base, foff0, f, foff, i);
        i := i + 1;
      }
      Ends(max, depth, left, i, foff - foff0);
    }
  }

  lemma OneDigit(m: nat, k: nat)
    requires m > 0
    ensures Digits(m, 1, k) == [k]
  {
    assert Pow(m, 0) == 1;
    assert Digits(m, 0, k % 1) == [];
  }

  lemma NoDirs(m: nat, a: nat)
    requires m > 0
    ensures Dirs(m, 0, a) == 0
  {
  }

  lemma OnePow(m: nat)
    ensures Pow(m, 1) == m
  {
    assert Pow(m, 0) == 1;
  }

  lemma NextPow(m: nat, e: nat)
    ensures Pow(m, e + 1) == Pow(m, e) * m
  {
  }

  lemma Starts(m: nat, d: nat, left: nat)
    requires m > 0
    ensures Full(m, d, 0) == 0 && (left > 0 ==> Taken(m, d, left) > 0)
  {
    PowPos(m, d + 1);
  }

  /** The loop over subdirectories stops when the node is full or no file is left. */
  lemma Ends(m: nat, d: nat, left: nat, i: nat, done: nat)
    requires m > 1 && d > 0 && i <= m && left > 0 && done <= Taken(m, d, left)
    requires (done < left ==> done == Full(m, d, i))
    requires Pow(m, d) > 0 && !(i < m && i < left / Pow(m, d) + 1 && done < left)
    ensures done == Taken(m, d, left)
  {
    var p := Pow(m, d);
    PowPos(m, d);
    if done < left {
      if i < m { SubtreeFits(m, d, i, left); }
      assert m * p == Pow(m, d + 1);
    }
  }

  /** The names of one more subtree continue the numbering. */
  lemma NamesJoin(m: nat, d: nat, before: seq<Entry>, after: seq<Entry>, base: Path, lo: nat, mid: nat, hi: nat, i: nat)
    requires m > 0 && lo <= mid <= hi <= |after| == |before| && mid - lo == Full(m, d, i) && hi - mid <= Pow(m, d)
    requires Named(m, d + 1, before, base, lo, mid) && Named(m, d, after, base + [i], mid, hi)
    requires forall k | lo <= k < mid :: after[k] == before[k]
    ensures Named(m, d + 1, after, base, lo, hi)
  {
    hide Pow, Digits;
    forall k | lo <= k < hi ensures after[k] == Name(base + Digits(m, d + 1, k - lo)) {
      if k >= mid {
        DigitsFirst(m, d + 1, i, k - mid);
        assert base + [i] + Digits(m, d, k - mid) == base + ([i] + Digits(m, d, k - mid));
      }
    }
  }

  // ---------------------------------------------------------------- setup_names

  /** One turn of the loop that counts directories level by level. */
  lemma NextLevel(m: nat, n: nat, depth: nat)
    requires m > 1 && n > 0
    ensures Pow(m, depth) > 0 && Pow(m, depth + 1) > 0
    ensures CeilDiv(CeilDiv(n, Pow(m, depth)), m) == CeilDiv(n, Pow(m, depth + 1))
    ensures CeilDiv(n, Pow(m, depth)) > 1 ==> CeilDiv(n, Pow(m, depth + 1)) < CeilDiv(n, Pow(m, depth))
    ensures CeilDiv(n, Pow(m, depth + 1)) >= 1
  {
    PowPos(m, depth);
    PowPos(m, depth + 1);
    CeilCeil(n, Pow(m, depth), m);
    var x, y := CeilDiv(n, Pow(m, depth)), CeilDiv(n, Pow(m, depth + 1));
    CeilUnique(x, m, y);
    CeilUnique(n, Pow(m, depth + 1), y);
    hide Pow, CeilDiv;
    if x > 1 && y >= x { Mono(x, y, m); Less2(x, m); }
  }

  lemma Less2(x: nat, m: nat)
    requires x > 1 && m > 1
    ensures x * m >= x + m
  {
    Add(x - 1, 1, m);
    assert (x - 1) * m == m * (x - 1);
    Mono(2, m, x - 1);
  }

  lemma AllTaken(m: nat, n: nat, depth: nat)
    requires m > 1 && n > 0 && Pow(m, depth + 1) > 0 && CeilDiv(n, Pow(m, depth + 1)) == 1
    ensures Taken(m, depth, n) == n && Dirs(m, depth + 1, n) == Dirs(m, depth, n) + 1
  {
    CeilUnique(n, Pow(m, depth + 1), 1);
  }

  lemma CeilOnce(n: nat, m: nat)
    requires m > 1
    ensures Pow(m, 1) == m && Dirs(m, 1, n) == CeilDiv(n, m) && Dirs(m, 0, n) == 0
  {
    OnePow(m);
    hide Pow, CeilDiv;
    assert Dirs(m, 0, n) == 0;
  }

  lemma DirsStep(m: nat, d: nat, n: nat)
    requires m > 1
    ensures Pow(m, d + 1) > 0 && Dirs(m, d + 1, n) == Dirs(m, d, n) + CeilDiv(n, Pow(m, d + 1))
  {
    PowPos(m, d + 1);
  }

  /**
   `setup_names`: the recursion places every file and uses exactly the directories counted beforehand, so its error
   report is never reached and neither array is overrun. File `k` lies where its digits in base `max` say, so all
   paths are different.
   */
  method SetupNames(iterations: nat, max: nat, root: Path)
    returns (l: Layout?, foff: nat, doff: nat, ndirs: nat, ghost depth: nat)
    requires max >= 2
    ensures iterations == 0 <==> l == null
    ensures l != null ==>
              && fresh(l) && l.names.Length == iterations && l.dirs.Length == ndirs
              && foff == iterations && doff == ndirs - 1
              && (forall k | 0 <= k < iterations :: l.names[k] == Name(root + Digits(max, depth + 1, k)))
              && (forall j, k | 0 <= j < k < iterations :: l.names[j] != l.names[k])
              && l.dirs[0] == Name(root) && (forall k | 0 <= k < ndirs :: l.dirs[k].Name?)
  {
    hide Pow, Dirs, CeilDiv, Digits, Taken;
    depth := 0;
    if iterations == 0 { return null, 0, 0, 0, 0; }
    ndirs := RoundUp(iterations, max);
    CeilOnce(iterations, max);
    NextLevel(max, iterations, 0);
    var left := ndirs;
    var d := 0;
    while left > 1
      invariant Pow(max, d + 1) > 0 && left == CeilDiv(iterations, Pow(max, d + 1)) >= 1
      invariant ndirs == Dirs(max, d + 1, iterations)
      decreases left
    {
      NextLevel(max, iterations, d + 1);
      DirsStep(max, d + 1, iterations);
      left := RoundUp(left, max);
      ndirs := ndirs + left;
      d := d + 1;
    }
    depth := d;
    AllTaken(max, iterations, d);
    l := new Layout(iterations, max, ndirs);
    l.dirs[0] := Name(root);
    foff, doff := l.Recurse(0, 0, d);
    assert l.names[..][0..] == l.names[..];
    forall j, k | 0 <= j < k < iterations ensures l.names[j] != l.names[k] {
      PathsDiffer(max, d + 1, root, j, k, iterations);
    }
  }

  /** The rounding up of the source. */
  method RoundUp(a: nat, m: nat) returns (c: nat)
    requires m > 0
    ensures c == CeilDiv(a, m)
  {
    c := a / m;
    if a % m != 0 { c := c + 1; }
  }

  lemma PathsDiffer(m: nat, d: nat, root: Path, j: nat, k: nat, n: nat)
    requires m > 1 && j < k < n && d > 0 && Taken(m, d - 1, n) == n
    ensures root + Digits(m, d, j) != root + Digits(m, d, k)
  {
    if root + Digits(m, d, j) == root + Digits(m, d, k) {
      assert (root + Digits(m, d, j))[|root|..] == Digits(m, d, j);
      assert (root + Digits(m, d, k))[|root|..] == Digits(m, d, k);
      DigitsInjective(m, d, j, k);
    }
  }
}
