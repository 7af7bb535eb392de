/**
 The tables that order lmbench's memory walks: `words_initialize` (bit reversal)
 and `permutation` (random shuffle).
 */
module BitReversal {
  import opened MulFacts

  function Pow2(n: nat): (r: nat)
    ensures r > 0
  {
    if n == 0 then 1 else 2 * Pow2(n - 1)
  }

  /** Bit `b` of `x`, as `x & (1 << b)` tests it. */
  function Bit(x: nat, b: nat): (r: nat)
    ensures r <= 1
  {
    if b == 0 then x % 2 else Bit(x / 2, b - 1)
  }

  /** `w | (1 << b)`. */
  function SetBit(w: nat, b: nat): nat { if Bit(w, b) == 1 then w else w + Pow2(b) }

  /** The lowest `n` bits of `x`, lowest first: bit reversal on `n` bits. */
  function Rev(n: nat, x: nat): nat {
    if n == 0 then 0 else 2 * Rev(n - 1, x) + Bit(x, n - 1)
  }

  /** The lowest `n` bits of `x`. */
  function Low(n: nat, x: nat): nat {
    if n == 0 then 0 else Low(n - 1, x) + Bit(x, n - 1) * Pow2(n - 1)
  }

  lemma TwoFold(a: nat, n: nat)
    requires n > 0
    ensures a * Pow2(n) == 2 * (a * Pow2(n - 1))
  {
    var p := Pow2(n - 1);
    assert a * (2 * p) == 2 * (a * p);
  }

  lemma {:induction false} LowAlt(n: nat, x: nat)
    requires n > 0
    ensures Low(n, x) == x % 2 + 2 * Low(n - 1, x / 2)
  {
    if n > 1 {
      LowAlt(n - 1, x);
      TwoFold(Bit(x, n - 1), n - 1);
    }
  }

  lemma {:induction false} LowAll(n: nat, x: nat)
    requires x < Pow2(n)
    ensures Low(n, x) == x
  {
    if n > 0 {
      LowAlt(n, x);
      LowAll(n - 1, x / 2);
    }
  }

  /** Bit reversal read from the other end. */
  lemma {:induction false} RevAlt(n: nat, x: nat)
    requires n > 0
    ensures Rev(n, x) == (x % 2) * Pow2(n - 1) + Rev(n - 1, x / 2)
  {
    if n > 1 {
      RevAlt(n - 1, x);
      TwoFold(x % 2, n - 1);
    }
  }

  lemma {:induction false} RevBound(n: nat, x: nat)
    ensures Rev(n, x) < Pow2(n)
  {
    if n > 0 { RevBound(n - 1, x); }
  }

  lemma {:induction false} RevTwice(n: nat, x: nat)
    ensures Rev(n, Rev(n, x)) == Low(n, x)
  {
    if n > 0 {
      var y := Rev(n, x);
      RevAlt(n, y);
      assert y % 2 == Bit(x, n - 1) && y / 2 == Rev(n - 1, x);
      RevTwice(n - 1, x);
    }
  }

  /** Reversing twice changes nothing, so reversal is a bijection of the numbers below 2^n. */
  lemma RevInvolution(n: nat, x: nat)
    requires x < Pow2(n)
    ensures Rev(n, Rev(n, x)) == x && Rev(n, x) < Pow2(n)
  {
    RevTwice(n, x);
    LowAll(n, x);
    RevBound(n, x);
  }

  lemma RevInjective(n: nat, x: nat, y: nat)
    requires x < Pow2(n) && y < Pow2(n) && Rev(n, x) == Rev(n, y)
    ensures x == y
  {
    RevInvolution(n, x);
    RevInvolution(n, y);
  }

  lemma {:induction false} HighBitsClear(m: nat, x: nat, b: nat)
    requires x < Pow2(m) && b >= m
    ensures Bit(x, b) == 0
  {
    if b > 0 {
      if m == 0 { HighBitsClear(0, x / 2, b - 1); } else { HighBitsClear(m - 1, x / 2, b - 1); }
    }
  }

  /** The first 2^m bit-reversed indices of 2^n are multiples of 2^(n-m): the 2^m-index table, spread out. */
  lemma {:induction false} RevPrefix(m: nat, n: nat, x: nat)
    requires m <= n && x < Pow2(m)
    ensures Rev(n, x) == Rev(m, x) * Pow2(n - m)
    decreases n
  {
    if m < n {
      RevPrefix(m, n - 1, x);
      HighBitsClear(m, x, n - 1);
      TwoFold(Rev(m, x), n - m);
    } else {
      assert Pow2(0) == 1;
    }
  }

  lemma {:induction false} MultipleBit(k: nat, c: nat, b: nat)
    requires b < c
    ensures Bit(k * Pow2(c), b) == 0
  {
    TwoFold(k, c);
    if b > 0 { MultipleBit(k, c - 1, b - 1); }
  }

  /** Number of bits below the highest one. */
  function Log(max: nat): nat { if max < 2 then 0 else 1 + Log(max / 2) }

  lemma {:induction false} LogBounds(max: nat)
    requires max > 0
    ensures Pow2(Log(max)) <= max < 2 * Pow2(Log(max))
  {
    if max >= 2 { LogBounds(max / 2); }
  }

  lemma {:induction false} LogPow2(n: nat)
    ensures Log(Pow2(n)) == n
  {
    if n > 0 { LogPow2(n - 1); }
  }

  lemma {:induction false} RevZero(n: nat)
    ensures Rev(n, 0) == 0
  {
    if n > 0 {
      RevZero(n - 1);
      HighBitsClear(0, 0, n - 1);
    }
  }

  lemma {:induction false} RevTop(n: nat, m: nat)
    requires n <= m
    ensures Rev(n, Pow2(m)) == 0
  {
    if n > 0 {
      RevTop(n - 1, m);
      MultipleBit(1, m, n - 1);
    }
  }

  predicate IsPow2(max: nat) { max == Pow2(Log(max)) }

  ghost predicate Distinct(s: seq<nat>) { forall i, j | 0 <= i < j < |s| :: s[i] != s[j] }

  function WordTable(max: nat, scale: nat): seq<nat> { seq(max, i requires 0 <= i < max => Rev(Log(max), i) * scale) }

  /** The table has no repeated entry exactly when its length is a power of two (or it is empty). */
  lemma WordTableDistinct(max: nat, scale: nat)
    requires scale > 0
    ensures Distinct(WordTable(max, scale)) <==> max == 0 || IsPow2(max)
  {
    var t, n := WordTable(max, scale), Log(max);
    if max > 0 {
      LogBounds(max);
      if IsPow2(max) {
        forall i, j | 0 <= i < j < max ensures t[i] != t[j] {
          if t[i] == t[j] {
            ScaleInjective(Rev(n, i), Rev(n, j), scale);
            RevInjective(n, i, j);
          }
        }
      } else {
        RevZero(n);
        RevTop(n, n);
        assert t[0] == t[Pow2(n)];
      }
    }
  }

  /** One entry of `words_initialize`: the bits of `i` are or-ed in one by one, from the other end. */
  method ReverseBits(i: nat, nbits: nat) returns (w: nat)
    ensures w == Rev(nbits, i)
  {
    w := 0;
    var j := 0;
    while j < nbits
      invariant j <= nbits && w == Rev(j, i) * Pow2(nbits - j)
    {
      ghost var r, p := Rev(j, i), Pow2(nbits - j - 1);
      TwoFold(r, nbits - j);
      Add(2 * r, 1, p);
      Assoc(2, r, p);
      if Bit(i, j) != 0 {
        MultipleBit(r, nbits - j, nbits - j - 1);
        w := SetBit(w, nbits - j - 1);
      }
      j := j + 1;
    }
    assert Pow2(0) == 1;
  }

  /** `words_initialize`. */
  method WordsInitialize(max: nat, scale: nat) returns (words: seq<nat>)
    ensures words == WordTable(max, scale)
  {
    hide Rev;
    var table := new nat[max];
    var i: nat := max / 2;
    var nbits: nat := 0;
    while i != 0
      invariant nbits + (if i == 0 then 0 else 1 + Log(i)) == Log(max)
      decreases i
    {
      i := i / 2;
      nbits := nbits + 1;
    }
    i := 0;
    while i < max
      invariant i <= max && nbits == Log(max)
      invariant forall k | 0 <= k < i :: table[k] == Rev(nbits, k) * scale
    {
      var w := ReverseBits(i, nbits);
      table[i] := w * scale;
      i := i + 1;
    }
    words := table[..];
  }

  // ---------------------------------------------------------------- random order

  /** `order` lists distinct numbers below `max`. */
  ghost predicate IsOrder(order: seq<nat>, max: nat) {
    |order| <= max && (forall i | 0 <= i < |order| :: order[i] < max) && Distinct(order)
  }

  /** 0, scale, 2 * scale, ... */
  function Multiples(max: nat, scale: nat): (s: seq<nat>)
    ensures |s| == max && forall k | 0 <= k < max :: s[k] == k * scale
  {
    if max == 0 then [] else Multiples(max - 1, scale) + [(max - 1) * scale]
  }

  /** Entry by entry, `s` is `order` times `scale`. */
  ghost predicate Scaled(s: seq<nat>, order: seq<nat>, scale: nat) {
    |s| == |order| && forall k | 0 <= k < |s| :: s[k] == order[k] * scale
  }

  function Swapped(s: seq<nat>, i: nat, j: nat): seq<nat>
    requires i < |s| && j < |s|
  {
    s[i := s[j]][j := s[i]]
  }

  /** A swap loses nothing and keeps the order an order. */
  lemma SwapKeeps(s: seq<nat>, order: seq<nat>, scale: nat, i: nat, j: nat)
    requires Scaled(s, order, scale) && IsOrder(order, |s|) && i < |s| && j < |s|
    ensures multiset(Swapped(s, i, j)) == multiset(s)
    ensures Scaled(Swapped(s, i, j), Swapped(order, i, j), scale) && IsOrder(Swapped(order, i, j), |s|)
  {
  }

  /** The swaps of `permutation`, from the last entry down; `order` follows the entries. */
  method Shuffle(a: array<nat>, rand: nat -> nat, scale: nat) returns (ghost order: seq<nat>)
    requires a.Length > 0 && forall k | 0 <= k < a.Length :: a[k] == k * scale
    modifies a
    ensures IsOrder(order, a.Length) && Scaled(a[..], order, scale)
    ensures multiset(a[..]) == multiset(old(a[..]))
  {
    order := seq(a.Length, (k: nat) => k);
    assert IsOrder(order, a.Length) && Scaled(a[..], order, scale);
    var i := a.Length - 1;
    hide IsOrder, Scaled;
    ScaledLength(a[..], order, scale);
    while i > 0
      invariant 0 <= i < a.Length == |order| && IsOrder(order, a.Length) && Scaled(a[..], order, scale)
      invariant multiset(a[..]) == multiset(old(a[..]))
    {
      var j := rand(i) % (i + 1);
      ghost var before := a[..];
      a[i], a[j] := a[j], a[i];
      assert a[..] == Swapped(before, i, j);
      SwapKeeps(before, order, scale, i, j);
      order := Swapped(order, i, j);
      i := i - 1;
    }
  }

  lemma ScaledLength(s: seq<nat>, order: seq<nat>, scale: nat)
    requires Scaled(s, order, scale)
    ensures |s| == |order|
  {
  }

  /** `permutation`: the multiples of `scale`, in an order chosen by the random numbers. */
  method Permutation(max: nat, scale: nat, rand: nat -> nat) returns (result: seq<nat>, ghost order: seq<nat>)
    requires max > 0
    ensures |result| == |order| == max && IsOrder(order, max)
    ensures forall k | 0 <= k < max :: result[k] == order[k] * scale
    ensures multiset(result) == multiset(Multiples(max, scale))
  {
    var a := new nat[max];
    var i := 0;
    while i < max
      invariant i <= max
      invariant forall k | 0 <= k < i :: a[k] == k * scale
    {
      a[i] := i * scale;
      i := i + 1;
    }
    assert a[..] == Multiples(max, scale);
    order := Shuffle(a, rand, scale);
    result := a[..];
  }
}
