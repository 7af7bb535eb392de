/**
 wrk's latency histogram: `stats_correct` as the in-place loop it is. Counters do not overflow.
 */
module Stats {
  import opened MulFacts

  // ---------------------------------------------------------------- stats_correct

  function Sum(s: seq<nat>): nat { if s == [] then 0 else Sum(s[..|s| - 1]) + s[|s| - 1] }

  lemma {:induction false} SumUpdate(s: seq<nat>, i: nat, v: nat)
    requires i < |s|
    ensures Sum(s[i := v]) == Sum(s) - s[i] + v
  {
    var n := |s| - 1;
    if i == n {
      assert s[i := v][..n] == s[..n];
    } else {
      assert s[i := v][..n] == s[..n][i := v];
      SumUpdate(s[..n], i, v);
    }
  }

  /** Entries j, j + e, j + 2e, ... below `n`. */
  function Every(d: seq<nat>, j: nat, e: nat, n: nat): nat
    requires e > 0 && n <= |d|
    decreases n - j
  {
    if j >= n then 0 else d[j] + Every(d, j + e, e, n)
  }

  /** `x` lies a whole number of steps before `n`. */
  predicate Aligned(x: int, n: int, e: nat)
    requires e > 0
  {
    x <= n && (n - x) % e == 0
  }

  lemma AlignedStep(x: int, n: int, e: nat)
    requires e > 0
    ensures Aligned(n, n, e)
    ensures Aligned(x, n, e) && x != n ==> x + e <= n
    ensures x + e <= n ==> (Aligned(x, n, e) <==> Aligned(x + e, n, e))
  {
    if x + e <= n {
      DivMod(n - (x + e), e);
      Add((n - (x + e)) / e, 1, e);
      ModUnique(n - x, (n - (x + e)) / e + 1, (n - (x + e)) % e, e);
    } else if x <= n {
      ModUnique(n - x, 0, n - x, e);
    }
    ModUnique(0, 0, 0, e);
  }

  /** One more entry comes into reach. */
  lemma {:induction false} EveryGrows(d: seq<nat>, j: nat, e: nat, n: nat)
    requires e > 0 && n < |d|
    ensures Every(d, j, e, n + 1) == Every(d, j, e, n) + (if Aligned(j, n, e) then d[n] else 0)
    decreases n + 1 - j
  {
    AlignedStep(j, n, e);
    if j < n {
      EveryGrows(d, j + e, e, n);
      if j + e > n { assert Every(d, j + e, e, n) == 0; }
    } else if j == n {
      assert Every(d, j + e, e, n + 1) == 0;
    }
  }

  /** Bin `m` when the entries below `n` have been spread. */
  function Spread(d: seq<nat>, m: nat, e: nat, n: nat): nat
    requires e > 0 && m < |d| && n <= |d|
  {
    if m > e then d[m] + Every(d, m + e, e, n) else d[m]
  }

  lemma SpreadGrows(d: seq<nat>, m: nat, e: nat, n: nat)
    requires e > 0 && m < |d| && n < |d|
    ensures Spread(d, m, e, n + 1) == Spread(d, m, e, n) + (if e < m < n && Aligned(m, n, e) then d[n] else 0)
    ensures m >= n ==> Spread(d, m, e, n) == d[m]
  {
    EveryGrows(d, m + e, e, n);
    AlignedStep(m, n, e);
  }

  class Histogram {
    var data: array<nat>
    var count: nat
    var max: nat

    constructor (data: array<nat>, count: nat, max: nat)
      ensures this.data == data && this.count == count && this.max == max
    {
      this.data, this.count, this.max := data, count, max;
    }

    /** Bins as they are while the additions for entry `n` are under way, from the top down to `m`. */
    ghost predicate Spreading(d: seq<nat>, e: nat, n: nat, m: int)
      requires e > 0 && n < |d|
      reads this, data
    {
      data.Length == |d| &&
      forall x | 0 <= x < |d| ::
        data[x] == Spread(d, x, e, n) + (if e < x < n && x > m && Aligned(x, n, e) then d[n] else 0)
    }

    /** One addition of the inner loop. */
    method AddOne(n: nat, m: nat, expected: nat, c: nat, ghost d: seq<nat>)
      requires 0 < expected < m < n < |d| && Aligned(m, n, expected) && c == d[n] && Spreading(d, expected, n, m)
      modifies data, this`count
      ensures Aligned(m - expected, n, expected) && Spreading(d, expected, n, m - expected)
      ensures count - Sum(data[..]) == old(count - Sum(data[..]))
    {
      AlignedStep(m - expected, n, expected);
      OnlyAligned(expected, n, m);
      hide Spread, Aligned, Sum;
      ghost var before := data[..];
      SumUpdate(before, m, before[m] + c);
      data[m] := data[m] + c;
      assert data[..] == before[m := before[m] + c];
      count := count + c;
    }

    /** Bins as they are when the entries below `n` have been spread. */
    ghost predicate SpreadTo(d: seq<nat>, e: nat, n: nat)
      requires e > 0 && n <= |d|
      reads this, data
    {
      data.Length == |d| && forall x | 0 <= x < |d| :: data[x] == Spread(d, x, e, n)
    }

    lemma BinSpread(d: seq<nat>, e: nat, n: nat, m: nat)
      requires e > 0 && n <= |d| && SpreadTo(d, e, n) && m < |d|
      ensures data.Length == |d| && data[m] == Spread(d, m, e, n)
    {
      hide Spread;
    }

    lemma StartsSpreading(d: seq<nat>, e: nat, n: nat)
      requires e > 0 && n < |d| && SpreadTo(d, e, n)
      ensures Spreading(d, e, n, n)
    {
      hide Spread, Aligned;
    }

    /** The inner loop: the count of entry `n` is added to every aligned bin between `expected` and `n`. */
    method AddBelow(n: nat, expected: nat, ghost d: seq<nat>)
      requires expected > 0 && n < |d| && SpreadTo(d, expected, n)
      modifies data, this`count
      ensures SpreadTo(d, expected, n + 1)
      ensures count - Sum(data[..]) == old(count - Sum(data[..]))
    {
      var c := data[n];
      var m: int := n - expected;
      SpreadGrows(d, n, expected, n);
      assert c == d[n];
      AlignedStep(m, n, expected);
      assert Aligned(m, n, expected) by { ModUnique(expected, 1, 0, expected); }
      StartsSpreading(d, expected, n);
      NoneBetween(d, expected, n, m);
      hide Spread, Aligned, Sum;
      while c > 0 && m > expected
        modifies data, this`count
        invariant m < n && Aligned(m, n, expected) && c == d[n] && Spreading(d, expected, n, m)
        invariant count - Sum(data[..]) == old(count - Sum(data[..]))
        decreases m
      {
        AddOne(n, m, expected, c, d);
        m := m - expected;
      }
      forall x | 0 <= x < |d| ensures data[x] == Spread(d, x, expected, n + 1) {
        SpreadGrows(d, x, expected, n);
      }
    }

    lemma NoneBetween(d: seq<nat>, e: nat, n: nat, m: int)
      requires e > 0 && n < |d| && Spreading(d, e, n, n) && m == n - e
      ensures Spreading(d, e, n, m)
    {
      forall x | 0 <= x < |d| && m < x < n ensures !Aligned(x, n, e) { AlignedStep(x, n, e); }
    }

    /**
     `stats_correct`: every bin above `expected` ends with the sum of the original bins one, two, three... expected
     intervals above it, the others keep their value, and the count grows by exactly what was added.
     */
    method Correct(expected: nat)
      requires expected >= 1 && max < data.Length
      modifies data, this`count
      ensures data.Length == old(data.Length)
      ensures forall m | 0 <= m < data.Length ::
                data[m] == if expected < m <= max then Every(old(data[..]), m, expected, max + 1) else old(data[m])
      ensures count - old(count) == Sum(data[..]) - Sum(old(data[..]))
    {
      hide Spread, Every, Sum, Aligned, SpreadTo;
      ghost var d := data[..];
      var n := expected * 2;
      NothingSpread(expected, n);
      while n <= max
        modifies data, this`count
        invariant n >= 2 * expected && (n > max + 1 ==> n == 2 * expected)
        invariant SpreadTo(d, expected, if n <= |d| then n else |d|)
        invariant count - Sum(data[..]) == old(count - Sum(data[..]))
      {
        AddBelow(n, expected, d);
        n := n + 1;
      }
      AllFinished(d, expected, if n <= |d| then n else |d|);
    }

    lemma NothingSpread(e: nat, n: nat)
      requires e > 0 && n == e * 2
      ensures SpreadTo(data[..], e, if n <= data.Length then n else data.Length)
    {
      StartsUnspread(data[..], e, n);
      hide Spread;
    }

    lemma AllFinished(d: seq<nat>, e: nat, n: nat)
      requires e > 0 && max < |d| && n <= |d| && n >= max + 1 && (n > max + 1 ==> n <= 2 * e) && SpreadTo(d, e, n)
      ensures data.Length == |d|
      ensures forall m | 0 <= m < |d| :: data[m] == if e < m <= max then Every(d, m, e, max + 1) else d[m]
    {
      hide Spread, Every, SpreadTo;
      forall m | 0 <= m < |d|
        ensures data.Length == |d| && data[m] == if e < m <= max then Every(d, m, e, max + 1) else d[m]
      {
        BinSpread(d, e, n, m);
        Finished(d, m, e, max, n);
      }
      SpreadLength(d, e, n);
    }

    lemma SpreadLength(d: seq<nat>, e: nat, n: nat)
      requires e > 0 && n <= |d| && SpreadTo(d, e, n)
      ensures data.Length == |d|
    {
      hide Spread;
    }
  }

  lemma OnlyAligned(e: nat, n: nat, m: int)
    requires e > 0 && Aligned(m, n, e)
    ensures forall x | m - e < x < m :: !Aligned(x, n, e)
  {
    forall x | m - e < x < m ensures !Aligned(x, n, e) {
      if Aligned(x, n, e) {
        var p, q := (n - m) / e, (n - x) / e;
        DivMod(n - m, e);
        DivMod(n - x, e);
        if q <= p { Mono(q, p, e); }
        Mono(p + 1, q, e);
        Add(p, 1, e);
      }
    }
  }

  /** Nothing below twice the interval can be spread. */
  lemma StartsUnspread(d: seq<nat>, e: nat, n: nat)
    requires e > 0 && n == e * 2
    ensures forall x | 0 <= x < |d| :: Spread(d, x, e, if n <= |d| then n else |d|) == d[x]
  {
  }

  lemma Finished(d: seq<nat>, m: nat, e: nat, max: nat, n: nat)
    requires e > 0 && m < |d| && max < |d| && n <= |d| && n >= max + 1 && (n > max + 1 ==> n <= 2 * e)
    ensures Spread(d, m, e, n) == if e < m <= max then Every(d, m, e, max + 1) else d[m]
  {
  }
}
