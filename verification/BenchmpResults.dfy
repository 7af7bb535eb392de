/**
 lmbench's result lists: `insertsort` keeps measurements from slowest to
 fastest, and merging lists by repeated insertion sorts their union.
 */
module BenchmpResults {

  /** `u` microseconds for `n` iterations. */
  datatype Value = Value(u: nat, n: nat)

  /** A value as `benchmp` records it: at least one iteration was run. */
  type Sample = v: Value | v.n > 0 witness Value(0, 1)

  /** Time per iteration; rounding of the C doubles is not modelled. */
  function Rate(v: Sample): real { v.u as real / v.n as real }

  ghost predicate Sorted(s: seq<Sample>) { forall i, j | 0 <= i < j < |s| :: Rate(s[i]) >= Rate(s[j]) }

  /** Where `insertsort` puts `v`: in front of the first strictly smaller rate. */
  function Insert(s: seq<Sample>, v: Sample): seq<Sample> {
    if s == [] then [v]
    else if Rate(v) > Rate(s[0]) then [v] + s
    else [s[0]] + Insert(s[1..], v)
  }

  /** `insertsort`: a measurement of zero time is dropped. */
  function Record(s: seq<Sample>, v: Sample): seq<Sample> { if v.u == 0 then s else Insert(s, v) }

  /** The values of `s` that `insertsort` keeps. */
  function Kept(s: seq<Sample>): multiset<Sample> {
    if s == [] then multiset{}
    else (if s[0].u == 0 then multiset{} else multiset{s[0]}) + Kept(s[1..])
  }

  /** The parent's merge of one child's list into the merged list. */
  function Merge(s: seq<Sample>, t: seq<Sample>): seq<Sample>
    decreases t
  {
    if t == [] then s else Merge(Record(s, t[0]), t[1..])
  }

  lemma {:induction false} InsertElements(s: seq<Sample>, v: Sample)
    ensures multiset(Insert(s, v)) == multiset(s) + multiset{v}
    ensures |Insert(s, v)| == |s| + 1
  {
    if s != [] && !(Rate(v) > Rate(s[0])) {
      InsertElements(s[1..], v);
      assert s == [s[0]] + s[1..];
    }
  }

  lemma {:induction false} InsertSorted(s: seq<Sample>, v: Sample)
    requires Sorted(s)
    ensures Sorted(Insert(s, v))
    ensures forall x: Sample | x in Insert(s, v) :: x == v || x in s
  {
    if s != [] && !(Rate(v) > Rate(s[0])) {
      InsertSorted(s[1..], v);
      var t := Insert(s[1..], v);
      forall j | 0 <= j < |t| ensures Rate(s[0]) >= Rate(t[j]) { assert t[j] in t; }
      forall i, j | 0 <= i < j < |[s[0]] + t| ensures Rate(([s[0]] + t)[i]) >= Rate(([s[0]] + t)[j]) {
        assert i > 0 ==> ([s[0]] + t)[i] == t[i - 1];
      }
    }
  }

  /** Merging sorts the multiset union and loses nothing but zero measurements. */
  lemma {:induction false} MergeSorts(s: seq<Sample>, t: seq<Sample>)
    requires Sorted(s)
    ensures Sorted(Merge(s, t))
    ensures multiset(Merge(s, t)) == multiset(s) + Kept(t)
    ensures |s| <= |Merge(s, t)| <= |s| + |t|
    decreases t
  {
    if t != [] {
      if t[0].u != 0 {
        InsertElements(s, t[0]);
        InsertSorted(s, t[0]);
      }
      MergeSorts(Record(s, t[0]), t[1..]);
    }
  }

  lemma {:induction false} InsertAt(s: seq<Sample>, v: Sample, i: nat)
    requires i <= |s| && forall k | 0 <= k < i :: !(Rate(v) > Rate(s[k]))
    requires i < |s| ==> Rate(v) > Rate(s[i])
    ensures Insert(s, v) == s[..i] + [v] + s[i..]
  {
    if i > 0 {
      InsertAt(s[1..], v, i - 1);
      assert s[1..][..i - 1] == s[1..i] && s[1..][i - 1..] == s[i..];
      assert [s[0]] + s[1..i] == s[..i];
    }
  }

  /** The inner loop of `insertsort`: values `i` to `N - 1` move up by one. */
  method ShiftUp(v: array<Sample>, i: nat, N: nat)
    requires i <= N < v.Length
    modifies v
    ensures forall k | 0 <= k < v.Length && !(i < k <= N) :: v[k] == old(v[k])
    ensures forall k | i < k <= N :: v[k] == old(v[k - 1])
  {
    var j := N;
    while j > i
      invariant i <= j <= N
      invariant forall k | 0 <= k < v.Length && !(j < k <= N) :: v[k] == old(v[k])
      invariant forall k | j < k <= N :: v[k] == old(v[k - 1])
    {
      v[j] := v[j - 1];
      j := j - 1;
    }
  }

  /** The slot `insertsort` chooses: the first strictly smaller rate, or the end. */
  method FindSlot(x: Sample, v: array<Sample>, N: nat) returns (i: nat)
    requires N <= v.Length
    ensures i <= N && Insert(v[..N], x) == v[..i] + [x] + v[i..N]
  {
    i := 0;
    while i < N && !(Rate(x) > Rate(v[i]))
      invariant i <= N
      invariant forall k | 0 <= k < i :: !(Rate(x) > Rate(v[k]))
    {
      i := i + 1;
    }
    InsertAt(v[..N], x, i);
    assert v[..N][..i] == v[..i] && v[..N][i..] == v[i..N];
  }

  /** `insertsort` in place: find the slot, shift the tail up by one, store. */
  method InsertSort(u: nat, n: nat, v: array<Sample>, N: nat) returns (N': nat)
    requires n > 0 && (u != 0 ==> N < v.Length) && N <= v.Length
    modifies v
    ensures N' <= v.Length && v[..N'] == Record(old(v[..N]), Value(u, n))
    ensures v[N'..] == old(v[N'..])
  {
    if u == 0 { return N; }
    var x: Sample := Value(u, n);
    var i := FindSlot(x, v, N);
    hide Insert, Rate;
    ghost var a, b := v[..i], v[i..N];
    ShiftUp(v, i, N);
    v[i] := x;
    N' := N + 1;
    assert v[..i] == a;
    assert v[i + 1..N'] == b;
    assert v[..N'] == v[..i] + [v[i]] + v[i + 1..N'];
  }

  // ---------------------------------------------------------------- capacity

  const TRIES := 11

  /** How many values a result block of `sizeof_result(repetitions)` bytes holds. */
  function Capacity(repetitions: nat): nat { if repetitions <= TRIES then TRIES else TRIES + (repetitions - TRIES) }
}
