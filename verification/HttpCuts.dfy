/**
 An input that arrives in several calls: the byte machine on its pieces, the header size the calls count, and where
 the limit stops them.
 */
module HttpCuts {
  import opened HttpMachine
  import opened HttpFeed
  import opened HttpExecute

  function Flatten(pieces: seq<seq<char>>): seq<char> {
    if pieces == [] then [] else pieces[0] + Flatten(pieces[1..])
  }

  /** Where the call on piece `k` begins in the whole input. */
  ghost function CutAt(pieces: seq<seq<char>>, k: nat): nat
    requires k <= |pieces|
  {
    |Flatten(pieces[..k])|
  }

  /** The offsets at which calls end. */
  ghost function Ends(pieces: seq<seq<char>>): set<nat> { set k: nat | 1 <= k <= |pieces| :: CutAt(pieces, k) }

  /** The part from `lo` to `hi` is one of the calls that end at `cuts`. */
  ghost predicate OneCall(cuts: set<nat>, lo: nat, hi: nat) {
    lo < hi && (lo == 0 || lo in cuts) && hi in cuts && forall k: nat | lo < k < hi :: k !in cuts
  }

  lemma {:induction false} FlattenSnoc(pieces: seq<seq<char>>, k: nat)
    requires k < |pieces|
    ensures Flatten(pieces[..k + 1]) == Flatten(pieces[..k]) + pieces[k]
  {
    if k > 0 {
      FlattenSnoc(pieces[1..], k - 1);
      assert pieces[..k][1..] == pieces[1..][..k - 1] && pieces[..k + 1][1..] == pieces[1..][..k];
    } else {
      assert pieces[..1] == [pieces[0]] && pieces[..1][1..] == [] && pieces[0] + [] == pieces[0];
    }
  }

  lemma {:induction false} CutsGrow(pieces: seq<seq<char>>, j: nat, k: nat)
    requires j <= k <= |pieces|
    ensures CutAt(pieces, j) <= CutAt(pieces, k)
    decreases k
  {
    if j < k {
      CutsGrow(pieces, j, k - 1);
      FlattenSnoc(pieces, k - 1);
    }
  }

  /** Every piece is one of the calls. */
  lemma PieceIsCall(pieces: seq<seq<char>>, k: nat)
    requires k < |pieces| && pieces[k] != []
    ensures CutAt(pieces, k + 1) == CutAt(pieces, k) + |pieces[k]|
    ensures OneCall(Ends(pieces), CutAt(pieces, k), CutAt(pieces, k + 1))
  {
    hide CutAt;
    CutNext(pieces, k);
    if k == 0 { CutNone(pieces); }
    forall n: nat | CutAt(pieces, k) < n < CutAt(pieces, k + 1) ensures n !in Ends(pieces) {
      if n in Ends(pieces) {
        var j: nat :| 1 <= j <= |pieces| && CutAt(pieces, j) == n;
        if j <= k { CutsGrow(pieces, j, k); } else { CutsGrow(pieces, k + 1, j); }
      }
    }
  }

  lemma CutNext(pieces: seq<seq<char>>, k: nat)
    requires k < |pieces|
    ensures CutAt(pieces, k + 1) == CutAt(pieces, k) + |pieces[k]|
  {
    FlattenSnoc(pieces, k);
  }

  lemma CutNone(pieces: seq<seq<char>>)
    ensures CutAt(pieces, 0) == 0
  {
  }

  // ---------------------------------------------------------------- the byte machine on a piece

  /** The run that starts afresh on the parser and callbacks of `r`. */
  function Restart(r: Run): Run { r.(consumed := 0) }

  lemma {:induction false} FeedShift(r: Run, data: seq<char>, n: nat)
    requires n <= |data|
    ensures var a := Feed(r, data, n);
            var b := Feed(Restart(r), data, n);
            a == b.(consumed := r.consumed + b.consumed)
  {
    hide Step;
    if n > 0 { FeedShift(r, data, n - 1); }
  }

  /** The run at offset `i` of a piece is the run at that offset of the whole. */
  lemma PieceRun(r0: Run, a: seq<char>, b: seq<char>, i: nat)
    requires i <= |b|
    ensures Feed(Restart(FeedAll(r0, a)), b, i).ps == Feed(r0, a + b, |a| + i).ps
    ensures Feed(Restart(FeedAll(r0, a)), b, i).stop == Feed(r0, a + b, |a| + i).stop
  {
    hide Step, Feed;
    FeedShift(FeedAll(r0, a), b, i);
    FeedConcatN(r0, a, b, i);
  }

  /** The same for a piece with more input behind it. */
  lemma PieceField(r0: Run, done: seq<char>, piece: seq<char>, rest: seq<char>, i: nat)
    requires i <= |piece|
    ensures Feed(Restart(FeedAll(r0, done)), piece, i).ps == Feed(r0, done + piece + rest, |done| + i).ps
    ensures Feed(Restart(FeedAll(r0, done)), piece, i).stop == Feed(r0, done + piece + rest, |done| + i).stop
  {
    hide Step, Feed;
    PieceRun(r0, done, piece, i);
    FeedPrefix(r0, done + piece, rest, |done| + i);
  }

  lemma {:induction false} TallyPrefix(r: Run, a: seq<char>, b: seq<char>, n: nat, t: nat)
    requires n <= |a|
    ensures Tally(r, a + b, n, t) == Tally(r, a, n, t)
  {
    hide Step, Feed, Tick;
    if n > 0 {
      TallyPrefix(r, a, b, n - 1, t);
      FeedPrefix(r, a, b, n - 1);
    }
  }

  /** The header size of a concatenation is counted piece by piece. */
  lemma {:induction false} TallyConcat(r: Run, a: seq<char>, b: seq<char>, n: nat, t: nat)
    requires n <= |b|
    ensures Tally(r, a + b, |a| + n, t) == Tally(Restart(FeedAll(r, a)), b, n, Tally(r, a, |a|, t))
  {
    hide Step, Feed, Tick;
    if n == 0 {
      TallyPrefix(r, a, b, |a|, t);
    } else {
      TallyConcat(r, a, b, n - 1, t);
      FeedConcatN(r, a, b, n - 1);
      FeedShift(FeedAll(r, a), b, n - 1);
      assert (a + b)[|a| + n - 1] == b[n - 1];
    }
  }

  // ---------------------------------------------------------------- the header size the calls count

  /**
   The header size after `n` bytes, as counted by calls that end at `cuts`: the bytes of the header, and one more for
   each cut that an inner loop runs into; both are cleared together.
   */
  ghost function Count(r0: Run, data: seq<char>, cuts: set<nat>, n: nat, t0: nat): nat
    requires n <= |data|
  {
    if n == 0 then t0
    else
      var r := Feed(r0, data, n - 1);
      var t := Count(r0, data, cuts, n - 1, t0);
      (if r.stop.Go? then Tick(r.ps, data[n - 1], t) else t) + (if n in cuts then Extra(r0, data, n) else 0)
  }

  /**
   The limit stops the calls at offset `k`: in front of a byte of the header, which inside a name or value must be its
   last one or the first of a call, or at the very end of the input.
   */
  ghost predicate Overruns(r0: Run, data: seq<char>, cuts: set<nat>, t0: nat, k: nat) {
    && k <= |data| && Feed(r0, data, k).stop.Go? && ParsingHeader(Feed(r0, data, k).ps.state)
    && if k == |data| then Inner(r0, data, k) && Count(r0, data, cuts, k, t0) > HTTP_MAX_HEADER_SIZE
       else (Inner(r0, data, k) && k !in cuts ==> EndsText(Feed(r0, data, k).ps.state, data[k]))
            && Count(r0, data, cuts, k, t0) >= HTTP_MAX_HEADER_SIZE
  }

  /** The limit stops no call at an offset from `lo` up to `hi`. */
  ghost predicate Within(r0: Run, data: seq<char>, cuts: set<nat>, t0: nat, lo: nat, hi: nat) {
    forall k: nat | lo <= k < hi :: !Overruns(r0, data, cuts, t0, k)
  }

  /** Whether the limit stops the calls at all. */
  ghost predicate Refused(r0: Run, data: seq<char>, cuts: set<nat>, t0: nat) {
    exists k: nat :: Overruns(r0, data, cuts, t0, k)
  }

  lemma PieceInner(r0: Run, done: seq<char>, piece: seq<char>, rest: seq<char>, i: nat)
    requires 0 < i <= |piece|
    ensures Inner(Restart(FeedAll(r0, done)), piece, i) <==> Inner(r0, done + piece + rest, |done| + i)
  {
    hide Feed, FeedAll, Restart;
    PieceField(r0, done, piece, rest, i);
    PieceField(r0, done, piece, rest, i - 1);
  }

  /** What a call on a piece counts is what is counted over the whole input. */
  lemma {:induction false} PieceCount(r0: Run, done: seq<char>, piece: seq<char>, rest: seq<char>, cuts: set<nat>,
                                      t0: nat, i: nat)
    requires OneCall(cuts, |done|, |done| + |piece|) && i <= |piece|
    ensures Count(r0, done + piece + rest, cuts, |done| + i, t0)
            == Tally(Restart(FeedAll(r0, done)), piece, i, Count(r0, done + piece + rest, cuts, |done|, t0))
               + (if i == |piece| then Extra(Restart(FeedAll(r0, done)), piece, i) else 0)
  {
    hide Feed, FeedAll, Restart, Tick, Inner;
    if i > 0 {
      PieceCount(r0, done, piece, rest, cuts, t0, i - 1);
      PieceField(r0, done, piece, rest, i - 1);
      PieceInner(r0, done, piece, rest, i);
      assert (done + piece + rest)[|done| + i - 1] == piece[i - 1];
    }
  }

  /** A call is stopped exactly where the whole says. */
  lemma PieceTrips(r0: Run, done: seq<char>, piece: seq<char>, rest: seq<char>, cuts: set<nat>, t0: nat, i: nat)
    requires OneCall(cuts, |done|, |done| + |piece|) && i <= |piece|
    ensures var whole := done + piece + rest;
            var here := Trips(Restart(FeedAll(r0, done)), piece, Count(r0, whole, cuts, |done|, t0), i);
            && (i < |piece| || rest == [] ==> (here <==> Overruns(r0, whole, cuts, t0, |done| + i)))
            && (here ==> Overruns(r0, whole, cuts, t0, |done| + i))
  {
    hide Feed, FeedAll, Restart, Tally, Count, Inner, EndsText, ParsingHeader;
    PieceCount(r0, done, piece, rest, cuts, t0, i);
    PieceField(r0, done, piece, rest, i);
    if i > 0 {
      PieceInner(r0, done, piece, rest, i);
    } else {
      InnerStart(Restart(FeedAll(r0, done)), piece);
      InnerStart(r0, done + piece + rest);
    }
    if i < |piece| { assert (done + piece + rest)[|done| + i] == piece[i]; }
  }

  lemma InnerStart(r0: Run, data: seq<char>)
    ensures !Inner(r0, data, 0)
  {
  }

  /** One call is the cutting with no cut inside. */
  lemma OneCallTrips(r0: Run, data: seq<char>, t0: nat, k: nat)
    requires data != [] && r0.consumed == 0
    ensures Trips(r0, data, t0, k) <==> Overruns(r0, data, {|data|}, t0, k)
  {
    hide Feed, Tally, Count, Inner, EndsText, ParsingHeader;
    assert [] + data + [] == data;
    if k <= |data| {
      NothingYet(r0, data, {|data|}, t0);
      PieceTrips(r0, [], data, [], {|data|}, t0, k);
    }
  }

  lemma NothingYet(r0: Run, data: seq<char>, cuts: set<nat>, t0: nat)
    ensures FeedAll(r0, []) == r0 && Count(r0, data, cuts, 0, t0) == t0
  {
  }

  // ---------------------------------------------------------------- what more cuts change

  /** More cuts never make the header size smaller. */
  lemma {:induction false} CountGrows(r0: Run, data: seq<char>, few: set<nat>, many: set<nat>, n: nat, t0: nat)
    requires few <= many && n <= |data|
    ensures Count(r0, data, few, n, t0) <= Count(r0, data, many, n, t0)
  {
    hide Feed, Inner, PlainStep;
    if n > 0 { CountGrows(r0, data, few, many, n - 1, t0); }
  }

  /** What is refused is refused with more cuts too: a finer cutting never takes more. */
  lemma FinerRefused(r0: Run, data: seq<char>, few: set<nat>, many: set<nat>, t0: nat)
    requires few <= many && Refused(r0, data, few, t0)
    ensures Refused(r0, data, many, t0)
  {
    hide Feed, Inner, Count, EndsText, ParsingHeader;
    var k: nat :| Overruns(r0, data, few, t0, k);
    CountGrows(r0, data, few, many, k, t0);
    assert Overruns(r0, data, many, t0, k);
  }

  /** In front of the first cut the calls count what the byte machine counts. */
  lemma {:induction false} CountUncut(r0: Run, data: seq<char>, cuts: set<nat>, n: nat, t0: nat)
    requires n <= |data| && forall k: nat | k <= n :: k !in cuts
    ensures Count(r0, data, cuts, n, t0) == Tally(r0, data, n, t0)
  {
    hide Feed, PlainStep;
    if n > 0 { CountUncut(r0, data, cuts, n - 1, t0); }
  }

  /** With header text only up to offset `h`, the cuts add at most one for each byte of it. */
  lemma {:induction false} CountBound(r0: Run, data: seq<char>, cuts: set<nat>, n: nat, t0: nat, h: nat)
    requires n <= |data| && forall i | h < i <= |data| :: !InText(Feed(r0, data, i).ps.state)
    ensures Tally(r0, data, n, t0) <= Count(r0, data, cuts, n, t0)
                                   <= Tally(r0, data, n, t0) + (if n < h then n else h)
  {
    hide Feed, PlainStep;
    if n > 0 { CountBound(r0, data, cuts, n - 1, t0, h); }
  }

  /** An input that stays that much below the limit is taken however it is cut. */
  lemma NeverRefused(r0: Run, data: seq<char>, cuts: set<nat>, t0: nat, bound: nat, h: nat)
    requires forall i | h < i <= |data| :: !InText(Feed(r0, data, i).ps.state)
    requires forall i | 0 <= i <= |data| :: Tally(r0, data, i, t0) <= bound
    requires bound + h < HTTP_MAX_HEADER_SIZE
    ensures !Refused(r0, data, cuts, t0)
  {
    hide Feed, Tally, Count;
    forall k: nat | k <= |data| ensures !Overruns(r0, data, cuts, t0, k) { CountBound(r0, data, cuts, k, t0, h); }
  }
}
