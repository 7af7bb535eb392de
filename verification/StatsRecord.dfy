/**
 `stats_record` called by any number of threads: every atomic operation on the
 shared histogram is one step of one call, and any interleaving is a run.
 */
module StatsRecord {
  const UINT64_MAX: nat := 0xFFFF_FFFF_FFFF_FFFF

  /** The shared histogram. */
  datatype Shared = Shared(data: seq<nat>, count: nat, min: nat, max: nat)

  /** Where a call is, with its local copies of `min` and `max`. */
  datatype Pc =
    | Begin | InBin | Counted | HasMin(min: nat) | MinLoop(min: nat, max: nat) | MaxLoop(max: nat) | Return(r: nat)

  /** A call with its sample. */
  datatype Call = Call(n: nat, pc: Pc)

  datatype System = System(s: Shared, calls: seq<Call>)

  /** A fresh histogram of `limit` bins and any calls about to begin. */
  predicate Init(y: System) {
    && y.s == Shared(seq(|y.s.data|, _ => 0), 0, UINT64_MAX, 0) && |y.s.data| <= UINT64_MAX
    && forall c | 0 <= c < |y.calls| :: y.calls[c].pc.Begin?
  }

  /** `__sync_val_compare_and_swap` of `min`: the new shared value; the value found is the old one. */
  function CasMin(s: Shared, seen: nat, n: nat): Shared { if s.min == seen then s.(min := n) else s }

  function CasMax(s: Shared, seen: nat, n: nat): Shared { if s.max == seen then s.(max := n) else s }

  /** The next atomic step of a call with sample `n`. */
  function Advance(s: Shared, n: nat, pc: Pc): (Shared, Pc)
    requires !pc.Return?
  {
    match pc
    case Begin => if n >= |s.data| then (s, Return(0)) else (s.(data := s.data[n := s.data[n] + 1]), InBin)
    case InBin => (s.(count := s.count + 1), Counted)
    case Counted => (s, HasMin(s.min))
    case HasMin(min) => (s, MinLoop(min, s.max))
    case MinLoop(min, max) => if n < min then (CasMin(s, min, n), MinLoop(s.min, max)) else (s, MaxLoop(max))
    case MaxLoop(max) => if n > max then (CasMax(s, max, n), MaxLoop(s.max)) else (s, Return(1))
  }

  predicate Enabled(y: System, c: nat) { c < |y.calls| && !y.calls[c].pc.Return? }

  function Step(y: System, c: nat): System
    requires Enabled(y, c)
  {
    var (s, pc) := Advance(y.s, y.calls[c].n, y.calls[c].pc);
    System(s, y.calls[c := y.calls[c].(pc := pc)])
  }

  // ---------------------------------------------------------------- the invariant

  predicate Binned(x: Call) { !x.pc.Begin? && x.pc != Return(0) }
  predicate IsCounted(x: Call) { Binned(x) && !x.pc.InBin? }
  predicate PastMin(x: Call) { x.pc.MaxLoop? || x.pc == Return(1) }

  function BinCount(calls: seq<Call>, b: nat): nat {
    if calls == [] then 0
    else
      var x := calls[|calls| - 1];
      BinCount(calls[..|calls| - 1], b) + (if Binned(x) && x.n == b then 1 else 0)
  }

  function Accepted(calls: seq<Call>): nat {
    if calls == [] then 0
    else Accepted(calls[..|calls| - 1]) + (if IsCounted(calls[|calls| - 1]) then 1 else 0)
  }

  lemma {:induction false} BinUpdate(calls: seq<Call>, b: nat, c: nat, x: Call)
    requires c < |calls|
    ensures BinCount(calls[c := x], b)
            == BinCount(calls, b) - (if Binned(calls[c]) && calls[c].n == b then 1 else 0)
               + (if Binned(x) && x.n == b then 1 else 0)
  {
    var k := |calls| - 1;
    if c == k {
      assert calls[c := x][..k] == calls[..k];
    } else {
      assert calls[c := x][..k] == calls[..k][c := x];
      BinUpdate(calls[..k], b, c, x);
    }
  }

  lemma {:induction false} AcceptedUpdate(calls: seq<Call>, c: nat, x: Call)
    requires c < |calls|
    ensures Accepted(calls[c := x])
            == Accepted(calls) - (if IsCounted(calls[c]) then 1 else 0) + (if IsCounted(x) then 1 else 0)
  {
    var k := |calls| - 1;
    if c == k {
      assert calls[c := x][..k] == calls[..k];
    } else {
      assert calls[c := x][..k] == calls[..k][c := x];
      AcceptedUpdate(calls[..k], c, x);
    }
  }

  /** Local copies lag behind the shared extremes, which only move outwards. */
  predicate CallOk(s: Shared, x: Call) {
    && (Binned(x) ==> x.n < |s.data|)
    && (x.pc == Return(0) ==> x.n >= |s.data|) && (x.pc.Return? ==> x.pc.r <= 1)
    && (x.pc.HasMin? || x.pc.MinLoop? ==> s.min <= x.pc.min <= UINT64_MAX)
    && (x.pc.MinLoop? || x.pc.MaxLoop? ==> x.pc.max <= s.max)
    && (PastMin(x) ==> s.min <= x.n)
    && (x.pc == Return(1) ==> x.n <= s.max)
  }

  ghost predicate Someone(calls: seq<Call>, n: nat) {
    exists c | 0 <= c < |calls| :: Binned(calls[c]) && calls[c].n == n
  }

  ghost predicate Inv(y: System) {
    && |y.s.data| <= UINT64_MAX
    && (forall b: nat | b < |y.s.data| :: y.s.data[b] == BinCount(y.calls, b))
    && y.s.count == Accepted(y.calls)
    && (forall c | 0 <= c < |y.calls| :: CallOk(y.s, y.calls[c]))
    && (y.s.min == UINT64_MAX || Someone(y.calls, y.s.min)) && y.s.min <= UINT64_MAX
    && (y.s.max == 0 || Someone(y.calls, y.s.max))
  }

  lemma {:induction false} NoneYet(calls: seq<Call>, b: nat)
    requires forall c | 0 <= c < |calls| :: calls[c].pc.Begin?
    ensures BinCount(calls, b) == 0 && Accepted(calls) == 0
  {
    if calls != [] { NoneYet(calls[..|calls| - 1], b); }
  }

  lemma InitInv(y: System)
    requires Init(y)
    ensures Inv(y)
  {
    NoneYet(y.calls, 0);
    forall b: nat | b < |y.s.data| ensures y.s.data[b] == BinCount(y.calls, b) { NoneYet(y.calls, b); }
  }

  /** A call that is in a bin stays in it. */
  lemma StillSomeone(y: System, c: nat, n: nat)
    requires Enabled(y, c) && Someone(y.calls, n) && CallOk(y.s, y.calls[c])
    ensures Someone(Step(y, c).calls, n)
  {
    hide CallOk, BinCount;
    var d :| 0 <= d < |y.calls| && Binned(y.calls[d]) && y.calls[d].n == n;
    assert Binned(Step(y, c).calls[d]) && Step(y, c).calls[d].n == n;
  }

  /** What a step does to the shared part, seen from the calls. */
  lemma OthersOk(y: System, c: nat, d: nat)
    requires Inv(y) && Enabled(y, c) && d < |y.calls|
    ensures CallOk(Step(y, c).s, Step(y, c).calls[d])
  {
    hide BinCount, Accepted;
    assert CallOk(y.s, y.calls[c]) && CallOk(y.s, y.calls[d]);
  }

  lemma CountsKept(y: System, c: nat, b: nat)
    requires Inv(y) && Enabled(y, c) && b < |y.s.data|
    ensures |Step(y, c).s.data| == |y.s.data| && Step(y, c).s.data[b] == BinCount(Step(y, c).calls, b)
    ensures Step(y, c).s.count == Accepted(Step(y, c).calls)
  {
    assert CallOk(y.s, y.calls[c]);
    BinUpdate(y.calls, b, c, Step(y, c).calls[c]);
    AcceptedUpdate(y.calls, c, Step(y, c).calls[c]);
    hide BinCount, Accepted;
  }

  lemma CountKept(y: System, c: nat)
    requires Inv(y) && Enabled(y, c)
    ensures Step(y, c).s.count == Accepted(Step(y, c).calls) && |Step(y, c).s.data| == |y.s.data|
  {
    assert CallOk(y.s, y.calls[c]);
    AcceptedUpdate(y.calls, c, Step(y, c).calls[c]);
    hide BinCount, Accepted;
  }

  lemma ExtremesKept(y: System, c: nat)
    requires Inv(y) && Enabled(y, c)
    ensures var z := Step(y, c);
            (z.s.min == UINT64_MAX || Someone(z.calls, z.s.min)) && z.s.min <= UINT64_MAX
            && (z.s.max == 0 || Someone(z.calls, z.s.max))
  {
    hide BinCount, Accepted;
    assert CallOk(y.s, y.calls[c]);
    var z := Step(y, c);
    if y.s.min != UINT64_MAX { StillSomeone(y, c, y.s.min); }
    if y.s.max != 0 { StillSomeone(y, c, y.s.max); }
    if z.s.min != y.s.min || z.s.max != y.s.max {
      assert Binned(z.calls[c]);
      assert Someone(z.calls, y.calls[c].n);
    }
  }

  /** Every atomic step keeps the invariant. */
  lemma StepInv(y: System, c: nat)
    requires Inv(y) && Enabled(y, c)
    ensures Inv(Step(y, c))
  {
    var z := Step(y, c);
    CountKept(y, c);
    ExtremesKept(y, c);
    forall b: nat | b < |y.s.data| ensures z.s.data[b] == BinCount(z.calls, b) { CountsKept(y, c, b); }
    forall d | 0 <= d < |y.calls| ensures CallOk(z.s, z.calls[d]) { OthersOk(y, c, d); }
    hide Step, BinCount, Accepted, CallOk, Someone;
    assert |z.calls| == |y.calls| by { SameCalls(y, c); }
  }

  lemma SameCalls(y: System, c: nat)
    requires Enabled(y, c)
    ensures |Step(y, c).calls| == |y.calls| && forall d | 0 <= d < |y.calls| :: Step(y, c).calls[d].n == y.calls[d].n
  {
  }

  // ---------------------------------------------------------------- whole runs

  /** The system after a schedule, if every call named in it can move when its turn comes. */
  ghost predicate Reaches(y0: System, sched: seq<nat>, y: System)
    decreases |sched|
  {
    if sched == [] then y == y0
    else exists x: System :: Reaches(y0, sched[..|sched| - 1], x) && Leads(x, Last(sched), y)
  }

  function Last(sched: seq<nat>): nat
    requires sched != []
  {
    sched[|sched| - 1]
  }

  predicate Leads(x: System, c: nat, y: System) { Enabled(x, c) && y == Step(x, c) }

  lemma {:induction false} RunInv(y0: System, sched: seq<nat>, y: System)
    requires Init(y0) && Reaches(y0, sched, y)
    ensures Inv(y) && |y.calls| == |y0.calls| && |y.s.data| == |y0.s.data|
    ensures forall c | 0 <= c < |y.calls| :: y.calls[c].n == y0.calls[c].n
    decreases |sched|
  {
    hide Inv, Step, Init;
    if sched == [] {
      InitInv(y0);
    } else {
      var x :| Reaches(y0, sched[..|sched| - 1], x) && Leads(x, Last(sched), y);
      RunInv(y0, sched[..|sched| - 1], x);
      StepInv(x, Last(sched));
      SameCalls(x, Last(sched));
      CountKept(x, Last(sched));
    }
  }

  predicate AllReturned(y: System) { forall c | 0 <= c < |y.calls| :: y.calls[c].pc.Return? }

  /** How many of the samples fall in bin `b`, and how many are within the limit. */
  function Multiplicity(calls: seq<Call>, b: nat): nat {
    if calls == [] then 0 else Multiplicity(calls[..|calls| - 1], b) + (if calls[|calls| - 1].n == b then 1 else 0)
  }

  function Within(calls: seq<Call>, limit: nat): nat {
    if calls == [] then 0 else Within(calls[..|calls| - 1], limit) + (if calls[|calls| - 1].n < limit then 1 else 0)
  }

  lemma {:induction false} CountsAreSamples(s: Shared, calls: seq<Call>, b: nat)
    requires b < |s.data| && forall c | 0 <= c < |calls| :: CallOk(s, calls[c]) && calls[c].pc.Return?
    ensures BinCount(calls, b) == Multiplicity(calls, b) && Accepted(calls) == Within(calls, |s.data|)
  {
    if calls != [] { CountsAreSamples(s, calls[..|calls| - 1], b); }
  }

  lemma {:induction false} AcceptedAreSamples(s: Shared, calls: seq<Call>)
    requires forall c | 0 <= c < |calls| :: CallOk(s, calls[c]) && calls[c].pc.Return?
    ensures Accepted(calls) == Within(calls, |s.data|)
  {
    if calls != [] { AcceptedAreSamples(s, calls[..|calls| - 1]); }
  }

  lemma {:induction false} SameSamples(a: seq<Call>, b: seq<Call>, k: nat)
    requires |a| == |b| && forall c | 0 <= c < |a| :: a[c].n == b[c].n
    ensures Multiplicity(a, k) == Multiplicity(b, k) && Within(a, k) == Within(b, k)
  {
    if a != [] { SameSamples(a[..|a| - 1], b[..|b| - 1], k); }
  }

  /**
   Once all calls have returned, however their steps were interleaved: each bin holds the multiplicity of its sample,
   the count is the number of samples within the limit, and the extremes are those of these samples.
   */
  lemma RecordsAll(y0: System, sched: seq<nat>, y: System)
    requires Init(y0) && Reaches(y0, sched, y) && AllReturned(y)
    ensures |y.s.data| == |y0.s.data| && forall b: nat | b < |y.s.data| :: y.s.data[b] == Multiplicity(y0.calls, b)
    ensures y.s.count == Within(y0.calls, |y0.s.data|)
    ensures forall c | 0 <= c < |y0.calls| && y0.calls[c].n < |y0.s.data| :: y.s.min <= y0.calls[c].n <= y.s.max
    ensures (exists c | 0 <= c < |y0.calls| :: y0.calls[c].n < |y0.s.data|) ==>
              (exists c | 0 <= c < |y0.calls| :: y0.calls[c].n == y.s.min < |y0.s.data|)
              && (exists c | 0 <= c < |y0.calls| :: y0.calls[c].n == y.s.max < |y0.s.data|)
  {
    RunInv(y0, sched, y);
    hide Reaches, BinCount, Accepted, Multiplicity, Within;
    forall b: nat | b < |y.s.data| ensures y.s.data[b] == Multiplicity(y0.calls, b) {
      CountsAreSamples(y.s, y.calls, b);
      SameSamples(y.calls, y0.calls, b);
    }
    AcceptedAreSamples(y.s, y.calls);
    SameSamples(y.calls, y0.calls, |y.s.data|);
    forall c | 0 <= c < |y0.calls| && y0.calls[c].n < |y0.s.data| ensures y.s.min <= y0.calls[c].n <= y.s.max {
      assert CallOk(y.s, y.calls[c]);
    }
    if c :| 0 <= c < |y0.calls| && y0.calls[c].n < |y0.s.data| {
      assert CallOk(y.s, y.calls[c]);
      var d :| 0 <= d < |y.calls| && Binned(y.calls[d]) && y.calls[d].n == y.s.min;
      assert CallOk(y.s, y.calls[d]) && y0.calls[d].n == y.s.min;
      if y.s.max == 0 {
        assert y0.calls[c].n == y.s.max;
      } else {
        var e :| 0 <= e < |y.calls| && Binned(y.calls[e]) && y.calls[e].n == y.s.max;
        assert CallOk(y.s, y.calls[e]) && y0.calls[e].n == y.s.max;
      }
    }
  }

  // ---------------------------------------------------------------- every loop ends

  /** Steps a call has left outside its loops, plus how far its local copies can still move. */
  function CallBudget(s: Shared, x: Call): int {
    match x.pc
    case Begin => 6 + UINT64_MAX + |s.data|
    case InBin => 5 + UINT64_MAX + |s.data|
    case Counted => 4 + UINT64_MAX + |s.data|
    case HasMin(min) => 3 + min + |s.data|
    case MinLoop(min, max) => 2 + min + (|s.data| - max)
    case MaxLoop(max) => 1 + (|s.data| - max)
    case Return(_) => 0
  }

  function CallBudgets(s: Shared, calls: seq<Call>): int {
    if calls == [] then 0 else CallBudgets(s, calls[..|calls| - 1]) + CallBudget(s, calls[|calls| - 1])
  }

  /** The calls' budgets and how far the shared extremes can still move. */
  function Budget(y: System): int { CallBudgets(y.s, y.calls) + y.s.min + (|y.s.data| - y.s.max) }

  lemma {:induction false} BudgetUpdate(s: Shared, t: Shared, calls: seq<Call>, c: nat, x: Call)
    requires c < |calls| && |s.data| == |t.data|
    ensures CallBudgets(t, calls[c := x]) == CallBudgets(s, calls) - CallBudget(s, calls[c]) + CallBudget(t, x)
  {
    var k := |calls| - 1;
    if c == k {
      assert calls[c := x][..k] == calls[..k];
      BudgetSame(s, t, calls[..k]);
    } else {
      assert calls[c := x][..k] == calls[..k][c := x];
      BudgetUpdate(s, t, calls[..k], c, x);
    }
  }

  lemma {:induction false} BudgetSame(s: Shared, t: Shared, calls: seq<Call>)
    requires |s.data| == |t.data|
    ensures CallBudgets(s, calls) == CallBudgets(t, calls)
  {
    if calls != [] { BudgetSame(s, t, calls[..|calls| - 1]); }
  }

  lemma {:induction false} BudgetNat(s: Shared, calls: seq<Call>)
    requires s.max <= |s.data| && forall c | 0 <= c < |calls| :: CallOk(s, calls[c])
    ensures CallBudgets(s, calls) >= 0
  {
    if calls != [] { BudgetNat(s, calls[..|calls| - 1]); }
  }

  lemma MaxBound(y: System)
    requires Inv(y)
    ensures y.s.max <= |y.s.data|
  {
    hide BinCount, Accepted;
    if y.s.max != 0 {
      var d :| 0 <= d < |y.calls| && Binned(y.calls[d]) && y.calls[d].n == y.s.max;
      assert CallOk(y.s, y.calls[d]);
    }
  }

  /** A step spends more of its own call's budget than it moves the shared extremes. */
  lemma CallSpends(y: System, c: nat)
    requires Enabled(y, c) && CallOk(y.s, y.calls[c]) && y.s.max <= |y.s.data| && y.s.min <= UINT64_MAX
    ensures var z := Step(y, c);
            z.calls == y.calls[c := z.calls[c]] && |z.s.data| == |y.s.data|
            && CallBudget(z.s, z.calls[c]) + z.s.min - z.s.max < CallBudget(y.s, y.calls[c]) + y.s.min - y.s.max
  {
  }

  lemma BudgetStays(y: System)
    requires Inv(y)
    ensures Budget(y) >= 0
  {
    MaxBound(y);
    BudgetNat(y.s, y.calls);
    hide BinCount, Accepted, CallOk, CallBudgets;
  }

  /** Every step, every turn of a compare-and-swap loop included, uses up some of the budget. */
  lemma StepSpends(y: System, c: nat)
    requires Inv(y) && Enabled(y, c)
    ensures 0 <= Budget(Step(y, c)) < Budget(y)
  {
    var z := Step(y, c);
    assert CallOk(y.s, y.calls[c]);
    MaxBound(y);
    StepInv(y, c);
    BudgetStays(z);
    hide Inv, Step, CallBudget, CallBudgets, CallOk;
    CallSpends(y, c);
    BudgetUpdate(y.s, z.s, y.calls, c, z.calls[c]);
  }

  /** No schedule is longer than the initial budget. */
  lemma {:induction false} RunsEnd(y0: System, sched: seq<nat>, y: System)
    requires Init(y0) && Reaches(y0, sched, y)
    ensures Budget(y) + |sched| <= Budget(y0)
    decreases |sched|
  {
    hide Inv, Step, Budget;
    if sched != [] {
      var x :| Reaches(y0, sched[..|sched| - 1], x) && Leads(x, Last(sched), y);
      RunsEnd(y0, sched[..|sched| - 1], x);
      RunInv(y0, sched[..|sched| - 1], x);
      StepSpends(x, Last(sched));
    }
  }
}
