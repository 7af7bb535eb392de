/**
 The parent/child protocol of `benchmp`: N children and a parent share one
 response pipe and three token pipes. One step is one pipe operation of one
 process; any interleaving is a run. Processes do not fail and pipes do not fill.
 */
module BenchmpProtocol {
  import opened MulFacts
  import opened BenchmpResults

  /** Number of children, bytes of a result message, measurements wanted of each child. */
  datatype Config = Config(parallel: nat, size: nat, repetitions: nat) {
    predicate Valid() { parallel >= 1 && size >= 1 && repetitions >= 1 }
  }

  /** Where a child is; the Saw states lie between a `select` that found a token and its `read`. */
  datatype Pc = Fresh | FreshSawStart | Warm | SawStart | Timing | Cooldown | SawResult
              | Reporting(k: nat) | AwaitExit | Exited

  /** A child: its place, its results, its count of measurements, the tokens it has taken from each pipe. */
  datatype Child = Child(pc: Pc, r: seq<Sample>, i: nat, starts: nat, results: nat, exits: nat)

  /** A byte on the response pipe: whose it is and what it means to its sender. */
  datatype Byte = Ready(c: nat) | Done(c: nat) | Msg(c: nat, k: nat)

  datatype ParentPc = CollectReady(i: nat) | SendStart | CollectDone(i: nat) | AskResult(i: nat)
                    | Collecting(i: nat, buf: seq<Byte>) | ParentDone

  datatype System = System(
    cs: seq<Child>,
    parent: ParentPc,
    pipe: seq<Byte>,
    start: nat, result: nat, exit: nat,
    merged: seq<Sample>,
    reported: set<nat>)

  function Newborn(): Child { Child(Fresh, [], 0, 0, 0, 0) }

  ghost predicate Init(g: Config, s: System) {
    s == System(seq(g.parallel, _ => Newborn()), CollectReady(0), [], 0, 0, 0, [], {})
  }

  // ---------------------------------------------------------------- steps

  datatype Step =
    | First(c: nat) | EarlyRead(c: nat) | SelectStart(c: nat) | ReadStart(c: nat)
    | Measure(c: nat, v: Sample, giveUp: bool) | GiveUp(c: nat)
    | SelectResult(c: nat) | ReadResult(c: nat) | WriteByte(c: nat) | ReadExit(c: nat)
    | TakeReady(m: nat) | WriteStart | TakeDone(m: nat) | WriteResult | TakeBytes(m: nat) | MergeResult(c: nat)
    | WriteExit
    | Poll(c: nat) | Unrecorded(c: nat)

  /** A poll that finds nothing, or a timing interval of a single child that is neither recorded nor the last. */
  predicate Idle(t: Step) { t.Poll? || t.Unrecorded? }

  /** The whole message of child `c`, `n` bytes of it. */
  function Message(c: nat, n: nat): seq<Byte> { if n == 0 then [] else Message(c, n - 1) + [Msg(c, n - 1)] }

  predicate ChildAt(s: System, c: nat, pc: Pc) { c < |s.cs| && s.cs[c].pc == pc }

  predicate Enabled(g: Config, s: System, t: Step) {
    match t
    case First(c) => ChildAt(s, c, Fresh)
    case EarlyRead(c) => ChildAt(s, c, FreshSawStart) && s.start > 0
    case SelectStart(c) => ChildAt(s, c, Warm) && s.start > 0
    case ReadStart(c) => ChildAt(s, c, SawStart) && s.start > 0
    case Measure(c, v, giveUp) => ChildAt(s, c, Timing) && (giveUp ==> g.parallel == 1)
    case GiveUp(c) => ChildAt(s, c, Timing) && g.parallel == 1
    case SelectResult(c) => ChildAt(s, c, Cooldown) && s.result > 0
    case ReadResult(c) => ChildAt(s, c, SawResult) && s.result > 0
    case WriteByte(c) => c < |s.cs| && s.cs[c].pc.Reporting? && s.cs[c].pc.k < g.size
    case ReadExit(c) => ChildAt(s, c, AwaitExit) && s.exit > 0
    case TakeReady(m) => s.parent.CollectReady? && 1 <= m <= |s.pipe| && s.parent.i + m <= g.parallel
    case WriteStart => s.parent.SendStart?
    case TakeDone(m) => s.parent.CollectDone? && 1 <= m <= |s.pipe| && s.parent.i + m <= g.parallel
    case WriteResult => s.parent.AskResult? && s.parent.i < g.parallel
    case TakeBytes(m) => s.parent.Collecting? && 1 <= m <= |s.pipe| && |s.parent.buf| + m <= g.size
    case MergeResult(c) =>
      s.parent.Collecting? && c < |s.cs| && |s.parent.buf| == g.size && s.parent.buf == Message(c, g.size)
    case WriteExit => s.parent.AskResult? && s.parent.i == g.parallel
    case Poll(c) => (ChildAt(s, c, Warm) && s.start == 0) || (ChildAt(s, c, Cooldown) && s.result == 0)
    case Unrecorded(c) => ChildAt(s, c, Timing) && g.parallel == 1
  }

  /** The child after a measurement interval; `stop` sends it to the cooldown. */
  function Measured(ch: Child, r: seq<Sample>, i: nat, stop: bool): Child {
    ch.(r := r, i := i, pc := if stop then Cooldown else Timing)
  }

  function Apply(g: Config, s: System, t: Step): System
    requires Enabled(g, s, t)
  {
    match t
    case First(c) =>
      if s.start > 0 then s.(cs := s.cs[c := s.cs[c].(pc := FreshSawStart)])
      else s.(cs := s.cs[c := s.cs[c].(pc := Warm)], pipe := s.pipe + [Ready(c)])
    case EarlyRead(c) =>
      s.(cs := s.cs[c := s.cs[c].(pc := Timing, starts := s.cs[c].starts + 1)], start := s.start - 1,
         pipe := s.pipe + [Ready(c)])
    case SelectStart(c) => s.(cs := s.cs[c := s.cs[c].(pc := SawStart)])
    case ReadStart(c) =>
      s.(cs := s.cs[c := s.cs[c].(pc := Timing, starts := s.cs[c].starts + 1)], start := s.start - 1)
    case Measure(c, v, giveUp) =>
      var ch := s.cs[c];
      var stop := ch.i + 1 >= g.repetitions || giveUp;
      s.(cs := s.cs[c := Measured(ch, Record(ch.r, v), ch.i + 1, stop)],
         pipe := if stop then s.pipe + [Done(c)] else s.pipe)
    case GiveUp(c) => s.(cs := s.cs[c := s.cs[c].(pc := Cooldown)], pipe := s.pipe + [Done(c)])
    case SelectResult(c) => s.(cs := s.cs[c := s.cs[c].(pc := SawResult)])
    case ReadResult(c) =>
      s.(cs := s.cs[c := s.cs[c].(pc := Reporting(0), results := s.cs[c].results + 1)], result := s.result - 1)
    case WriteByte(c) =>
      var k := s.cs[c].pc.k;
      s.(cs := s.cs[c := s.cs[c].(pc := if k + 1 == g.size then AwaitExit else Reporting(k + 1))],
         pipe := s.pipe + [Msg(c, k)])
    case ReadExit(c) =>
      s.(cs := s.cs[c := s.cs[c].(pc := Exited, exits := s.cs[c].exits + 1)], exit := s.exit - 1)
    case TakeReady(m) =>
      var i := s.parent.i + m;
      s.(parent := if i == g.parallel then SendStart else CollectReady(i), pipe := s.pipe[m..])
    case WriteStart => s.(parent := CollectDone(0), start := s.start + g.parallel)
    case TakeDone(m) =>
      var i := s.parent.i + m;
      s.(parent := if i == g.parallel then AskResult(0) else CollectDone(i), pipe := s.pipe[m..])
    case WriteResult => s.(parent := Collecting(s.parent.i, []), result := s.result + 1)
    case TakeBytes(m) => s.(parent := Collecting(s.parent.i, s.parent.buf + s.pipe[..m]), pipe := s.pipe[m..])
    case MergeResult(c) =>
      s.(parent := AskResult(s.parent.i + 1), merged := Merge(s.merged, s.cs[c].r), reported := s.reported + {c})
    case WriteExit => s.(parent := ParentDone, exit := s.exit + g.parallel)
    case Poll(_) | Unrecorded(_) => s
  }

  predicate Final(s: System) { s.parent.ParentDone? && forall c | 0 <= c < |s.cs| :: s.cs[c].pc.Exited? }

  // ---------------------------------------------------------------- counting children

  function Count(cs: seq<Child>, p: Child -> bool): nat {
    if cs == [] then 0 else Count(cs[..|cs| - 1], p) + (if p(cs[|cs| - 1]) then 1 else 0)
  }

  lemma {:induction false} CountUpdate(cs: seq<Child>, p: Child -> bool, c: nat, x: Child)
    requires c < |cs|
    ensures Count(cs[c := x], p) == Count(cs, p) - (if p(cs[c]) then 1 else 0) + (if p(x) then 1 else 0)
  {
    var n := |cs| - 1;
    if c == n {
      assert cs[c := x][..n] == cs[..n];
    } else {
      assert cs[c := x][..n] == cs[..n][c := x];
      CountUpdate(cs[..n], p, c, x);
    }
  }

  lemma {:induction false} CountBound(cs: seq<Child>, p: Child -> bool)
    ensures Count(cs, p) <= |cs|
    ensures Count(cs, p) == |cs| <==> forall c | 0 <= c < |cs| :: p(cs[c])
    ensures Count(cs, p) == 0 <==> forall c | 0 <= c < |cs| :: !p(cs[c])
  {
    if cs != [] {
      var n := |cs| - 1;
      CountBound(cs[..n], p);
      assert forall c | 0 <= c < n :: cs[..n][c] == cs[c];
    }
  }

  predicate IsWarm(ch: Child) { ch.pc.Warm? }
  predicate Unstarted(ch: Child) { ch.pc.Warm? || ch.pc.SawStart? }
  predicate IsCool(ch: Child) { ch.pc.Cooldown? }
  predicate HasReported(ch: Child) { ch.pc.AwaitExit? || ch.pc.Exited? }
  predicate HasExited(ch: Child) { ch.pc.Exited? }

  // ---------------------------------------------------------------- the invariant

  predicate Positive(r: seq<Sample>) { forall k | 0 <= k < |r| :: r[k].u > 0 }

  /** Each child's own books: tokens taken follow its place, its list is sorted and within bounds. */
  ghost predicate ChildOk(g: Config, ch: Child) {
    && ch.starts == (if ch.pc.Fresh? || ch.pc.FreshSawStart? || ch.pc.Warm? || ch.pc.SawStart? then 0 else 1)
    && ch.results == (if ch.pc.Reporting? || ch.pc.AwaitExit? || ch.pc.Exited? then 1 else 0)
    && ch.exits == (if ch.pc.Exited? then 1 else 0)
    && Sorted(ch.r) && Positive(ch.r) && |ch.r| <= ch.i <= g.repetitions
    && (ch.starts == 0 ==> ch.i == 0) && (ch.pc.Timing? ==> ch.i < g.repetitions)
    && (ch.pc.Reporting? ==> ch.pc.k < g.size)
  }

  predicate AllReady(pipe: seq<Byte>) { forall k | 0 <= k < |pipe| :: pipe[k].Ready? }
  predicate AllDone(pipe: seq<Byte>) { forall k | 0 <= k < |pipe| :: pipe[k].Done? }

  /** Before the start tokens: nobody times, every byte on the way is a ready signal. */
  ghost predicate GettingReady(g: Config, s: System, i: nat) {
    && s.start == s.result == s.exit == 0 && s.reported == {} && s.merged == []
    && i <= g.parallel && AllReady(s.pipe)
    && (forall c | 0 <= c < |s.cs| :: s.cs[c].pc.Fresh? || s.cs[c].pc.Warm?)
    && Count(s.cs, IsWarm) == i + |s.pipe|
  }

  /** While the children time: as many start tokens as children that have not taken theirs. */
  ghost predicate Measuring(g: Config, s: System, i: nat) {
    && s.result == s.exit == 0 && s.reported == {} && s.merged == []
    && i < g.parallel && AllDone(s.pipe)
    && (forall c | 0 <= c < |s.cs| ::
          s.cs[c].pc.Warm? || s.cs[c].pc.SawStart? || s.cs[c].pc.Timing? || s.cs[c].pc.Cooldown?)
    && Count(s.cs, Unstarted) == s.start
    && Count(s.cs, IsCool) == i + |s.pipe|
  }

  /** Between two results: nobody writes, and the merged lists are those of the children that have reported. */
  ghost predicate Between(g: Config, s: System, i: nat) {
    && s.start == s.result == s.exit == 0 && s.pipe == [] && i <= g.parallel
    && (forall c | 0 <= c < |s.cs| :: s.cs[c].pc.Cooldown? || s.cs[c].pc.SawResult? || s.cs[c].pc.AwaitExit?)
    && (forall c: nat :: c in s.reported <==> c < |s.cs| && s.cs[c].pc.AwaitExit?)
    && Count(s.cs, HasReported) == i
  }

  /** Child `w` has the only result token; what it has written is what is on the pipe and in the buffer. */
  ghost predicate Sending(g: Config, s: System, i: nat, buf: seq<Byte>, w: nat) {
    && w < |s.cs| && w !in s.reported
    && (s.cs[w].pc.Reporting? || s.cs[w].pc.AwaitExit?)
    && buf + s.pipe == Message(w, if s.cs[w].pc.Reporting? then s.cs[w].pc.k else g.size)
    && (forall c: nat | c < |s.cs| && c != w :: s.cs[c].pc.Cooldown? || s.cs[c].pc.SawResult? || s.cs[c].pc.AwaitExit?)
    && (forall c: nat | c != w :: c in s.reported <==> c < |s.cs| && s.cs[c].pc.AwaitExit?)
    && Count(s.cs, HasReported) == i + (if s.cs[w].pc.AwaitExit? then 1 else 0)
  }

  ghost predicate Gathering(g: Config, s: System, i: nat, buf: seq<Byte>) {
    && s.start == s.exit == 0 && i < g.parallel && |buf| <= g.size
    && if s.result == 1
       then buf == [] && Between(g, s.(result := 0), i)
       else s.result == 0 && exists w: nat :: Sending(g, s, i, buf, w)
  }

  ghost predicate Leaving(g: Config, s: System) {
    && s.start == s.result == 0 && s.pipe == []
    && (forall c | 0 <= c < |s.cs| :: s.cs[c].pc.AwaitExit? || s.cs[c].pc.Exited?)
    && (forall c: nat :: c in s.reported <==> c < |s.cs|)
    && Count(s.cs, HasExited) + s.exit == g.parallel
  }

  /** The values merged so far, child by child. */
  function ReportedSum(cs: seq<Child>, reported: set<nat>): multiset<Sample> {
    if cs == [] then multiset{}
    else
      var n := |cs| - 1;
      ReportedSum(cs[..n], reported) + (if n in reported then multiset(cs[n].r) else multiset{})
  }

  /** What holds in every phase: each child's books, and a merged list that is the sorted union of the reported ones. */
  ghost predicate Core(g: Config, cs: seq<Child>, merged: seq<Sample>, reported: set<nat>) {
    && g.Valid() && |cs| == g.parallel
    && (forall c | 0 <= c < |cs| :: ChildOk(g, cs[c]))
    && Sorted(merged) && multiset(merged) == ReportedSum(cs, reported)
  }

  ghost predicate Phase(g: Config, s: System) {
    match s.parent
    case CollectReady(i) => i < g.parallel && GettingReady(g, s, i)
    case SendStart => GettingReady(g, s, g.parallel)
    case CollectDone(i) => Measuring(g, s, i)
    case AskResult(i) => Between(g, s, i)
    case Collecting(i, buf) => Gathering(g, s, i, buf)
    case ParentDone => Leaving(g, s)
  }

  ghost predicate Inv(g: Config, s: System) { Core(g, s.cs, s.merged, s.reported) && Phase(g, s) }

  // ---------------------------------------------------------------- every step keeps the invariant

  lemma {:induction false} SumUpdate(cs: seq<Child>, reported: set<nat>, c: nat, x: Child)
    requires c < |cs| && (c in reported ==> x.r == cs[c].r)
    ensures ReportedSum(cs[c := x], reported) == ReportedSum(cs, reported)
  {
    var n := |cs| - 1;
    if c == n {
      assert cs[c := x][..n] == cs[..n];
    } else {
      assert cs[c := x][..n] == cs[..n][c := x];
      SumUpdate(cs[..n], reported, c, x);
    }
  }

  lemma {:induction false} SumGrows(cs: seq<Child>, reported: set<nat>, c: nat)
    requires c !in reported
    ensures ReportedSum(cs, reported + {c})
            == ReportedSum(cs, reported) + (if c < |cs| then multiset(cs[c].r) else multiset{})
  {
    if cs != [] {
      SumGrows(cs[..|cs| - 1], reported, c);
    }
  }

  /** A child's step leaves the common part alone when its new books are in order. */
  lemma CoreUpdate(g: Config, cs: seq<Child>, merged: seq<Sample>, reported: set<nat>, c: nat, x: Child)
    requires Core(g, cs, merged, reported) && c < |cs| && ChildOk(g, x) && (c in reported ==> x.r == cs[c].r)
    ensures Core(g, cs[c := x], merged, reported)
  {
    hide ChildOk, Sorted;
    SumUpdate(cs, reported, c, x);
  }

  lemma {:induction false} KeptAll(r: seq<Sample>)
    requires Positive(r)
    ensures Kept(r) == multiset(r)
  {
    if r != [] {
      KeptAll(r[1..]);
      assert r == [r[0]] + r[1..];
    }
  }

  /** Recording one more measurement keeps the list sorted, without zeros, and at most one longer. */
  lemma RecordOk(r: seq<Sample>, v: Sample)
    requires Sorted(r) && Positive(r)
    ensures Sorted(Record(r, v)) && Positive(Record(r, v)) && |Record(r, v)| <= |r| + 1
  {
    hide Rate;
    if v.u > 0 {
      InsertSorted(r, v);
      InsertElements(r, v);
      forall k | 0 <= k < |Insert(r, v)| ensures Insert(r, v)[k].u > 0 { assert Insert(r, v)[k] in Insert(r, v); }
    }
  }

  lemma ReadyStep(g: Config, s: System, t: Step)
    requires Inv(g, s) && Enabled(g, s, t) && !Idle(t) && (s.parent.CollectReady? || s.parent.SendStart?)
    ensures Inv(g, Apply(g, s, t))
  {
    hide Sorted, Positive, Message, Merge, ReportedSum, Count;
    var s' := Apply(g, s, t);
    match t
    case First(c) =>
      CountUpdate(s.cs, IsWarm, c, s'.cs[c]);
      CoreUpdate(g, s.cs, s.merged, s.reported, c, s'.cs[c]);
    case TakeReady(m) =>
    case WriteStart =>
      CountBound(s.cs, IsWarm);
      CountBound(s.cs, Unstarted);
      CountBound(s.cs, IsCool);
    case _ => assert false;
  }

  /** A child finds or takes a start token. */
  lemma StartStep(g: Config, s: System, t: Step)
    requires Inv(g, s) && Enabled(g, s, t) && s.parent.CollectDone? && (t.SelectStart? || t.ReadStart?)
    ensures Inv(g, Apply(g, s, t))
  {
    hide Sorted, Positive, Message, Merge, ReportedSum, Count, Record;
    Moves(g, s, t.c, Apply(g, s, t).cs[t.c]);
    hide Core, ChildOk;
  }

  /** A child measures or gives up. */
  lemma TimingStep(g: Config, s: System, t: Step)
    requires Inv(g, s) && Enabled(g, s, t) && s.parent.CollectDone? && (t.Measure? || t.GiveUp?)
    ensures Inv(g, Apply(g, s, t))
  {
    hide Sorted, Positive, Message, Merge, ReportedSum, Count, Record;
    if t.Measure? { RecordOk(s.cs[t.c].r, t.v); }
    Moves(g, s, t.c, Apply(g, s, t).cs[t.c]);
    hide Core, ChildOk;
  }

  /** The parent takes done signals. */
  lemma DoneStep(g: Config, s: System, t: Step)
    requires Inv(g, s) && Enabled(g, s, t) && s.parent.CollectDone? && t.TakeDone?
    ensures Inv(g, Apply(g, s, t))
  {
    hide Core, Count;
    CountBound(s.cs, Unstarted);
    CountBound(s.cs, IsCool);
    CountBound(s.cs, HasReported);
    assert |s.cs| == g.parallel by { CoreSize(g, s.cs, s.merged, s.reported); }
  }

  lemma CoreSize(g: Config, cs: seq<Child>, merged: seq<Sample>, reported: set<nat>)
    requires Core(g, cs, merged, reported)
    ensures g.Valid() && |cs| == g.parallel
  {
    hide ChildOk, Sorted, ReportedSum;
  }

  lemma MeasuringStep(g: Config, s: System, t: Step)
    requires Inv(g, s) && Enabled(g, s, t) && !Idle(t) && s.parent.CollectDone?
    ensures Inv(g, Apply(g, s, t))
  {
    hide Core, Count, Apply;
    match t
    case SelectStart(_) | ReadStart(_) => StartStep(g, s, t);
    case Measure(_, _, _) | GiveUp(_) => TimingStep(g, s, t);
    case TakeDone(_) => DoneStep(g, s, t);
    case _ => assert false;
  }

  /** Bookkeeping of one child's move. */
  lemma Moves(g: Config, s: System, c: nat, x: Child)
    requires Core(g, s.cs, s.merged, s.reported) && c < |s.cs| && ChildOk(g, x)
    requires (c in s.reported ==> x.r == s.cs[c].r)
    ensures Core(g, s.cs[c := x], s.merged, s.reported)
    ensures Count(s.cs[c := x], Unstarted)
            == Count(s.cs, Unstarted) - (if Unstarted(s.cs[c]) then 1 else 0) + (if Unstarted(x) then 1 else 0)
    ensures Count(s.cs[c := x], IsCool)
            == Count(s.cs, IsCool) - (if IsCool(s.cs[c]) then 1 else 0) + (if IsCool(x) then 1 else 0)
    ensures Count(s.cs[c := x], HasReported)
            == Count(s.cs, HasReported) - (if HasReported(s.cs[c]) then 1 else 0) + (if HasReported(x) then 1 else 0)
    ensures Count(s.cs[c := x], HasExited)
            == Count(s.cs, HasExited) - (if HasExited(s.cs[c]) then 1 else 0) + (if HasExited(x) then 1 else 0)
  {
    hide ChildOk, Sorted, ReportedSum, Count, Core;
    CoreUpdate(g, s.cs, s.merged, s.reported, c, x);
    CountUpdate(s.cs, Unstarted, c, x);
    CountUpdate(s.cs, IsCool, c, x);
    CountUpdate(s.cs, HasReported, c, x);
    CountUpdate(s.cs, HasExited, c, x);
  }

  lemma BetweenStep(g: Config, s: System, t: Step)
    requires Inv(g, s) && Enabled(g, s, t) && !Idle(t) && s.parent.AskResult?
    ensures Inv(g, Apply(g, s, t))
  {
    hide Sorted, Positive, Message, Merge, ReportedSum, Count, Record;
    var s' := Apply(g, s, t);
    match t
    case WriteResult =>
    case WriteExit =>
      CountBound(s.cs, HasReported);
      CountBound(s.cs, HasExited);
    case _ => assert false;
  }

  lemma LeavingStep(g: Config, s: System, t: Step)
    requires Inv(g, s) && Enabled(g, s, t) && !Idle(t) && s.parent.ParentDone?
    ensures Inv(g, Apply(g, s, t))
  {
    hide Sorted, Positive, Message, Merge, ReportedSum, Count, Record;
    var s' := Apply(g, s, t);
    match t
    case ReadExit(c) => Moves(g, s, c, s'.cs[c]);
    case _ => assert false;
  }

  lemma MessageGrows(c: nat, n: nat)
    ensures |Message(c, n)| == n
    ensures Message(c, n) + [Msg(c, n)] == Message(c, n + 1)
  {
    if n > 0 { MessageGrows(c, n - 1); }
  }

  /** The child that reads the only result token becomes the sender. */
  lemma BecomesSender(g: Config, s: System, c: nat)
    requires Inv(g, s) && Enabled(g, s, ReadResult(c)) && s.parent.Collecting?
    ensures Inv(g, Apply(g, s, ReadResult(c)))
  {
    hide Sorted, Positive, Merge, ReportedSum, Count, Record;
    var s' := Apply(g, s, ReadResult(c));
    Moves(g, s, c, s'.cs[c]);
    assert Sending(g, s', s.parent.i, s.parent.buf, c);
  }

  /** One byte of a message; only the sender can write one. */
  lemma SenderWrites(g: Config, s: System, c: nat)
    requires Inv(g, s) && Enabled(g, s, WriteByte(c)) && s.parent.Collecting?
    ensures Inv(g, Apply(g, s, WriteByte(c)))
  {
    hide Sorted, Positive, Merge, ReportedSum, Count, Record, Message;
    var s' := Apply(g, s, WriteByte(c));
    Moves(g, s, c, s'.cs[c]);
    var w: nat :| Sending(g, s, s.parent.i, s.parent.buf, w);
    assert w == c;
    MessageGrows(c, s.cs[c].pc.k);
    assert s.parent.buf + s'.pipe == (s.parent.buf + s.pipe) + [Msg(c, s.cs[c].pc.k)];
    assert Sending(g, s', s.parent.i, s.parent.buf, c);
  }

  lemma ParentTakes(g: Config, s: System, m: nat)
    requires Inv(g, s) && Enabled(g, s, TakeBytes(m)) && s.parent.Collecting?
    ensures Inv(g, Apply(g, s, TakeBytes(m)))
  {
    hide Sorted, Positive, Merge, ReportedSum, Count, Record, Message, Core;
    var s' := Apply(g, s, TakeBytes(m));
    var w: nat :| Sending(g, s, s.parent.i, s.parent.buf, w);
    assert s'.parent.buf + s'.pipe == s.parent.buf + s.pipe;
    assert Sending(g, s', s.parent.i, s'.parent.buf, w);
  }

  lemma SenderSelects(g: Config, s: System, c: nat)
    requires Inv(g, s) && Enabled(g, s, SelectResult(c)) && s.parent.Collecting?
    ensures Inv(g, Apply(g, s, SelectResult(c)))
  {
    hide Sorted, Positive, Merge, ReportedSum, Count, Record, Message;
    var s' := Apply(g, s, SelectResult(c));
    Moves(g, s, c, s'.cs[c]);
  }

  /** A full buffer is the sender's whole message, and nothing is left on the pipe. */
  lemma FullBuffer(g: Config, s: System, w: nat)
    requires s.parent.Collecting? && |s.parent.buf| == g.size >= 1 && Sending(g, s, s.parent.i, s.parent.buf, w)
    requires ChildOk(g, s.cs[w])
    ensures s.parent.buf == Message(w, g.size) && s.pipe == [] && s.cs[w].pc.AwaitExit?
  {
    hide Count, Sorted, Positive, Message;
    MessageGrows(w, if s.cs[w].pc.Reporting? then s.cs[w].pc.k else g.size);
    assert s.parent.buf + [] == s.parent.buf;
  }

  lemma MergedCore(g: Config, cs: seq<Child>, merged: seq<Sample>, reported: set<nat>, c: nat)
    requires Core(g, cs, merged, reported) && c < |cs| && c !in reported
    ensures Core(g, cs, Merge(merged, cs[c].r), reported + {c})
  {
    hide ReportedSum, Merge;
    SumGrows(cs, reported, c);
    assert ChildOk(g, cs[c]);
    KeptAll(cs[c].r);
    MergeSorts(merged, cs[c].r);
  }

  lemma ResultMerges(g: Config, s: System, c: nat)
    requires Inv(g, s) && Enabled(g, s, MergeResult(c)) && s.parent.Collecting?
    ensures Inv(g, Apply(g, s, MergeResult(c)))
  {
    hide Sorted, Merge, ReportedSum, Count, Record, Message, ChildOk;
    var w: nat :| Sending(g, s, s.parent.i, s.parent.buf, w);
    FullBuffer(g, s, w);
    MessageOwner(c, w, g.size);
    MergedCore(g, s.cs, s.merged, s.reported, c);
    hide Core;
  }

  lemma MessageOwner(c: nat, w: nat, n: nat)
    requires n > 0 && Message(c, n) == Message(w, n)
    ensures c == w
  {
    assert Message(c, n)[n - 1] == Msg(c, n - 1) by { MessageGrows(c, n - 1); }
    assert Message(w, n)[n - 1] == Msg(w, n - 1) by { MessageGrows(w, n - 1); }
  }

  lemma GatheringStep(g: Config, s: System, t: Step)
    requires Inv(g, s) && Enabled(g, s, t) && !Idle(t) && s.parent.Collecting?
    ensures Inv(g, Apply(g, s, t))
  {
    hide Apply, ChildOk, Message, Count;
    match t
    case SelectResult(c) => SenderSelects(g, s, c);
    case ReadResult(c) => BecomesSender(g, s, c);
    case WriteByte(c) => SenderWrites(g, s, c);
    case TakeBytes(m) => ParentTakes(g, s, m);
    case MergeResult(c) => ResultMerges(g, s, c);
    case _ => assert false;
  }

  /** Every step of every process keeps the invariant. */
  lemma StepInv(g: Config, s: System, t: Step)
    requires Inv(g, s) && Enabled(g, s, t)
    ensures Inv(g, Apply(g, s, t))
  {
    if Idle(t) { return; }
    hide Inv, Apply, Enabled;
    match s.parent
    case CollectReady(_) => ReadyStep(g, s, t);
    case SendStart => ReadyStep(g, s, t);
    case CollectDone(_) => MeasuringStep(g, s, t);
    case AskResult(_) => BetweenStep(g, s, t);
    case Collecting(_, _) => GatheringStep(g, s, t);
    case ParentDone => LeavingStep(g, s, t);
  }

  lemma {:induction false} NoneCounted(cs: seq<Child>, p: Child -> bool)
    requires forall c | 0 <= c < |cs| :: !p(cs[c])
    ensures Count(cs, p) == 0
  {
    CountBound(cs, p);
  }

  lemma {:induction false} NothingReported(cs: seq<Child>)
    ensures ReportedSum(cs, {}) == multiset{}
  {
    if cs != [] { NothingReported(cs[..|cs| - 1]); }
  }

  lemma InitInv(g: Config, s: System)
    requires g.Valid() && Init(g, s)
    ensures Inv(g, s)
  {
    NoneCounted(s.cs, IsWarm);
    NothingReported(s.cs);
  }

  // ---------------------------------------------------------------- what holds over whole runs

  /** The system after a schedule of steps, if each step is enabled when its turn comes. */
  ghost predicate Reaches(g: Config, sched: seq<Step>, s: System)
    decreases |sched|
  {
    if sched == [] then Init(g, s)
    else exists r: System :: Reaches(g, sched[..|sched| - 1], r) && Leads(g, r, Last(sched), s)
  }

  function Last(sched: seq<Step>): Step
    requires sched != []
  {
    sched[|sched| - 1]
  }

  predicate Leads(g: Config, r: System, t: Step, s: System) { Enabled(g, r, t) && s == Apply(g, r, t) }

  lemma {:induction false} RunInv(g: Config, sched: seq<Step>, s: System)
    requires g.Valid() && Reaches(g, sched, s)
    ensures Inv(g, s)
    decreases |sched|
  {
    hide Inv, Apply, Enabled;
    if sched == [] {
      InitInv(g, s);
    } else {
      var t := Last(sched);
      var r :| Reaches(g, sched[..|sched| - 1], r) && Leads(g, r, t, s);
      RunInv(g, sched[..|sched| - 1], r);
      StepInv(g, r, t);
    }
  }

  predicate IsReady(ch: Child) { !ch.pc.Fresh? && !ch.pc.FreshSawStart? }
  predicate HasStarted(ch: Child) { IsReady(ch) && !ch.pc.Warm? && !ch.pc.SawStart? }
  predicate IsDone(ch: Child) { HasStarted(ch) && !ch.pc.Timing? }
  predicate HasToken(ch: Child) { ch.pc.Reporting? || ch.pc.AwaitExit? || ch.pc.Exited? }

  /** Barriers: nobody times before all have signalled ready, nobody reports before all have stopped timing. */
  lemma Barriers(g: Config, sched: seq<Step>, s: System, c: nat, d: nat)
    requires g.Valid() && Reaches(g, sched, s) && c < g.parallel && d < g.parallel
    ensures |s.cs| == g.parallel && !s.cs[c].pc.FreshSawStart?
    ensures HasStarted(s.cs[c]) ==> IsReady(s.cs[d])
    ensures HasToken(s.cs[c]) ==> IsDone(s.cs[d])
    ensures s.cs[c].pc.Exited? ==> HasReported(s.cs[d])
  {
    hide Count, ReportedSum, ChildOk, Sorted, Message;
    RunInv(g, sched, s);
  }

  /** Two result messages never overlap: at most one child is writing, and what is under way is one message's prefix. */
  lemma MessagesDoNotOverlap(g: Config, sched: seq<Step>, s: System, c: nat, d: nat)
    requires g.Valid() && Reaches(g, sched, s) && c < |s.cs| && d < |s.cs|
    requires s.cs[c].pc.Reporting?
    ensures s.parent.Collecting? && s.parent.buf + s.pipe == Message(c, s.cs[c].pc.k)
    ensures s.cs[d].pc.Reporting? ==> d == c
  {
    hide Count, ReportedSum, ChildOk, Sorted, Message;
    RunInv(g, sched, s);
  }

  lemma {:induction false} SumSize(cs: seq<Child>, reported: set<nat>, bound: nat)
    requires forall c | 0 <= c < |cs| :: |cs[c].r| <= bound
    ensures |ReportedSum(cs, reported)| <= |cs| * bound
  {
    if cs != [] {
      var n := |cs| - 1;
      SumSize(cs[..n], reported, bound);
      Add(n, 1, bound);
    }
  }

  /** No list outgrows the block allocated for it, at any moment of any run. */
  lemma WithinCapacity(g: Config, sched: seq<Step>, s: System, c: nat)
    requires g.Valid() && Reaches(g, sched, s) && c < g.parallel
    ensures |s.cs| == g.parallel && |s.cs[c].r| <= g.repetitions <= Capacity(g.repetitions)
    ensures |s.merged| <= g.parallel * g.repetitions <= Capacity(g.parallel * g.repetitions)
  {
    hide Phase, Count, Sorted, ReportedSum;
    RunInv(g, sched, s);
    assert ChildOk(g, s.cs[c]);
    forall d | 0 <= d < |s.cs| ensures |s.cs[d].r| <= g.repetitions { assert ChildOk(g, s.cs[d]); }
    SumSize(s.cs, s.reported, g.repetitions);
    assert |s.merged| == |multiset(s.merged)|;
  }

  /** All measurements of all children. */
  function AllResults(cs: seq<Child>): multiset<Sample> {
    if cs == [] then multiset{} else AllResults(cs[..|cs| - 1]) + multiset(cs[|cs| - 1].r)
  }

  lemma {:induction false} SumAll(cs: seq<Child>, reported: set<nat>)
    requires forall c: nat | c < |cs| :: c in reported
    ensures ReportedSum(cs, reported) == AllResults(cs)
  {
    if cs != [] { SumAll(cs[..|cs| - 1], reported); }
  }

  /** A finished run: each child took one token of each kind, no byte is left over, and the merged list is the
      sorted union of all the children's results. */
  lemma FinalOutcome(g: Config, sched: seq<Step>, s: System)
    requires g.Valid() && Reaches(g, sched, s) && Final(s)
    ensures forall c | 0 <= c < |s.cs| :: s.cs[c].starts == 1 && s.cs[c].results == 1 && s.cs[c].exits == 1
    ensures s.pipe == [] && s.start == 0 && s.result == 0 && s.exit == 0
    ensures Sorted(s.merged) && multiset(s.merged) == AllResults(s.cs)
  {
    hide Count, ReportedSum, Sorted, Message;
    RunInv(g, sched, s);
    forall c | 0 <= c < |s.cs| ensures s.cs[c].starts == 1 && s.cs[c].results == 1 && s.cs[c].exits == 1 {
      assert ChildOk(g, s.cs[c]);
    }
    CountBound(s.cs, HasExited);
    SumAll(s.cs, s.reported);
  }

  // ---------------------------------------------------------------- progress

  /** Some child can take the result token. */
  lemma TokenMoves(g: Config, s: System) returns (t: Step)
    requires Inv(g, s) && s.parent.Collecting? && s.result == 1
    ensures Enabled(g, s, t) && !Idle(t)
  {
    hide Core, Message;
    CountBound(s.cs, HasReported);
    hide Count;
    CoreSize(g, s.cs, s.merged, s.reported);
    var c :| 0 <= c < |s.cs| && !HasReported(s.cs[c]);
    return if s.cs[c].pc.Cooldown? then SelectResult(c) else ReadResult(c);
  }

  lemma GatheringMoves(g: Config, s: System) returns (t: Step)
    requires Inv(g, s) && s.parent.Collecting?
    ensures Enabled(g, s, t) && !Idle(t)
  {
    hide Sorted, Positive, ReportedSum, Message, Count, Between;
    if s.result == 1 {
      t := TokenMoves(g, s);
      return;
    }
    var w: nat :| Sending(g, s, s.parent.i, s.parent.buf, w);
    assert ChildOk(g, s.cs[w]);
    if |s.parent.buf| == g.size {
      FullBuffer(g, s, w);
      return MergeResult(w);
    }
    if s.pipe != [] { return TakeBytes(1); }
    assert s.parent.buf + [] == s.parent.buf;
    MessageGrows(w, g.size);
    return WriteByte(w);
  }

  lemma MeasuringMoves(g: Config, s: System) returns (t: Step)
    requires Inv(g, s) && s.parent.CollectDone?
    ensures Enabled(g, s, t) && !Idle(t)
  {
    hide Sorted, Positive, ReportedSum, Message, ChildOk;
    CountBound(s.cs, IsCool);
    CountBound(s.cs, Unstarted);
    hide Count;
    if s.pipe != [] { return TakeDone(1); }
    var c :| 0 <= c < |s.cs| && !IsCool(s.cs[c]);
    match s.cs[c].pc
    case Warm => return SelectStart(c);
    case SawStart => return ReadStart(c);
    case Timing => return Measure(c, Value(0, 1), false);
    case _ =>
  }

  lemma ReadyMoves(g: Config, s: System) returns (t: Step)
    requires Inv(g, s) && s.parent.CollectReady?
    ensures Enabled(g, s, t) && !Idle(t)
  {
    hide Sorted, Positive, ReportedSum, Message, ChildOk;
    CountBound(s.cs, IsWarm);
    hide Count;
    if s.pipe != [] { return TakeReady(1); }
    var c :| 0 <= c < |s.cs| && !IsWarm(s.cs[c]);
    return First(c);
  }

  lemma LeavingMoves(g: Config, s: System) returns (t: Step)
    requires Inv(g, s) && s.parent.ParentDone? && !Final(s)
    ensures Enabled(g, s, t) && !Idle(t)
  {
    hide Sorted, Positive, ReportedSum, Message, ChildOk;
    CountBound(s.cs, HasExited);
    hide Count;
    var c :| 0 <= c < |s.cs| && !s.cs[c].pc.Exited?;
    return ReadExit(c);
  }

  lemma AskMoves(g: Config, s: System) returns (t: Step)
    requires Inv(g, s) && (s.parent.AskResult? || s.parent.SendStart?)
    ensures Enabled(g, s, t) && !Idle(t)
  {
    hide Core, Count;
    return if s.parent.SendStart? then WriteStart else if s.parent.i < g.parallel then WriteResult else WriteExit;
  }

  /** No deadlock: in every reachable state that is not final, some process can do more than poll or measure again. */
  lemma NoDeadlock(g: Config, sched: seq<Step>, s: System) returns (t: Step)
    requires g.Valid() && Reaches(g, sched, s) && !Final(s)
    ensures Enabled(g, s, t) && !Idle(t)
  {
    hide Inv, Reaches, Final, Enabled;
    RunInv(g, sched, s);
    match s.parent
    case CollectReady(_) => t := ReadyMoves(g, s);
    case CollectDone(_) => t := MeasuringMoves(g, s);
    case Collecting(_, _) => t := GatheringMoves(g, s);
    case ParentDone => t := LeavingMoves(g, s);
    case _ => t := AskMoves(g, s);
  }

  /** Moves a child has left. */
  function ChildRank(g: Config, ch: Child): nat
    requires g.Valid() && ch.i <= g.repetitions && (ch.pc.Reporting? ==> ch.pc.k <= g.size)
  {
    match ch.pc
    case Fresh => g.size + g.repetitions + 7
    case FreshSawStart | Warm => g.size + g.repetitions + 6
    case SawStart => g.size + g.repetitions + 5
    case Timing => g.size + 4 + (g.repetitions - ch.i)
    case Cooldown => g.size + 3
    case SawResult => g.size + 2
    case Reporting(k) => g.size - k + 1
    case AwaitExit => 1
    case Exited => 0
  }

  ghost predicate Ranked(g: Config, cs: seq<Child>) {
    g.Valid() && forall c | 0 <= c < |cs| :: cs[c].i <= g.repetitions && (cs[c].pc.Reporting? ==> cs[c].pc.k <= g.size)
  }

  ghost function RankSum(g: Config, cs: seq<Child>): nat
    requires Ranked(g, cs)
  {
    if cs == [] then 0 else RankSum(g, cs[..|cs| - 1]) + ChildRank(g, cs[|cs| - 1])
  }

  /** Moves the parent has left, reads excluded. */
  function ParentRank(g: Config, p: ParentPc): int {
    match p
    case CollectReady(_) => 2 * g.parallel + 4
    case SendStart => 2 * g.parallel + 3
    case CollectDone(_) => 2 * g.parallel + 2
    case AskResult(i) => 2 * (g.parallel - i) + 1
    case Collecting(i, _) => 2 * (g.parallel - i)
    case ParentDone => 0
  }

  /** Bounds the number of steps still to come. */
  ghost function Budget(g: Config, s: System): int
    requires Ranked(g, s.cs)
  {
    2 * RankSum(g, s.cs) + |s.pipe| + ParentRank(g, s.parent)
  }

  lemma {:induction false} RankUpdate(g: Config, cs: seq<Child>, c: nat, x: Child)
    requires Ranked(g, cs) && c < |cs| && x.i <= g.repetitions && (x.pc.Reporting? ==> x.pc.k <= g.size)
    ensures Ranked(g, cs[c := x])
    ensures RankSum(g, cs[c := x]) == RankSum(g, cs) - ChildRank(g, cs[c]) + ChildRank(g, x)
  {
    hide ChildRank;
    var n := |cs| - 1;
    if c == n {
      assert cs[c := x][..n] == cs[..n];
    } else {
      assert cs[c := x][..n] == cs[..n][c := x];
      RankUpdate(g, cs[..n], c, x);
    }
  }

  lemma InvRanked(g: Config, s: System)
    requires Inv(g, s)
    ensures Ranked(g, s.cs) && Budget(g, s) >= 0
  {
    hide Count, Sorted, ReportedSum, RankSum;
    forall c | 0 <= c < |s.cs|
      ensures s.cs[c].i <= g.repetitions && (s.cs[c].pc.Reporting? ==> s.cs[c].pc.k <= g.size)
    {
      assert ChildOk(g, s.cs[c]);
    }
  }

  /** The child that moves, or -1 for the parent. */
  function Mover(t: Step): int {
    match t
    case First(c) => c case EarlyRead(c) => c case SelectStart(c) => c case ReadStart(c) => c
    case Measure(c, _, _) => c case GiveUp(c) => c case SelectResult(c) => c case ReadResult(c) => c
    case WriteByte(c) => c case ReadExit(c) => c
    case _ => -1
  }

  lemma ChildSpends(g: Config, s: System, t: Step)
    requires Enabled(g, s, t) && !Idle(t) && Mover(t) >= 0 && g.Valid()
    requires var c := Mover(t); ChildOk(g, s.cs[c]) && ChildOk(g, Apply(g, s, t).cs[c])
    ensures var s' := Apply(g, s, t);
            var c := Mover(t);
            s'.cs == s.cs[c := s'.cs[c]] && s'.parent == s.parent && |s'.pipe| <= |s.pipe| + 1
            && ChildRank(g, s'.cs[c]) < ChildRank(g, s.cs[c])
  {
    hide Sorted, Positive, Record;
  }

  lemma ParentSpends(g: Config, s: System, t: Step)
    requires Enabled(g, s, t) && !Idle(t) && Mover(t) < 0
    ensures var s' := Apply(g, s, t);
            s'.cs == s.cs && |s'.pipe| + ParentRank(g, s'.parent) < |s.pipe| + ParentRank(g, s.parent)
  {
    hide Merge, Message;
  }

  /** Every step uses up some of the budget, unless it is idle and changes nothing. */
  lemma StepSpends(g: Config, s: System, t: Step)
    requires Inv(g, s) && Enabled(g, s, t) && Inv(g, Apply(g, s, t))
    ensures Ranked(g, s.cs) && Ranked(g, Apply(g, s, t).cs)
    ensures if Idle(t) then Apply(g, s, t) == s else Budget(g, Apply(g, s, t)) < Budget(g, s)
  {
    if Idle(t) { InvRanked(g, s); return; }
    hide Apply, Enabled, Phase, RankSum, ChildOk, ReportedSum, Sorted, ParentRank;
    var s' := Apply(g, s, t);
    InvRanked(g, s);
    InvRanked(g, s');
    var c := Mover(t);
    if c >= 0 {
      MoverExists(g, s, t);
      ChildSpends(g, s, t);
      RankUpdate(g, s.cs, c, s'.cs[c]);
    } else {
      ParentSpends(g, s, t);
    }
  }

  lemma MoverExists(g: Config, s: System, t: Step)
    requires Enabled(g, s, t) && Mover(t) >= 0
    ensures Mover(t) < |s.cs| == |Apply(g, s, t).cs|
  {
  }

  /** How many steps of a schedule are not idle. */
  function Moved(sched: seq<Step>): nat
    decreases |sched|
  {
    if sched == [] then 0 else Moved(sched[..|sched| - 1]) + (if Idle(Last(sched)) then 0 else 1)
  }

  /** Idle steps apart every run is finite: the budget of the initial state bounds the number of other steps. */
  lemma {:induction false} RunsEnd(g: Config, sched: seq<Step>, s: System, s0: System)
    requires g.Valid() && Reaches(g, sched, s) && Init(g, s0)
    ensures Ranked(g, s0.cs) && Ranked(g, s.cs) && 0 <= Budget(g, s) <= Budget(g, s0) - Moved(sched)
    decreases |sched|
  {
    hide Inv, Apply, Enabled, Budget, Ranked;
    InitInv(g, s0);
    InvRanked(g, s0);
    if sched == [] {
    } else {
      var t := Last(sched);
      var r :| Reaches(g, sched[..|sched| - 1], r) && Leads(g, r, t, s);
      RunsEnd(g, sched[..|sched| - 1], r, s0);
      RunInv(g, sched[..|sched| - 1], r);
      StepInv(g, r, t);
      StepSpends(g, r, t);
      InvRanked(g, s);
    }
  }
}
