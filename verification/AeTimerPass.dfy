/**
 What one pass over wrk's time events comes to, on values: the list as a sequence of numbers and due times,
 the actions of callbacks, and the turns of the timers. Clocks and callbacks are parameters; timers have no
 finalizers.
 */
module AeTimerPass {

  const DELETED := -1
  const NOMORE := -1

  /** Seconds and milliseconds. */
  datatype Time = Time(sec: int, ms: int)

  predicate IsDue(now: Time, when: Time) { now.sec > when.sec || (now.sec == when.sec && now.ms >= when.ms) }

  /** `aeAddMillisecondsToNow` with C's truncating division. */
  function Later(now: Time, ms: int): Time {
    var q := if ms >= 0 then ms / 1000 else -(-ms / 1000);
    var r := ms - q * 1000;
    if now.ms + r >= 1000 then Time(now.sec + q + 1, now.ms + r - 1000) else Time(now.sec + q, now.ms + r)
  }

  /** A timer: its number, `DELETED` if it has lost it, and its due time. */
  datatype Entry = Entry(id: int, when: Time)

  /** The list, newest timer first, and the next number to be given out. */
  datatype List = List(entries: seq<Entry>, nextId: nat)

  /** What a callback does to the loop, and what it returns. */
  datatype Action = Create(now: Time, ms: int) | Delete(id: int)
  datatype Reaction = Reaction(actions: seq<Action>, retval: int, after: Time)

  // ---------------------------------------------------------------- callbacks

  /** `aeDeleteTimeEvent`: the first timer with that number loses it. */
  function Mark(s: seq<Entry>, id: int): (r: seq<Entry>)
    ensures |r| == |s|
  {
    if s == [] then []
    else if s[0].id == id then [s[0].(id := DELETED)] + s[1..]
    else [s[0]] + Mark(s[1..], id)
  }

  /** The first timer with the number is at place `k`, or nowhere. */
  lemma {:induction false} MarkFirst(s: seq<Entry>, id: int, k: nat)
    requires k <= |s| && forall i | 0 <= i < k :: s[i].id != id
    ensures k < |s| && s[k].id == id ==> Mark(s, id) == s[k := s[k].(id := DELETED)]
    ensures k == |s| ==> Mark(s, id) == s
  {
    if k > 0 {
      MarkFirst(s[1..], id, k - 1);
      assert s == [s[0]] + s[1..];
    }
  }

  function Do(l: List, a: Action): List {
    match a
    case Create(now, ms) => List([Entry(l.nextId, Later(now, ms))] + l.entries, l.nextId + 1)
    case Delete(id) => List(Mark(l.entries, id), l.nextId)
  }

  function DoAll(l: List, actions: seq<Action>): (r: List)
    ensures |r.entries| - |l.entries| == r.nextId - l.nextId >= 0
  {
    if actions == [] then l else Do(DoAll(l, actions[..|actions| - 1]), actions[|actions| - 1])
  }

  /** Numbers have been given out, and no two timers share one. */
  ghost predicate Sound(l: List) {
    && (forall i | 0 <= i < |l.entries| :: l.entries[i].id == DELETED || 0 <= l.entries[i].id < l.nextId)
    && (forall i, j | 0 <= i < j < |l.entries| && l.entries[i].id == l.entries[j].id :: l.entries[i].id == DELETED)
  }

  /** Marking marks the timer with the number and no other. */
  lemma {:induction false} MarkAt(s: seq<Entry>, id: int, i: nat)
    requires i < |s| && forall i, j | 0 <= i < j < |s| && s[i].id == s[j].id :: s[i].id == DELETED
    ensures Mark(s, id)[i] == if s[i].id == id then s[i].(id := DELETED) else s[i]
  {
    if s[0].id != id && i > 0 { MarkAt(s[1..], id, i - 1); }
  }

  /**
   An old timer after a callback: its due time is what it was, and it is marked exactly if it was or was asked to be.
   */
  function Touched(e: Entry, actions: seq<Action>): Entry { if Delete(e.id) in actions then e.(id := DELETED) else e }

  /** Callbacks put timers with new numbers in front, and change nothing else but the marks asked for. */
  ghost predicate Outcome(l: List, actions: seq<Action>, m: List) {
    && |m.entries| - |l.entries| == m.nextId - l.nextId >= 0 && Sound(m)
    && (forall j | 0 <= j < m.nextId - l.nextId :: m.entries[j].id == DELETED || m.entries[j].id == m.nextId - 1 - j)
    && (forall i | 0 <= i < |l.entries| :: m.entries[m.nextId - l.nextId + i] == Touched(l.entries[i], actions))
  }

  lemma TouchedMore(e: Entry, actions: seq<Action>, a: Action)
    ensures a.Create? ==> Touched(e, actions + [a]) == Touched(e, actions)
    ensures a.Delete? ==>
              Touched(e, actions + [a]) == var t := Touched(e, actions); if t.id == a.id then t.(id := DELETED) else t
  {
  }

  lemma CreateSound(m: List, when: Time)
    requires Sound(m)
    ensures Sound(List([Entry(m.nextId, when)] + m.entries, m.nextId + 1))
  {
    var s := [Entry(m.nextId, when)] + m.entries;
    assert forall i | 0 < i < |s| :: s[i] == m.entries[i - 1];
  }

  lemma CreateOutcome(l: List, actions: seq<Action>, m: List, a: Action)
    requires Sound(l) && Outcome(l, actions, m) && a.Create?
    ensures Outcome(l, actions + [a], Do(m, a))
  {
    var n := Do(m, a);
    CreateSound(m, n.entries[0].when);
    hide Touched, Later, Sound;
    assert forall j | 0 < j < |n.entries| :: n.entries[j] == m.entries[j - 1];
    forall i | 0 <= i < |l.entries| ensures n.entries[n.nextId - l.nextId + i] == Touched(l.entries[i], actions + [a]) {
      TouchedMore(l.entries[i], actions, a);
    }
  }

  /** Timers that only lose numbers stay sound. */
  lemma MarkSound(m: List, id: int)
    requires Sound(m)
    ensures Sound(List(Mark(m.entries, id), m.nextId))
  {
    var s := Mark(m.entries, id);
    forall i | 0 <= i < |s| ensures s[i].id == m.entries[i].id || s[i].id == DELETED { MarkAt(m.entries, id, i); }
    hide Mark;
  }

  lemma DeleteOutcome(l: List, actions: seq<Action>, m: List, a: Action)
    requires Sound(l) && Outcome(l, actions, m) && a.Delete?
    ensures Outcome(l, actions + [a], Do(m, a))
  {
    var n, d := Do(m, a), m.nextId - l.nextId;
    MarkSound(m, a.id);
    forall j | 0 <= j < d ensures n.entries[j].id == DELETED || n.entries[j].id == n.nextId - 1 - j {
      MarkAt(m.entries, a.id, j);
    }
    forall i | 0 <= i < |l.entries| ensures n.entries[d + i] == Touched(l.entries[i], actions + [a]) {
      MarkAt(m.entries, a.id, d + i);
      TouchedMore(l.entries[i], actions, a);
    }
    hide Touched, Mark, Sound;
  }

  /** What any callback does. */
  lemma {:induction false} DoAllOutcome(l: List, actions: seq<Action>)
    requires Sound(l)
    ensures Outcome(l, actions, DoAll(l, actions))
  {
    if actions != [] {
      var n := |actions| - 1;
      DoAllOutcome(l, actions[..n]);
      if actions[n].Create? {
        CreateOutcome(l, actions[..n], DoAll(l, actions[..n]), actions[n]);
      } else {
        DeleteOutcome(l, actions[..n], DoAll(l, actions[..n]), actions[n]);
      }
      assert actions[..n] + [actions[n]] == actions;
    }
  }

  // ---------------------------------------------------------------- the pass

  /**
   A timer's turn: its place in the list at the start, its number and due time, the clock, and what its callback would
   do.
   */
  datatype Turn = Turn(at: nat, id: int, when: Time, now: Time, r: Reaction) {
    predicate Fires() { IsDue(now, when) }
    predicate Ends() { Fires() && r.retval == NOMORE }
    predicate Deletes(id: int) { Fires() && Delete(id) in r.actions }

    /** Its due time after the turn. */
    function Next(): Time { if Fires() && r.retval != NOMORE then Later(r.after, r.retval) else when }
  }

  function Fired(turns: seq<Turn>): nat {
    if turns == [] then 0 else Fired(turns[..|turns| - 1]) + (if turns[|turns| - 1].Fires() then 1 else 0)
  }

  function RemoveAt<T>(s: seq<T>, k: nat): (r: seq<T>)
    requires k < |s|
    ensures |r| == |s| - 1
  {
    s[..k] + s[k + 1..]
  }

  lemma RemovedAt<T>(s: seq<T>, k: nat, i: nat)
    requires k < |s| && i < |s| - 1
    ensures RemoveAt(s, k)[i] == s[if i < k then i else i + 1]
  {
  }

  /** The timer after its callback: rescheduled, or deleted if the callback wants no more. */
  function Rescheduled(e: Entry, r: Reaction): Entry {
    if r.retval == NOMORE then e.(id := DELETED) else e.(when := Later(r.after, r.retval))
  }

  /** The list after the turn of the timer at place `k`. */
  function Turned(l: List, k: nat, turn: Turn): (m: List)
    requires k < |l.entries|
    ensures |m.entries| - |l.entries| == m.nextId - l.nextId >= 0
  {
    if !turn.Fires() then l
    else
      var m := DoAll(l, turn.r.actions);
      var j := m.nextId - l.nextId + k;
      m.(entries := m.entries[j := Rescheduled(m.entries[j], turn.r)])
  }

  datatype Pass = Pass(list: List, turns: seq<Turn>)

  /** The turn of the timer at place `k`, which was at place `at` when the pass began. */
  function TurnOf(l: List, k: nat, at: nat, clock: nat -> Time, react: nat -> Reaction): Turn
    requires k < |l.entries|
  {
    Turn(at, l.entries[k].id, l.entries[k].when, clock(at), react(at))
  }

  /** The walk from place `k` on: deleted timers are dropped, the others have their turn. */
  function Walk(l: List, k: nat, at: nat, clock: nat -> Time, react: nat -> Reaction): Pass
    requires k <= |l.entries|
    decreases |l.entries| - k
  {
    if k == |l.entries| then Pass(l, [])
    else if l.entries[k].id == DELETED then Walk(l.(entries := RemoveAt(l.entries, k)), k, at + 1, clock, react)
    else
      var turn := TurnOf(l, k, at, clock, react);
      var m := Turned(l, k, turn);
      var w := Walk(m, m.nextId - l.nextId + k + 1, at + 1, clock, react);
      Pass(w.list, [turn] + w.turns)
  }

  /** If the clock was set back, every timer is made due. */
  function Checked(s: seq<Entry>, back: bool): (r: seq<Entry>)
    ensures |r| == |s|
    ensures forall i | 0 <= i < |s| :: r[i] == if back then s[i].(when := Time(0, s[i].when.ms)) else s[i]
  {
    seq(|s|, i requires 0 <= i < |s| => if back then s[i].(when := Time(0, s[i].when.ms)) else s[i])
  }

  /** `processTimeEvents`. */
  function TimePass(l: List, back: bool, clock: nat -> Time, react: nat -> Reaction): Pass {
    Walk(l.(entries := Checked(l.entries, back)), 0, 0, clock, react)
  }

  // ---------------------------------------------------------------- what a pass means

  ghost predicate DeletedBy(turns: seq<Turn>, id: int) { exists q | 0 <= q < |turns| :: turns[q].Deletes(id) }

  ghost predicate DeletedBefore(turns: seq<Turn>, id: int, at: nat) {
    exists q | 0 <= q < |turns| :: turns[q].at < at && turns[q].Deletes(id)
  }

  ghost predicate HasTurn(turns: seq<Turn>, at: nat) { exists q | 0 <= q < |turns| :: turns[q].at == at }

  /** A turn shows the timer as it was: the timer at index `k` of `s` was at place `at` when the pass began. */
  predicate Shows(s: seq<Entry>, k: nat, at: nat, t: Turn, clock: nat -> Time, react: nat -> Reaction) {
    && at <= t.at && k + (t.at - at) < |s|
    && t == Turn(t.at, s[k + (t.at - at)].id, s[k + (t.at - at)].when, clock(t.at), react(t.at)) && t.id != DELETED
  }

  /** Turns come in list order, so a timer has at most one, and show the timers as they were. */
  ghost predicate InTurn(s: seq<Entry>, k: nat, at: nat, turns: seq<Turn>, clock: nat -> Time, react: nat -> Reaction) {
    && (forall p, q | 0 <= p < q < |turns| :: turns[p].at < turns[q].at)
    && (forall q | 0 <= q < |turns| :: Shows(s, k, at, turns[q], clock, react))
  }

  /** A timer has a turn exactly if it was not deleted before the pass nor by the callback of a timer in front of it. */
  ghost predicate Visited(s: seq<Entry>, k: nat, at: nat, turns: seq<Turn>) {
    forall i: nat | k + i < |s| :: VisitedAt(s, k, at, turns, i)
  }

  ghost predicate VisitedAt(s: seq<Entry>, k: nat, at: nat, turns: seq<Turn>, i: nat)
    requires k + i < |s|
  {
    HasTurn(turns, at + i) <==> s[k + i].id != DELETED && !DeletedBefore(turns, s[k + i].id, at + i)
  }

  function Kept(e: Entry, gone: bool): Entry { if gone then e.(id := DELETED) else e }

  /** A timer in front of the walk keeps its due time, and its number unless a callback takes it. */
  ghost predicate Behind(s: seq<Entry>, k: nat, turns: seq<Turn>, after: seq<Entry>, c: nat) {
    k <= |s| && c + k <= |after| && forall j | 0 <= j < k :: after[c + j] == Kept(s[j], DeletedBy(turns, s[j].id))
  }

  /** A timer after its turn. */
  function Left(t: Turn, deleted: bool): Entry { Entry(if t.Ends() || deleted then DELETED else t.id, t.Next()) }

  /** A timer that had its turn is rescheduled, and deleted exactly if it wants no more or a callback deletes it. */
  ghost predicate Settled(turns: seq<Turn>, after: seq<Entry>, c: nat) {
    |after| == c + |turns|
    && forall q | 0 <= q < |turns| :: after[c + q] == Left(turns[q], DeletedBy(turns, turns[q].id))
  }

  predicate NewNumber(e: Entry, nextId: int, j: nat) { e.id == DELETED || e.id == nextId - 1 - j }

  /** The first `c` timers are new: newest first, numbered down from the last number given out, unless deleted again. */
  ghost predicate Numbered(s: seq<Entry>, c: nat, nextId: nat) {
    c <= |s| && forall j | 0 <= j < c :: NewNumber(s[j], nextId, j)
  }

  /** What a walk from place `k` on does to the timers in front of it, the old ones from there on, and the new ones. */
  ghost predicate Walked(l: List, k: nat, at: nat, clock: nat -> Time, react: nat -> Reaction, w: Pass) {
    && Sound(w.list) && w.list.nextId >= l.nextId
    && var c := w.list.nextId - l.nextId;
       InTurn(l.entries, k, at, w.turns, clock, react) && Visited(l.entries, k, at, w.turns)
       && Numbered(w.list.entries, c, w.list.nextId) && Behind(l.entries, k, w.turns, w.list.entries, c)
       && Settled(w.turns, w.list.entries, c + k)
  }

  // ---------------------------------------------------------------- one turn

  /** Another timer after a turn. */
  function TouchedBy(turn: Turn, e: Entry): Entry { Kept(e, turn.Deletes(e.id)) }

  /** What one turn does to the list: the timer itself is settled, the others are touched by its callback. */
  ghost predicate TurnOutcome(l: List, k: nat, turn: Turn, m: List)
    requires k < |l.entries|
  {
    && |m.entries| - |l.entries| == m.nextId - l.nextId >= 0 && Sound(m)
    && var d := m.nextId - l.nextId;
       (forall j | 0 <= j < d :: NewNumber(m.entries[j], m.nextId, j))
       && (forall i | 0 <= i < |l.entries| && i != k ::
             m.entries[d + i] == TouchedBy(turn, l.entries[i]))
       && m.entries[d + k] == Left(turn, turn.Deletes(turn.id))
  }

  lemma MarkedSound(m: List, j: nat, e: Entry)
    requires Sound(m) && j < |m.entries| && (e.id == m.entries[j].id || e.id == DELETED)
    ensures Sound(m.(entries := m.entries[j := e]))
  {
  }

  /** The timer whose callback has run. */
  lemma RescheduledOutcome(e: Entry, turn: Turn)
    requires turn.Fires() && turn.id == e.id && turn.when == e.when
    ensures var f := Rescheduled(Touched(e, turn.r.actions), turn.r);
            f == Left(turn, turn.Deletes(turn.id))
            && (f.id == DELETED || f.id == Touched(e, turn.r.actions).id)
  {
  }

  lemma FiredOutcome(l: List, k: nat, turn: Turn, m: List)
    requires Outcome(l, turn.r.actions, m) && k < |l.entries| && turn.Fires()
    requires turn.id == l.entries[k].id && turn.when == l.entries[k].when
    ensures var j := m.nextId - l.nextId + k;
            TurnOutcome(l, k, turn, m.(entries := m.entries[j := Rescheduled(m.entries[j], turn.r)]))
  {
    var j := m.nextId - l.nextId + k;
    assert m.entries[j] == Touched(l.entries[k], turn.r.actions);
    RescheduledOutcome(l.entries[k], turn);
    hide Rescheduled, Sound, Turn.Fires, Turn.Ends, Turn.Next;
    MarkedSound(m, j, Rescheduled(m.entries[j], turn.r));
  }

  lemma IdleTurn(l: List, k: nat, turn: Turn)
    requires k < |l.entries| && !turn.Fires()
    ensures Turned(l, k, turn) == l && turn.Next() == turn.when && !turn.Ends() && forall id :: !turn.Deletes(id)
  {
  }

  lemma IdleOutcome(l: List, k: nat, turn: Turn)
    requires Sound(l) && k < |l.entries| && turn.id == l.entries[k].id && turn.when == l.entries[k].when
    requires !turn.Fires()
    ensures TurnOutcome(l, k, turn, Turned(l, k, turn))
  {
    IdleTurn(l, k, turn);
    hide Sound, Turned, Turn.Fires, Turn.Next, Turn.Ends, Turn.Deletes;
    assert TurnOutcome(l, k, turn, l);
  }

  lemma TurnedOutcome(l: List, k: nat, turn: Turn)
    requires Sound(l) && k < |l.entries| && turn.id == l.entries[k].id && turn.when == l.entries[k].when
    ensures TurnOutcome(l, k, turn, Turned(l, k, turn))
  {
    hide TurnOutcome, Outcome, Sound, Rescheduled, DoAll, Turn.Fires;
    if turn.Fires() {
      DoAllOutcome(l, turn.r.actions);
      FiredOutcome(l, k, turn, DoAll(l, turn.r.actions));
    } else {
      IdleOutcome(l, k, turn);
    }
  }

  lemma TurnedSize(l: List, k: nat, turn: Turn, m: List)
    requires k < |l.entries| && TurnOutcome(l, k, turn, m)
    ensures l.nextId <= m.nextId && |m.entries| - |l.entries| == m.nextId - l.nextId && Sound(m)
    ensures m.entries[m.nextId - l.nextId + k] == Left(turn, turn.Deletes(turn.id))
  {
    hide Sound, TouchedBy;
  }

  lemma TurnedOther(l: List, k: nat, turn: Turn, m: List, i: nat)
    requires k < |l.entries| && TurnOutcome(l, k, turn, m) && i < |l.entries| && i != k
    ensures 0 <= m.nextId - l.nextId + i < |m.entries|
    ensures m.entries[m.nextId - l.nextId + i] == TouchedBy(turn, l.entries[i])
  {
    hide Sound, TouchedBy;
  }

  lemma TurnedNew(l: List, k: nat, turn: Turn, m: List, j: nat)
    requires k < |l.entries| && TurnOutcome(l, k, turn, m) && j < m.nextId - l.nextId
    ensures j < |m.entries| && NewNumber(m.entries[j], m.nextId, j)
  {
    hide Sound, TouchedBy;
  }

  // ---------------------------------------------------------------- one turn in front of a walk

  lemma DeletedByCons(turn: Turn, turns: seq<Turn>, id: int)
    ensures DeletedBy([turn] + turns, id) <==> turn.Deletes(id) || DeletedBy(turns, id)
  {
    var ts := [turn] + turns;
    assert ts[0] == turn && forall q | 0 <= q < |turns| :: ts[q + 1] == turns[q];
    hide Turn.Deletes;
    if DeletedBy(ts, id) {
      var q :| 0 <= q < |ts| && ts[q].Deletes(id);
      assert q > 0 ==> turns[q - 1].Deletes(id);
    }
  }

  lemma DeletedBeforeCons(turn: Turn, turns: seq<Turn>, id: int, at: nat)
    requires turn.at < at
    ensures DeletedBefore([turn] + turns, id, at) <==> turn.Deletes(id) || DeletedBefore(turns, id, at)
  {
    var ts := [turn] + turns;
    assert ts[0] == turn && forall q | 0 <= q < |turns| :: ts[q + 1] == turns[q];
    hide Turn.Deletes;
    if DeletedBefore(ts, id, at) {
      var q :| 0 <= q < |ts| && ts[q].at < at && ts[q].Deletes(id);
      assert q > 0 ==> turns[q - 1].at < at && turns[q - 1].Deletes(id);
    }
  }

  lemma HasTurnCons(turn: Turn, turns: seq<Turn>, at: nat)
    ensures HasTurn([turn] + turns, at) <==> turn.at == at || HasTurn(turns, at)
  {
    var ts := [turn] + turns;
    assert ts[0] == turn && forall q | 0 <= q < |turns| :: ts[q + 1] == turns[q];
    if HasTurn(turns, at) {
      var q :| 0 <= q < |turns| && turns[q].at == at;
      assert ts[q + 1].at == at;
    }
  }

  /** The turn of the timer at place `k`, and the walk over what it leaves. */
  ghost predicate Continues(l: List, k: nat, at: nat, clock: nat -> Time, react: nat -> Reaction, turn: Turn, m: List,
                            w: Pass) {
    && k < |l.entries| && l.entries[k].id != DELETED && turn == TurnOf(l, k, at, clock, react)
    && TurnOutcome(l, k, turn, m) && Walked(m, m.nextId - l.nextId + k + 1, at + 1, clock, react, w)
  }

  lemma ConsInTurn(s: seq<Entry>, k: nat, at: nat, turn: Turn, turns: seq<Turn>, clock: nat -> Time,
                   react: nat -> Reaction)
    requires turn.at == at && Shows(s, k, at, turn, clock, react)
    requires forall q | 0 <= q < |turns| :: Shows(s, k, at, turns[q], clock, react) && at < turns[q].at
    requires forall p, q | 0 <= p < q < |turns| :: turns[p].at < turns[q].at
    ensures InTurn(s, k, at, [turn] + turns, clock, react)
  {
    var ts := [turn] + turns;
    hide Shows;
    forall q | 0 <= q < |ts| ensures Shows(s, k, at, ts[q], clock, react) && (q > 0 ==> ts[q] == turns[q - 1]) {}
  }

  lemma TurnShows(l: List, k: nat, at: nat, clock: nat -> Time, react: nat -> Reaction, turn: Turn, m: List, t: Turn)
    requires k < |l.entries| && TurnOutcome(l, k, turn, m)
    requires Shows(m.entries, m.nextId - l.nextId + k + 1, at + 1, t, clock, react)
    ensures Shows(l.entries, k, at, t, clock, react) && !turn.Deletes(t.id) && at < t.at
  {
    hide TurnOutcome;
    TurnedSize(l, k, turn, m);
    TurnedOther(l, k, turn, m, k + (t.at - at));
  }

  lemma TurnInTurn(l: List, k: nat, at: nat, clock: nat -> Time, react: nat -> Reaction, turn: Turn, m: List, w: Pass)
    requires Continues(l, k, at, clock, react, turn, m, w)
    ensures InTurn(l.entries, k, at, [turn] + w.turns, clock, react)
    ensures forall q | 0 <= q < |w.turns| :: !turn.Deletes(w.turns[q].id)
  {
    hide TurnOutcome, Visited, Numbered, Behind, Settled, Sound, Turn.Deletes;
    TurnedSize(l, k, turn, m);
    assert Shows(l.entries, k, at, turn, clock, react);
    hide Shows;
    forall q | 0 <= q < |w.turns|
      ensures Shows(l.entries, k, at, w.turns[q], clock, react) && at < w.turns[q].at && !turn.Deletes(w.turns[q].id)
    {
      TurnShows(l, k, at, clock, react, turn, m, w.turns[q]);
    }
    ConsInTurn(l.entries, k, at, turn, w.turns, clock, react);
  }

  lemma NothingBefore(turns: seq<Turn>, id: int, at: nat)
    requires forall q | 0 <= q < |turns| :: turns[q].at >= at
    ensures !DeletedBefore(turns, id, at)
  {
  }

  lemma VisitedHas(s: seq<Entry>, k: nat, at: nat, turns: seq<Turn>, i: nat)
    requires Visited(s, k, at, turns) && k + i < |s|
    ensures VisitedAt(s, k, at, turns, i)
  {
    hide VisitedAt;
  }

  lemma MakesVisited(s: seq<Entry>, k: nat, at: nat, turns: seq<Turn>)
    requires forall i: nat | k + i < |s| :: VisitedAt(s, k, at, turns, i)
    ensures Visited(s, k, at, turns)
  {
    hide VisitedAt;
  }

  lemma StartsAt(s: seq<Entry>, k: nat, at: nat, turns: seq<Turn>, clock: nat -> Time, react: nat -> Reaction)
    requires InTurn(s, k, at, turns, clock, react)
    ensures forall q | 0 <= q < |turns| :: turns[q].at >= at
  {
  }

  /** The timer whose turn it is. */
  lemma FirstVisited(l: List, k: nat, at: nat, clock: nat -> Time, react: nat -> Reaction, turn: Turn, m: List, w: Pass)
    requires Continues(l, k, at, clock, react, turn, m, w) && InTurn(l.entries, k, at, [turn] + w.turns, clock, react)
    ensures VisitedAt(l.entries, k, at, [turn] + w.turns, 0)
  {
    hide TurnOutcome, Walked, Sound, Turn.Deletes, HasTurn, InTurn, DeletedBefore;
    StartsAt(l.entries, k, at, [turn] + w.turns, clock, react);
    NothingBefore([turn] + w.turns, turn.id, at);
    HasTurnCons(turn, w.turns, at);
  }

  /** A timer behind it. */
  lemma LaterVisited(l: List, k: nat, at: nat, clock: nat -> Time, react: nat -> Reaction, turn: Turn, m: List, w: Pass,
                     i: nat)
    requires Continues(l, k, at, clock, react, turn, m, w) && 0 < i && k + i < |l.entries|
    ensures VisitedAt(l.entries, k, at, [turn] + w.turns, i)
  {
    hide TurnOutcome, InTurn, Visited, Numbered, Behind, Settled, Sound, Turn.Deletes, HasTurn, DeletedBefore;
    var h := m.nextId - l.nextId + k + 1;
    TurnedSize(l, k, turn, m);
    VisitedHas(m.entries, h, at + 1, w.turns, i - 1);
    TurnedOther(l, k, turn, m, k + i);
    HasTurnCons(turn, w.turns, at + i);
    DeletedBeforeCons(turn, w.turns, l.entries[k + i].id, at + i);
  }

  lemma TurnVisited(l: List, k: nat, at: nat, clock: nat -> Time, react: nat -> Reaction, turn: Turn, m: List, w: Pass)
    requires Continues(l, k, at, clock, react, turn, m, w) && InTurn(l.entries, k, at, [turn] + w.turns, clock, react)
    ensures Visited(l.entries, k, at, [turn] + w.turns)
  {
    hide Continues, InTurn, Visited, VisitedAt;
    forall i: nat | k + i < |l.entries| ensures VisitedAt(l.entries, k, at, [turn] + w.turns, i) {
      if i == 0 {
        FirstVisited(l, k, at, clock, react, turn, m, w);
      } else {
        LaterVisited(l, k, at, clock, react, turn, m, w, i);
      }
    }
    MakesVisited(l.entries, k, at, [turn] + w.turns);
  }

  lemma BehindSize(s: seq<Entry>, k: nat, turns: seq<Turn>, after: seq<Entry>, c: nat)
    requires Behind(s, k, turns, after, c)
    ensures k <= |s| && c + k <= |after|
  {
  }

  lemma BehindAt(s: seq<Entry>, k: nat, turns: seq<Turn>, after: seq<Entry>, c: nat, j: nat)
    requires Behind(s, k, turns, after, c) && j < k
    ensures j < |s| && c + j < |after| && after[c + j] == Kept(s[j], DeletedBy(turns, s[j].id))
  {
  }

  /** What the rest of the walk leaves of a timer that it has passed, or that the turn created. */
  lemma PassedBy(l: List, k: nat, at: nat, clock: nat -> Time, react: nat -> Reaction, turn: Turn, m: List, w: Pass,
                 j: nat)
    requires Continues(l, k, at, clock, react, turn, m, w) && j < m.nextId - l.nextId + k + 1
    ensures w.list.nextId >= m.nextId >= l.nextId && w.list.nextId - m.nextId + j < |w.list.entries| && j < |m.entries|
    ensures w.list.entries[w.list.nextId - m.nextId + j] == Kept(m.entries[j], DeletedBy(w.turns, m.entries[j].id))
  {
    hide TurnOutcome, InTurn, Visited, Numbered, Settled, Behind, Sound, DeletedBy;
    TurnedSize(l, k, turn, m);
    BehindAt(m.entries, m.nextId - l.nextId + k + 1, w.turns, w.list.entries, w.list.nextId - m.nextId, j);
  }

  lemma NumberedAt(s: seq<Entry>, c: nat, nextId: nat, j: nat)
    requires Numbered(s, c, nextId) && j < c
    ensures c <= |s| && NewNumber(s[j], nextId, j)
  {
  }

  lemma TurnNumbered(l: List, k: nat, at: nat, clock: nat -> Time, react: nat -> Reaction, turn: Turn, m: List, w: Pass)
    requires Continues(l, k, at, clock, react, turn, m, w)
    ensures l.nextId <= m.nextId <= w.list.nextId && Numbered(w.list.entries, w.list.nextId - l.nextId, w.list.nextId)
  {
    var c, d := w.list.nextId - m.nextId, m.nextId - l.nextId;
    hide TurnOutcome, InTurn, Visited, Numbered, Settled, Behind, Sound, DeletedBy, NewNumber;
    TurnedSize(l, k, turn, m);
    PassedBy(l, k, at, clock, react, turn, m, w, d + k);
    forall j | 0 <= j < c + d ensures NewNumber(w.list.entries[j], w.list.nextId, j) {
      if j < c {
        NumberedAt(w.list.entries, c, w.list.nextId, j);
      } else {
        PassedBy(l, k, at, clock, react, turn, m, w, j - c);
        TurnedNew(l, k, turn, m, j - c);
        NewStays(m.entries[j - c], m.nextId, j - c, w.list.nextId, DeletedBy(w.turns, m.entries[j - c].id));
      }
    }
    MakesNumbered(w.list.entries, c + d, w.list.nextId);
  }

  lemma NewStays(e: Entry, nextId: nat, j: nat, later: nat, gone: bool)
    requires NewNumber(e, nextId, j) && later >= nextId
    ensures NewNumber(Kept(e, gone), later, later - nextId + j)
  {
  }

  lemma MakesNumbered(s: seq<Entry>, c: nat, nextId: nat)
    requires c <= |s| && forall j | 0 <= j < c :: NewNumber(s[j], nextId, j)
    ensures Numbered(s, c, nextId)
  {
  }

  lemma TurnBehind(l: List, k: nat, at: nat, clock: nat -> Time, react: nat -> Reaction, turn: Turn, m: List, w: Pass)
    requires Continues(l, k, at, clock, react, turn, m, w)
    ensures w.list.nextId >= l.nextId
    ensures Behind(l.entries, k, [turn] + w.turns, w.list.entries, w.list.nextId - l.nextId)
  {
    var c, d, ts := w.list.nextId - l.nextId, m.nextId - l.nextId, [turn] + w.turns;
    hide TurnOutcome, Walked, DeletedBy, Turn.Deletes, Behind;
    TurnedSize(l, k, turn, m);
    PassedBy(l, k, at, clock, react, turn, m, w, d + k);
    forall j | 0 <= j < k ensures w.list.entries[c + j] == Kept(l.entries[j], DeletedBy(ts, l.entries[j].id)) {
      PassedBy(l, k, at, clock, react, turn, m, w, d + j);
      TurnedOther(l, k, turn, m, j);
      DeletedByCons(turn, w.turns, l.entries[j].id);
    }
    MakesBehind(l.entries, k, ts, w.list.entries, c);
  }

  lemma MakesBehind(s: seq<Entry>, k: nat, turns: seq<Turn>, after: seq<Entry>, c: nat)
    requires k <= |s| && c + k <= |after|
    requires forall j | 0 <= j < k :: after[c + j] == Kept(s[j], DeletedBy(turns, s[j].id))
    ensures Behind(s, k, turns, after, c)
  {
  }

  lemma SettledAt(turns: seq<Turn>, after: seq<Entry>, c: nat, q: nat)
    requires Settled(turns, after, c) && q < |turns|
    ensures |after| == c + |turns| && after[c + q] == Left(turns[q], DeletedBy(turns, turns[q].id))
  {
  }

  lemma SettledSize(turns: seq<Turn>, after: seq<Entry>, c: nat)
    requires Settled(turns, after, c)
    ensures |after| == c + |turns|
  {
  }

  lemma MakesSettled(turns: seq<Turn>, after: seq<Entry>, c: nat)
    requires |after| == c + |turns|
    requires forall q | 0 <= q < |turns| :: after[c + q] == Left(turns[q], DeletedBy(turns, turns[q].id))
    ensures Settled(turns, after, c)
  {
  }

  lemma TurnSettled(l: List, k: nat, at: nat, clock: nat -> Time, react: nat -> Reaction, turn: Turn, m: List, w: Pass)
    requires Continues(l, k, at, clock, react, turn, m, w)
    requires forall q | 0 <= q < |w.turns| :: !turn.Deletes(w.turns[q].id)
    ensures w.list.nextId >= l.nextId && Settled([turn] + w.turns, w.list.entries, w.list.nextId - l.nextId + k)
  {
    hide TurnOutcome, DeletedBy, Turn.Deletes, InTurn, Visited, Numbered, Behind, Sound, Settled;
    var c, d, ts := w.list.nextId - l.nextId, m.nextId - l.nextId, [turn] + w.turns;
    TurnedSize(l, k, turn, m);
    SettledSize(w.turns, w.list.entries, c + k + 1);
    PassedBy(l, k, at, clock, react, turn, m, w, d + k);
    hide Turn.Next, Turn.Ends;
    forall q | 0 <= q < |ts| ensures w.list.entries[c + k + q] == Left(ts[q], DeletedBy(ts, ts[q].id)) {
      DeletedByCons(turn, w.turns, ts[q].id);
      if q > 0 { SettledAt(w.turns, w.list.entries, c + k + 1, q - 1); }
    }
    MakesSettled(ts, w.list.entries, c + k);
  }

  lemma TurnWalked(l: List, k: nat, at: nat, clock: nat -> Time, react: nat -> Reaction, turn: Turn, m: List, w: Pass)
    requires Continues(l, k, at, clock, react, turn, m, w)
    ensures Walked(l, k, at, clock, react, Pass(w.list, [turn] + w.turns))
  {
    hide InTurn, Visited, Numbered, Behind, Settled, Sound, TurnOutcome, Turn.Deletes;
    TurnInTurn(l, k, at, clock, react, turn, m, w);
    TurnVisited(l, k, at, clock, react, turn, m, w);
    TurnNumbered(l, k, at, clock, react, turn, m, w);
    TurnBehind(l, k, at, clock, react, turn, m, w);
    TurnSettled(l, k, at, clock, react, turn, m, w);
  }

  // ---------------------------------------------------------------- a dropped timer in front of a walk

  lemma DropSound(l: List, k: nat)
    requires Sound(l) && k < |l.entries|
    ensures Sound(l.(entries := RemoveAt(l.entries, k)))
  {
    var s := RemoveAt(l.entries, k);
    assert forall i | 0 <= i < |s| :: s[i] == l.entries[if i < k then i else i + 1];
  }

  lemma DropInTurn(s: seq<Entry>, k: nat, at: nat, turns: seq<Turn>, clock: nat -> Time, react: nat -> Reaction)
    requires k < |s| && InTurn(RemoveAt(s, k), k, at + 1, turns, clock, react)
    ensures InTurn(s, k, at, turns, clock, react) && !HasTurn(turns, at)
  {
    hide RemoveAt;
    forall q | 0 <= q < |turns| ensures Shows(s, k, at, turns[q], clock, react) && turns[q].at > at {
      assert Shows(RemoveAt(s, k), k, at + 1, turns[q], clock, react);
      RemovedAt(s, k, k + (turns[q].at - (at + 1)));
    }
  }

  lemma DropVisited(s: seq<Entry>, k: nat, at: nat, turns: seq<Turn>)
    requires k < |s| && s[k].id == DELETED && Visited(RemoveAt(s, k), k, at + 1, turns) && !HasTurn(turns, at)
    ensures Visited(s, k, at, turns)
  {
    hide RemoveAt, HasTurn, DeletedBefore;
    forall i: nat | k + i < |s| ensures VisitedAt(s, k, at, turns, i) {
      if i > 0 {
        assert VisitedAt(RemoveAt(s, k), k, at + 1, turns, i - 1);
        RemovedAt(s, k, k + (i - 1));
      }
    }
  }

  lemma DropBehind(s: seq<Entry>, k: nat, turns: seq<Turn>, after: seq<Entry>, c: nat)
    requires k < |s| && Behind(RemoveAt(s, k), k, turns, after, c)
    ensures Behind(s, k, turns, after, c)
  {
    hide DeletedBy, RemoveAt, Behind;
    BehindSize(RemoveAt(s, k), k, turns, after, c);
    forall j | 0 <= j < k ensures after[c + j] == Kept(s[j], DeletedBy(turns, s[j].id)) {
      BehindAt(RemoveAt(s, k), k, turns, after, c, j);
      RemovedAt(s, k, j);
    }
    MakesBehind(s, k, turns, after, c);
  }

  /** A timer found deleted has no turn. */
  lemma DropWalked(l: List, k: nat, at: nat, clock: nat -> Time, react: nat -> Reaction, w: Pass)
    requires k < |l.entries| && l.entries[k].id == DELETED
    requires Walked(l.(entries := RemoveAt(l.entries, k)), k, at + 1, clock, react, w)
    ensures Walked(l, k, at, clock, react, w)
  {
    hide Numbered, Behind, Settled, Sound, InTurn, Visited, HasTurn, RemoveAt;
    DropInTurn(l.entries, k, at, w.turns, clock, react);
    DropVisited(l.entries, k, at, w.turns);
    DropBehind(l.entries, k, w.turns, w.list.entries, w.list.nextId - l.nextId);
  }

  // ---------------------------------------------------------------- the whole walk

  lemma WalkEnds(l: List, at: nat, clock: nat -> Time, react: nat -> Reaction)
    requires Sound(l)
    ensures Walked(l, |l.entries|, at, clock, react, Pass(l, []))
  {
    hide Sound, Behind;
    forall j | 0 <= j < |l.entries| ensures l.entries[0 + j] == Kept(l.entries[j], DeletedBy([], l.entries[j].id)) {}
    MakesBehind(l.entries, |l.entries|, [], l.entries, 0);
  }

  /** A walk at a timer that is found deleted. */
  lemma WalkDrops(l: List, k: nat, at: nat, clock: nat -> Time, react: nat -> Reaction)
    requires k < |l.entries| && l.entries[k].id == DELETED
    ensures Walk(l, k, at, clock, react) == Walk(l.(entries := RemoveAt(l.entries, k)), k, at + 1, clock, react)
  {
    hide RemoveAt;
  }

  /** A walk at a timer that has its turn. */
  lemma WalkTurns(l: List, k: nat, at: nat, clock: nat -> Time, react: nat -> Reaction)
    requires k < |l.entries| && l.entries[k].id != DELETED
    ensures var m := Turned(l, k, TurnOf(l, k, at, clock, react));
            m.nextId >= l.nextId && m.nextId - l.nextId + k + 1 <= |m.entries|
    ensures var m := Turned(l, k, TurnOf(l, k, at, clock, react));
            Walk(l, k, at, clock, react)
            == Pass(Walk(m, m.nextId - l.nextId + k + 1, at + 1, clock, react).list,
                    [TurnOf(l, k, at, clock, react)]
                    + Walk(m, m.nextId - l.nextId + k + 1, at + 1, clock, react).turns)
  {
    hide Turned;
  }

  /** Every walk does what it should. */
  lemma {:induction false} WalkMeans(l: List, k: nat, at: nat, clock: nat -> Time, react: nat -> Reaction)
    requires Sound(l) && k <= |l.entries|
    ensures Walked(l, k, at, clock, react, Walk(l, k, at, clock, react))
    decreases |l.entries| - k
  {
    if k == |l.entries| {
      WalkEnds(l, at, clock, react);
      return;
    }
    hide Sound, Walked, TurnOutcome, Turned, Walk;
    if l.entries[k].id == DELETED {
      DropSound(l, k);
      WalkDrops(l, k, at, clock, react);
      WalkMeans(l.(entries := RemoveAt(l.entries, k)), k, at + 1, clock, react);
      DropWalked(l, k, at, clock, react, Walk(l, k, at, clock, react));
    } else {
      var turn := TurnOf(l, k, at, clock, react);
      var m := Turned(l, k, turn);
      TurnedOutcome(l, k, turn);
      TurnedSize(l, k, turn, m);
      WalkTurns(l, k, at, clock, react);
      WalkMeans(m, m.nextId - l.nextId + k + 1, at + 1, clock, react);
      TurnWalked(l, k, at, clock, react, turn, m, Walk(m, m.nextId - l.nextId + k + 1, at + 1, clock, react));
    }
  }

  lemma CheckedSound(l: List, back: bool)
    requires Sound(l)
    ensures Sound(l.(entries := Checked(l.entries, back)))
  {
  }

  /** What is promised of a pass over the list `l`. */
  ghost predicate Fair(l: List, back: bool, clock: nat -> Time, react: nat -> Reaction, w: Pass) {
    && Sound(w.list) && w.list.nextId >= l.nextId
    && var c := w.list.nextId - l.nextId;
       InTurn(Checked(l.entries, back), 0, 0, w.turns, clock, react) && Visited(Checked(l.entries, back), 0, 0, w.turns)
       && Numbered(w.list.entries, c, w.list.nextId) && Settled(w.turns, w.list.entries, c)
  }

  /**
   A pass over the time events. A timer has a turn exactly if it was not deleted before the pass nor by the callback of
   a timer in front of it; turns come in list order, so each timer has at most one, with its own number and with the due
   time it had at the start, or the epoch's second if the clock was set back. A turn fires exactly if that time has
   come. The list is then the new timers, newest first, and the timers that had a turn, each at its next due time and
   deleted exactly if it wants no more or a callback deleted it.
   */
  lemma PassMeans(l: List, back: bool, clock: nat -> Time, react: nat -> Reaction)
    requires Sound(l)
    ensures Fair(l, back, clock, react, TimePass(l, back, clock, react))
  {
    hide Walk, InTurn, Visited, Numbered, Behind, Settled, Sound, Checked;
    CheckedSound(l, back);
    WalkMeans(l.(entries := Checked(l.entries, back)), 0, 0, clock, react);
  }

  /** The due time a pass sees. */
  function DueAt(e: Entry, back: bool): Time { Time(if back then 0 else e.when.sec, e.when.ms) }

  /** A turn of a pass in terms of the list at the start. */
  lemma FairShows(l: List, back: bool, clock: nat -> Time, react: nat -> Reaction, w: Pass, q: nat)
    requires Fair(l, back, clock, react, w) && q < |w.turns|
    ensures var t := w.turns[q];
            t.at < |l.entries|
            && t == Turn(t.at, l.entries[t.at].id, DueAt(l.entries[t.at], back), clock(t.at), react(t.at))
            && t.id != DELETED
  {
    hide Visited, Numbered, Settled, Sound;
    assert Shows(Checked(l.entries, back), 0, 0, w.turns[q], clock, react);
  }
}
