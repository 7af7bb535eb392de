/**
 wrk's event loop, time events: a linked list that callbacks change while `processTimeEvents` walks it. The methods
 are proved against the pass on values.
 */
module AeTimers {
  import opened AeTimerPass

  /** A `struct aeTimeEvent`. */
  class Timer {
    var id: int
    var whenSec: int
    var whenMs: int
    var next: Timer?

    constructor (id: int, whenSec: int, whenMs: int, next: Timer?)
      ensures this.id == id && this.whenSec == whenSec && this.whenMs == whenMs && this.next == next
    {
      this.id, this.whenSec, this.whenMs, this.next := id, whenSec, whenMs, next;
    }
  }

  /** What a timer holds. */
  ghost function EntryOf(t: Timer): Entry
    reads t`id, t`whenSec, t`whenMs
  {
    Entry(t.id, Time(t.whenSec, t.whenMs))
  }

  ghost predicate Distinct(s: seq<Timer>) { forall i, j | 0 <= i < j < |s| :: s[i] != s[j] }

  function NodeAt(nodes: seq<Timer>, i: nat): Timer? { if i < |nodes| then nodes[i] else null }

  /** Node `i` points to the next one. */
  ghost predicate Linked(nodes: seq<Timer>, i: nat)
    requires i < |nodes|
    reads nodes`next
  {
    nodes[i].next == NodeAt(nodes, i + 1)
  }

  ghost predicate AllLinked(nodes: seq<Timer>)
    reads nodes`next
  {
    forall i | 0 <= i < |nodes| :: Linked(nodes, i)
  }

  ghost predicate Hold(nodes: seq<Timer>, entries: seq<Entry>)
    reads nodes`id, nodes`whenSec, nodes`whenMs
  {
    |nodes| == |entries| && forall i | 0 <= i < |nodes| :: entries[i] == EntryOf(nodes[i])
  }

  lemma Prepended(te: Timer, s: seq<Timer>, entries: seq<Entry>)
    requires te !in s && Distinct(s) && AllLinked(s) && Hold(s, entries) && te.next == NodeAt(s, 0)
    ensures Distinct([te] + s) && AllLinked([te] + s) && Hold([te] + s, [EntryOf(te)] + entries)
  {
    var all := [te] + s;
    DistinctCons(te, s);
    hide Distinct;
    forall i | 0 <= i < |all| ensures Linked(all, i) && ([EntryOf(te)] + entries)[i] == EntryOf(all[i]) {
      if i > 0 {
        assert Linked(s, i - 1) && all[i] == s[i - 1];
      }
    }
  }

  lemma Heads(s: seq<Timer>)
    requires s != []
    ensures NodeAt(s, 0) == s[0]
  {
  }

  lemma AllBut(s: seq<Timer>)
    requires AllLinked(s)
    ensures forall i | 0 <= i < |s| :: Linked(s, i)
  {
  }

  /** Node `k` has been bypassed. */
  lemma Removed(s: seq<Timer>, k: nat, entries: seq<Entry>)
    requires k < |s| && Distinct(s) && Hold(s, entries)
    requires forall i | 0 <= i < |s| && i + 1 != k :: Linked(s, i)
    requires k > 0 ==> s[k - 1].next == NodeAt(s, k + 1)
    ensures Distinct(RemoveAt(s, k)) && AllLinked(RemoveAt(s, k)) && Hold(RemoveAt(s, k), RemoveAt(entries, k))
    ensures NodeAt(RemoveAt(s, k), 0) == NodeAt(s, if k == 0 then 1 else 0)
  {
    RemoveKeeps(s, k);
    hide RemoveAt, Distinct, NodeAt;
    var all := RemoveAt(s, k);
    forall i | 0 <= i < |all| ensures Linked(all, i) && RemoveAt(entries, k)[i] == EntryOf(all[i]) {
      RemovedAt(s, k, i);
      RemovedAt(entries, k, i);
      assert i + 1 != k ==> Linked(s, if i < k then i else i + 1);
    }
  }

  lemma RemoveKeeps(s: seq<Timer>, k: nat)
    requires k < |s| && Distinct(s)
    ensures Distinct(RemoveAt(s, k))
    ensures forall i: nat :: NodeAt(RemoveAt(s, k), i) == NodeAt(s, if i < k then i else i + 1)
  {
  }

  lemma DistinctCons(te: Timer, s: seq<Timer>)
    requires te !in s && Distinct(s)
    ensures Distinct([te] + s)
  {
  }

  lemma OnlyOne(s: seq<Timer>, k: nat)
    requires k < |s| && Distinct(s)
    ensures forall i | 0 <= i < |s| && i != k :: s[i] != s[k]
  {
  }

  lemma AllSizes(s: seq<Timer>, entries: seq<Entry>)
    requires Hold(s, entries)
    ensures |s| == |entries|
  {
  }

  lemma AllHeld(s: seq<Timer>, entries: seq<Entry>)
    requires Hold(s, entries)
    ensures |s| == |entries| && forall i | 0 <= i < |s| :: entries[i] == EntryOf(s[i])
  {
  }

  /** Node `k` has been changed. */
  lemma Changed(s: seq<Timer>, k: nat, entries: seq<Entry>, e: Entry)
    requires k < |s| == |entries| && EntryOf(s[k]) == e
    requires forall i | 0 <= i < |s| && i != k :: entries[i] == EntryOf(s[i])
    ensures Hold(s, entries[k := e])
  {
  }

  class TimeEvents {
    var head: Timer?
    var nextId: nat
    var lastTime: int
    ghost var nodes: seq<Timer>
    ghost var entries: seq<Entry>

    /** The list from `head` on is `nodes`. */
    ghost predicate Chained()
      reads `head, `nodes, nodes`next
    {
      Distinct(nodes) && head == NodeAt(nodes, 0) && AllLinked(nodes)
    }

    /** The timers hold `entries`. */
    ghost predicate Holds()
      reads `nodes, `entries, nodes`id, nodes`whenSec, nodes`whenMs
    {
      Hold(nodes, entries)
    }

    ghost predicate Valid()
      reads `head, `nodes, `nextId, `entries, nodes`next, nodes`id, nodes`whenSec, nodes`whenMs
    {
      Chained() && Holds() && Sound(Contents())
    }

    /** The list on values. */
    ghost function Contents(): List
      reads `nextId, `entries
    {
      List(entries, nextId)
    }

    constructor (now: int)
      ensures Valid() && Contents() == List([], 0) && lastTime == now
    {
      head, nextId, lastTime, nodes, entries := null, 0, now, [], [];
    }

    /** `aeCreateTimeEvent`: the new timer becomes the head. */
    method CreateTimeEvent(now: Time, ms: int) returns (id: int)
      requires Valid()
      modifies this`head, this`nextId, this`nodes, this`entries
      ensures Valid() && id == old(nextId) && nextId == id + 1 && Contents() == Do(old(Contents()), Create(now, ms))
      ensures |nodes| == |old(nodes)| + 1 && fresh(nodes[0]) && nodes[1..] == old(nodes)
    {
      hide Distinct, AllLinked, Hold, Later, NodeAt;
      id := nextId;
      nextId := nextId + 1;
      var when := Later(now, ms);
      CreateSound(List(entries, id), when);
      hide Sound;
      var te := new Timer(id, when.sec, when.ms, head);
      head := te;
      Prepended(te, nodes, entries);
      Heads([te] + nodes);
      nodes, entries := [te] + nodes, [Entry(id, when)] + entries;
    }

    /** `aeDeleteTimeEvent`: marks the first timer with that number. */
    method DeleteTimeEvent(id: int) returns (ok: bool)
      requires Valid()
      modifies this`entries, nodes`id
      ensures Valid() && Contents() == Do(old(Contents()), Delete(id))
      ensures ok <==> exists i | 0 <= i < |nodes| :: old(entries[i].id) == id
    {
      var te := head;
      ghost var k := 0;
      while te != null
        invariant 0 <= k <= |nodes| && te == NodeAt(nodes, k)
        invariant forall i | 0 <= i < k :: entries[i].id != id
        decreases |nodes| - k
      {
        if te.id == id {
          MarkFirst(entries, id, k);
          OnlyOne(nodes, k);
          MarkedSound(Contents(), k, entries[k].(id := DELETED));
          te.id := DELETED;
          entries := entries[k := entries[k].(id := DELETED)];
          return true;
        }
        assert Linked(nodes, k);
        te := te.next;
        k := k + 1;
      }
      MarkFirst(entries, id, k);
      return false;
    }

    /** A callback: any sequence of creations and deletions. New timers end up in front of the old ones. */
    method Callback(actions: seq<Action>) returns (ghost created: seq<Timer>)
      requires Valid()
      modifies this`head, this`nextId, this`nodes, this`entries, nodes`id
      ensures Valid() && Contents() == DoAll(old(Contents()), actions)
      ensures nodes == created + old(nodes) && |created| == nextId - old(nextId)
      ensures forall i | 0 <= i < |created| :: fresh(created[i])
    {
      hide Chained, Holds, Sound, Mark, Do;
      created := [];
      assert created + nodes == nodes && actions[..0] == [];
      for a := 0 to |actions|
        invariant Valid() && Contents() == DoAll(old(Contents()), actions[..a])
        invariant nodes == created + old(nodes) && |created| == nextId - old(nextId)
        invariant forall i | 0 <= i < |created| :: fresh(created[i])
      {
        assert actions[..a + 1][..a] == actions[..a];
        match actions[a]
        case Create(now, ms) =>
          var _ := CreateTimeEvent(now, ms);
          created := [nodes[0]] + created;
          assert nodes == [nodes[0]] + nodes[1..];
        case Delete(id) =>
          var _ := DeleteTimeEvent(id);
      }
      assert actions[..|actions|] == actions;
    }

    /** The two stores that take node `k` off the chain: into its predecessor, or into `head` if there is none. */
    method Bypass(te: Timer, prev: Timer?, ghost k: nat)
      requires Valid() && k < |nodes| && te == nodes[k] && prev == (if k == 0 then null else nodes[k - 1])
      modifies this`head, nodes`next
      ensures head == NodeAt(nodes, if k == 0 then 1 else 0) && (k > 0 ==> nodes[k - 1].next == NodeAt(nodes, k + 1))
      ensures forall i | 0 <= i < |nodes| && i + 1 != k :: Linked(nodes, i)
    {
      hide Sound, AllLinked, NodeAt, Distinct, Hold;
      AllBut(nodes);
      OnlyOne(nodes, if k == 0 then 0 else k - 1);
      assert Linked(nodes, k);
      if prev == null {
        head := te.next;
      } else {
        prev.next := te.next;
      }
      forall i | 0 <= i < |nodes| && i + 1 != k ensures Linked(nodes, i) {
        assert old(Linked(nodes, i));
      }
    }

    /** Unlinks node `k`. */
    method Unlink(te: Timer, prev: Timer?, ghost k: nat)
      requires Valid() && k < |nodes| && te == nodes[k] && prev == (if k == 0 then null else nodes[k - 1])
      modifies this`head, this`nodes, this`entries, nodes`next
      ensures Valid() && nodes == RemoveAt(old(nodes), k) && Contents() == List(RemoveAt(old(entries), k), nextId)
    {
      DropSound(Contents(), k);
      hide Sound, RemoveAt, AllLinked, NodeAt, Distinct, Hold, Linked;
      AllSizes(nodes, entries);
      Bypass(te, prev, k);
      Removed(nodes, k, entries);
      nodes, entries := RemoveAt(nodes, k), RemoveAt(entries, k);
    }

    /** If the clock was set back, every timer is made due. */
    method CheckClock(now: int)
      requires Valid()
      modifies this`lastTime, this`entries, nodes`whenSec
      ensures Valid() && lastTime == now && Contents() == List(Checked(old(entries), now < old(lastTime)), nextId)
    {
      CheckedSound(Contents(), now < lastTime);
      hide Sound;
      ghost var back, held := now < lastTime, entries;
      if now < lastTime {
        var te := head;
        ghost var k := 0;
        while te != null
          invariant 0 <= k <= |nodes| && te == NodeAt(nodes, k)
          invariant forall i | 0 <= i < |nodes| :: nodes[i].whenSec == if i < k then 0 else old(nodes[i].whenSec)
          decreases |nodes| - k
        {
          te.whenSec := 0;
          assert Linked(nodes, k);
          te := te.next;
          k := k + 1;
        }
      }
      lastTime := now;
      entries := Checked(held, back);
      forall i | 0 <= i < |nodes| ensures entries[i] == EntryOf(nodes[i]) {
        assert held[i] == old(EntryOf(nodes[i]));
      }
    }

    /** A due timer: its callback runs, then it is rescheduled or deleted. */
    method Fire(te: Timer, r: Reaction, ghost k: nat) returns (ghost more: seq<Timer>)
      requires Valid() && k < |nodes| && te == nodes[k]
      modifies this`head, this`nextId, this`nodes, this`entries, nodes`id, te`whenSec, te`whenMs
      ensures Valid() && nodes == more + old(nodes) && forall i | 0 <= i < |more| :: fresh(more[i])
      ensures var m := DoAll(old(Contents()), r.actions);
              var j := m.nextId - old(nextId) + k;
              Contents() == m.(entries := m.entries[j := Rescheduled(m.entries[j], r)])
    {
      hide Mark, DoAll, Later, Sound, Distinct, Hold, AllLinked;
      more := Callback(r.actions);
      ghost var j := |more| + k;
      assert nodes[j] == te && |more| == nextId - old(nextId);
      OnlyOne(nodes, j);
      AllHeld(nodes, entries);
      MarkedSound(Contents(), j, Rescheduled(entries[j], r));
      if r.retval != NOMORE {
        var when := Later(r.after, r.retval);
        te.whenSec, te.whenMs := when.sec, when.ms;
      } else {
        te.id := DELETED;
      }
      Changed(nodes, j, entries, Rescheduled(entries[j], r));
      entries := entries[j := Rescheduled(entries[j], r)];
    }

    /** The turn of a timer that is not deleted: it fires if it is due, and stays in the list. */
    method Visit(te: Timer, turn: Turn, ghost k: nat) returns (ghost more: seq<Timer>)
      requires Valid() && k < |nodes| && te == nodes[k] && turn.id == te.id && turn.when == Time(te.whenSec, te.whenMs)
      modifies this`head, this`nextId, this`nodes, this`entries, nodes`id, te`whenSec, te`whenMs
      ensures Valid() && nodes == more + old(nodes) && (forall i | 0 <= i < |more| :: fresh(more[i]))
      ensures Contents() == Turned(old(Contents()), k, turn)
    {
      hide DoAll, Rescheduled, Chained, Holds, Sound, IsDue;
      if IsDue(turn.now, Time(te.whenSec, te.whenMs)) {
        more := Fire(te, turn.r, k);
      } else {
        more := [];
        assert [] + nodes == nodes;
      }
    }

    lemma Begin()
      requires Valid()
      ensures head == NodeAt(nodes, 0) && |nodes| == |entries| && Sound(Contents())
    {
    }

    lemma Every()
      requires Valid()
      ensures |nodes| == |entries|
      ensures forall i | 0 <= i < |nodes| ::
                entries[i].id == nodes[i].id && entries[i].when.sec == nodes[i].whenSec
                && entries[i].when.ms == nodes[i].whenMs
    {
    }

    /** The node at place `k`, its neighbours and what it holds. */
    lemma Cursor(te: Timer, k: nat)
      requires Valid() && te == NodeAt(nodes, k)
      ensures k < |nodes| == |entries| && te == nodes[k] && te.next == NodeAt(nodes, k + 1) && entries[k] == EntryOf(te)
      ensures k > 0 ==> NodeAt(nodes, k - 1) == nodes[k - 1]
      ensures Distinct(nodes) && Sound(Contents())
    {
      assert Linked(nodes, k);
    }
  }

  // ---------------------------------------------------------------- the walk

  /** No timer from place `k` on has been created since `maxId` was the last number. */
  ghost predicate Old(entries: seq<Entry>, k: nat, maxId: int) {
    forall i | k <= i < |entries| :: entries[i].id <= maxId
  }

  lemma OldStart(l: List)
    requires Sound(l)
    ensures Old(l.entries, 0, l.nextId - 1)
  {
  }

  lemma OldRemoved(entries: seq<Entry>, k: nat, maxId: int)
    requires k < |entries| && Old(entries, k, maxId)
    ensures Old(RemoveAt(entries, k), k, maxId)
  {
  }

  lemma OldTurned(l: List, k: nat, turn: Turn, maxId: int)
    requires Sound(l) && k < |l.entries| && Old(l.entries, k, maxId) && maxId >= -1
    requires turn.id == l.entries[k].id && turn.when == l.entries[k].when
    ensures var m := Turned(l, k, turn); Old(m.entries, m.nextId - l.nextId + k + 1, maxId)
  {
    var m := Turned(l, k, turn);
    TurnedOutcome(l, k, turn);
    hide Turned, TurnOutcome, Sound;
    forall i | m.nextId - l.nextId + k + 1 <= i < |m.entries| ensures m.entries[i].id <= maxId {
      TurnedOther(l, k, turn, m, i - (m.nextId - l.nextId));
    }
  }

  /** The list in terms of the nodes of the start: new nodes, then one for each turn, then those not yet visited. */
  ghost predicate Placed(nodes: seq<Timer>, c: nat, turns: seq<Turn>, start: seq<Timer>, at: nat) {
    && at <= |start| && |nodes| == c + |turns| + (|start| - at)
    && (forall q | 0 <= q < |turns| :: turns[q].at < at && nodes[c + q] == start[turns[q].at])
    && (forall i | at <= i < |start| :: nodes[c + |turns| + (i - at)] == start[i])
  }

  lemma PlacedDrop(nodes: seq<Timer>, c: nat, turns: seq<Turn>, start: seq<Timer>, at: nat)
    requires Placed(nodes, c, turns, start, at) && at < |start|
    ensures c + |turns| < |nodes| && Placed(RemoveAt(nodes, c + |turns|), c, turns, start, at + 1)
  {
    var k, all := c + |turns|, RemoveAt(nodes, c + |turns|);
    hide RemoveAt;
    forall q | 0 <= q < |turns| ensures all[c + q] == start[turns[q].at] { RemovedAt(nodes, k, c + q); }
    forall i | at + 1 <= i < |start| ensures all[k + (i - (at + 1))] == start[i] {
      RemovedAt(nodes, k, k + (i - (at + 1)));
    }
  }

  lemma PlacedTurn(nodes: seq<Timer>, c: nat, turns: seq<Turn>, start: seq<Timer>, at: nat, turn: Turn,
                   more: seq<Timer>)
    requires Placed(nodes, c, turns, start, at) && at < |start| && turn.at == at
    ensures Placed(more + nodes, |more| + c, turns + [turn], start, at + 1)
  {
    var all, ts, d := more + nodes, turns + [turn], |more| + c;
    forall q | 0 <= q < |ts| ensures ts[q].at < at + 1 && all[d + q] == start[ts[q].at] {
      assert all[d + q] == nodes[c + q];
      if q == |turns| { assert nodes[c + |turns| + (at - at)] == start[at]; }
    }
    forall i | at + 1 <= i < |start| ensures all[d + |ts| + (i - (at + 1))] == start[i] {
      assert nodes[c + |turns| + (i - at)] == start[i];
    }
  }

  lemma PlacedCursor(nodes: seq<Timer>, c: nat, turns: seq<Turn>, start: seq<Timer>, at: nat)
    requires Placed(nodes, c, turns, start, at)
    ensures at <= |start| && (NodeAt(nodes, c + |turns|) == null <==> at == |start|)
    ensures at < |start| ==> c + |turns| < |nodes| && nodes[c + |turns|] == start[at]
  {
    if at < |start| { assert nodes[c + |turns| + (at - at)] == start[at]; }
  }

  lemma FiredMore(turns: seq<Turn>, turn: Turn)
    ensures Fired(turns + [turn]) == Fired(turns) + (if turn.Fires() then 1 else 0)
  {
    assert (turns + [turn])[..|turns|] == turns;
  }

  /** What the walk still has to do, with the turns so far. */
  ghost function Resume(turns: seq<Turn>, l: List, k: nat, at: nat, clock: nat -> Time, react: nat -> Reaction): Pass
    requires k <= |l.entries|
  {
    var w := Walk(l, k, at, clock, react);
    Pass(w.list, turns + w.turns)
  }

  lemma ResumeDrop(turns: seq<Turn>, l: List, k: nat, at: nat, clock: nat -> Time, react: nat -> Reaction)
    requires k < |l.entries| && l.entries[k].id == DELETED
    ensures Resume(turns, l, k, at, clock, react)
            == Resume(turns, l.(entries := RemoveAt(l.entries, k)), k, at + 1, clock, react)
  {
    hide RemoveAt;
  }

  lemma ResumeTurn(turns: seq<Turn>, l: List, k: nat, at: nat, clock: nat -> Time, react: nat -> Reaction, turn: Turn)
    requires k < |l.entries| && l.entries[k].id != DELETED && turn == TurnOf(l, k, at, clock, react)
    ensures var m := Turned(l, k, turn);
            Resume(turns, l, k, at, clock, react)
            == Resume(turns + [turn], m, m.nextId - l.nextId + k + 1, at + 1, clock, react)
  {
    hide Turned;
    var m := Turned(l, k, turn);
    var w := Walk(m, m.nextId - l.nextId + k + 1, at + 1, clock, react);
    assert turns + ([turn] + w.turns) == turns + [turn] + w.turns;
  }

  lemma ResumeEnd(turns: seq<Turn>, l: List, at: nat, clock: nat -> Time, react: nat -> Reaction)
    ensures Resume(turns, l, |l.entries|, at, clock, react) == Pass(l, turns)
  {
  }

  lemma PlacedEnd(nodes: seq<Timer>, c: nat, turns: seq<Turn>, start: seq<Timer>, at: nat)
    requires Placed(nodes, c, turns, start, at) && NodeAt(nodes, c + |turns|) == null
    ensures at == |start| && |nodes| == c + |turns|
  {
    PlacedCursor(nodes, c, turns, start, at);
  }

  lemma NodeIn(nodes: seq<Timer>, k: nat, more: seq<Timer>)
    requires k < |nodes|
    ensures NodeAt(more + nodes, |more| + k) == nodes[k]
  {
  }

  /** Where the walk stands: `c` new timers, the turns so far, and what is still to do. */
  ghost predicate Midway(loop: TimeEvents, l0: List, start: seq<Timer>, turns: seq<Turn>, c: nat, p: nat, te: Timer?,
                         prev: Timer?, clock: nat -> Time, react: nat -> Reaction)
    reads loop, loop.nodes
  {
    var k := c + |turns|;
    && loop.Valid() && k <= |loop.entries| && loop.nextId == l0.nextId + c
    && te == NodeAt(loop.nodes, k) && prev == (if k == 0 then null else NodeAt(loop.nodes, k - 1))
    && Placed(loop.nodes, c, turns, start, p) && Old(loop.entries, k, l0.nextId - 1)
    && Resume(turns, loop.Contents(), k, p, clock, react) == Walk(l0, 0, 0, clock, react)
  }

  /** The walk at a timer found deleted. */
  method TakeOut(loop: TimeEvents, te: Timer, prev: Timer?, ghost l0: List, ghost start: seq<Timer>,
                 ghost turns: seq<Turn>, ghost c: nat,
                 ghost p: nat, ghost clock: nat -> Time, ghost react: nat -> Reaction)
    returns (next: Timer?)
    requires Midway(loop, l0, start, turns, c, p, te, prev, clock, react) && te.id == DELETED && loop.nodes != []
    modifies loop`head, loop`nodes, loop`entries, loop.nodes`next
    ensures p < |start| && Midway(loop, l0, start, turns, c, p + 1, next, prev, clock, react)
    ensures |loop.nodes| < |old(loop.nodes)| && c <= |loop.nodes| && loop.nodes[..c] == old(loop.nodes[..c])
    ensures forall i | 0 <= i < |loop.nodes| :: loop.nodes[i] in old(loop.nodes)
  {
    hide TimeEvents.Chained, TimeEvents.Holds, Sound, Old, Placed, Turned, Resume, Walk, NodeAt, RemoveAt;
    ghost var k, l, nodes := c + |turns|, loop.Contents(), loop.nodes;
    PlacedCursor(nodes, c, turns, start, p);
    loop.Cursor(te, k);
    ResumeDrop(turns, l, k, p, clock, react);
    PlacedDrop(nodes, c, turns, start, p);
    OldRemoved(l.entries, k, l0.nextId - 1);
    RemoveKeeps(nodes, k);
    RemovedFront(nodes, k, c);
    next := te.next;
    loop.Unlink(te, prev, k);
  }

  lemma RemovedFront(s: seq<Timer>, k: nat, c: nat)
    requires c <= k < |s|
    ensures RemoveAt(s, k)[..c] == s[..c] && forall i | 0 <= i < |s| - 1 :: RemoveAt(s, k)[i] in s
  {
  }

  /** The walk at a timer that has its turn. */
  method TakeTurn(loop: TimeEvents, te: Timer, prev: Timer?, turn: Turn, ghost l0: List, ghost start: seq<Timer>,
                  ghost turns: seq<Turn>, ghost c: nat,
                  ghost p: nat, ghost clock: nat -> Time, ghost react: nat -> Reaction)
    returns (next: Timer?, ghost more: seq<Timer>)
    requires Midway(loop, l0, start, turns, c, p, te, prev, clock, react) && te.id != DELETED
    requires turn == Turn(p, te.id, Time(te.whenSec, te.whenMs), clock(p), react(p)) && te in loop.nodes
    modifies loop`head, loop`nextId, loop`nodes, loop`entries, loop.nodes`id, te`whenSec, te`whenMs
    ensures p < |start| && Midway(loop, l0, start, turns + [turn], |more| + c, p + 1, next, te, clock, react)
    ensures loop.nodes == more + old(loop.nodes) && forall i | 0 <= i < |more| :: fresh(more[i])
  {
    hide TimeEvents.Chained, TimeEvents.Holds, Sound, IsDue, Old, Placed, Turned, Resume, Walk, NodeAt, RemoveAt;
    ghost var k, l, nodes := c + |turns|, loop.Contents(), loop.nodes;
    PlacedCursor(nodes, c, turns, start, p);
    loop.Cursor(te, k);
    ResumeTurn(turns, l, k, p, clock, react, turn);
    OldTurned(l, k, turn, l0.nextId - 1);
    more := loop.Visit(te, turn, k);
    PlacedTurn(nodes, c, turns, start, p, turn, more);
    NodeIn(nodes, k, more);
    loop.Cursor(te, |more| + k);
    next := te.next;
  }

  /** The loop of `processTimeEvents`. */
  method WalkList(loop: TimeEvents, clock: nat -> Time, react: nat -> Reaction)
    returns (processed: nat, turns: seq<Turn>)
    requires loop.Valid()
    modifies loop`head, loop`nextId, loop`nodes, loop`entries, loop.nodes
    ensures loop.Valid() && processed == Fired(turns) && loop.nextId >= old(loop.nextId)
    ensures Pass(loop.Contents(), turns) == Walk(old(loop.Contents()), 0, 0, clock, react)
    ensures Placed(loop.nodes, loop.nextId - old(loop.nextId), turns, old(loop.nodes), |old(loop.nodes)|)
    ensures forall j | 0 <= j < loop.nextId - old(loop.nextId) :: fresh(loop.nodes[j])
  {
    hide TimeEvents.Chained, TimeEvents.Holds, Sound, IsDue, Old, Placed, Turned, Resume, Walk, Fired, NodeAt, RemoveAt,
         Midway;
    ghost var start, l0 := loop.nodes, loop.Contents();
    processed, turns := 0, [];
    var prev: Timer?, te := null, loop.head;
    var maxId := loop.nextId - 1;
    var p := 0;
    ghost var c: nat := 0;
    WalkStart(loop, l0, start, clock, react);
    while te != null
      invariant Midway(loop, l0, start, turns, c, p, te, prev, clock, react) && p <= |start|
      invariant processed == Fired(turns)
      invariant c <= |loop.nodes| && forall j | 0 <= j < c :: fresh(loop.nodes[..c][j])
      invariant forall i | 0 <= i < |loop.nodes| :: loop.nodes[i] in start || fresh(loop.nodes[i])
      decreases |start| - p
    {
      MidwayAt(loop, l0, start, turns, c, p, te, prev, clock, react);
      if te.id == DELETED {
        te := TakeOut(loop, te, prev, l0, start, turns, c, p, clock, react);
      } else if te.id > maxId {
        assert false;
      } else {
        var turn := Turn(p, te.id, Time(te.whenSec, te.whenMs), clock(p), react(p));
        if turn.Fires() { processed := processed + 1; }
        FiredMore(turns, turn);
        var next;
        ghost var more;
        next, more := TakeTurn(loop, te, prev, turn, l0, start, turns, c, p, clock, react);
        c := |more| + c;
        turns := turns + [turn];
        prev, te := te, next;
      }
      p := p + 1;
    }
    MidwayEnd(loop, l0, start, turns, c, p, prev, clock, react);
    assert forall j | 0 <= j < c :: loop.nodes[..c][j] == loop.nodes[j];
  }

  lemma MidwayAt(loop: TimeEvents, l0: List, start: seq<Timer>, turns: seq<Turn>, c: nat, p: nat, te: Timer,
                 prev: Timer?, clock: nat -> Time, react: nat -> Reaction)
    requires Midway(loop, l0, start, turns, c, p, te, prev, clock, react)
    ensures te in loop.nodes && loop.nodes != [] && te.id <= l0.nextId - 1
  {
    hide TimeEvents.Chained, TimeEvents.Holds, Sound, Placed, Resume, Walk, NodeAt;
    loop.Cursor(te, c + |turns|);
  }

  lemma MidwayEnd(loop: TimeEvents, l0: List, start: seq<Timer>, turns: seq<Turn>, c: nat, p: nat, prev: Timer?,
                  clock: nat -> Time, react: nat -> Reaction)
    requires Midway(loop, l0, start, turns, c, p, null, prev, clock, react)
    ensures loop.Valid() && loop.nextId == l0.nextId + c && |loop.nodes| == c + |turns|
    ensures Placed(loop.nodes, c, turns, start, |start|)
    ensures Pass(loop.Contents(), turns) == Walk(l0, 0, 0, clock, react)
  {
    hide TimeEvents.Chained, TimeEvents.Holds, Sound, Old, Placed, Resume, Walk, NodeAt;
    loop.Begin();
    PlacedEnd(loop.nodes, c, turns, start, p);
    ResumeEnd(turns, loop.Contents(), p, clock, react);
  }

  lemma WalkStart(loop: TimeEvents, l0: List, start: seq<Timer>, clock: nat -> Time, react: nat -> Reaction)
    requires loop.Valid() && l0 == loop.Contents() && start == loop.nodes
    ensures Midway(loop, l0, start, [], 0, 0, loop.head, null, clock, react) && Fired([]) == 0
  {
    hide TimeEvents.Chained, TimeEvents.Holds, Sound, NodeAt, Walk;
    loop.Begin();
    OldStart(l0);
    var w := Walk(l0, 0, 0, clock, react);
    assert [] + w.turns == w.turns;
  }

  /** What is promised of the nodes: new ones, and then exactly those that had a turn, in order. */
  ghost predicate Survive(nodes: seq<Timer>, c: nat, turns: seq<Turn>, start: seq<Timer>) {
    |nodes| == c + |turns| && forall q | 0 <= q < |turns| :: turns[q].at < |start| && nodes[c + q] == start[turns[q].at]
  }

  /**
   `processTimeEvents`: the check for a clock that was set back, and one walk over the list as it is at the start.
   `processed` is the number of timers that fired.
   */
  method ProcessTimeEvents(loop: TimeEvents, now: int, clock: nat -> Time, react: nat -> Reaction)
    returns (processed: nat, turns: seq<Turn>)
    requires loop.Valid()
    modifies loop, loop.nodes
    ensures loop.Valid() && loop.lastTime == now && processed == Fired(turns)
    ensures Pass(loop.Contents(), turns) == TimePass(old(loop.Contents()), now < old(loop.lastTime), clock, react)
    ensures Fair(old(loop.Contents()), now < old(loop.lastTime), clock, react, Pass(loop.Contents(), turns))
    ensures loop.nextId >= old(loop.nextId)
    ensures Survive(loop.nodes, loop.nextId - old(loop.nextId), turns, old(loop.nodes))
    ensures forall j | 0 <= j < loop.nextId - old(loop.nextId) :: fresh(loop.nodes[j])
    ensures forall q | 0 <= q < |turns| ::
              var t := turns[q];
              && t.at < |old(loop.nodes)| && t.id == old(loop.nodes[t.at].id) != DELETED && t.now == clock(t.at)
              && t.r == react(t.at)
              && t.when == Time(if now < old(loop.lastTime) then 0 else old(loop.nodes[t.at].whenSec),
                                old(loop.nodes[t.at].whenMs))
  {
    hide TimeEvents.Chained, TimeEvents.Holds, Walk, Fired, Fair, Checked;
    ghost var l0, back := loop.Contents(), now < loop.lastTime;
    loop.Begin();
    PassMeans(l0, back, clock, react);
    loop.Every();
    hide Sound, Hold, EntryOf;
    loop.CheckClock(now);
    processed, turns := WalkList(loop, clock, react);
    forall q | 0 <= q < |turns|
      ensures var t := turns[q];
              t.at < |l0.entries|
              && t == Turn(t.at, l0.entries[t.at].id, DueAt(l0.entries[t.at], back), clock(t.at), react(t.at))
              && t.id != DELETED
    {
      FairShows(l0, back, clock, react, Pass(loop.Contents(), turns), q);
    }
  }
}
