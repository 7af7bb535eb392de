/**
 nginx output chains: `ngx_chain_update_sent` after a partial write. A chain is
 an array of its buffers, each owned by one link; a link is an index, the end of
 the chain is the length.
 */
module NgxChain {

  /** The fields of `ngx_buf_t` that the accounting uses; `control` is flush, last_buf or sync. */
  datatype Buf = Buf(inMemory: bool, inFile: bool, control: bool, pos: nat, last: nat, filePos: nat, fileLast: nat) {
    predicate Special() { control && !inMemory && !inFile }
    function Size(): int { if inMemory then last - pos else fileLast - filePos }
    predicate Ordered() { if inMemory then pos <= last else filePos <= fileLast }

    /** Neither special nor in memory nor in a file: sending never moves its positions. */
    predicate Blank() { !control && !inMemory && !inFile }
  }

  predicate Usable(c: seq<Buf>) { forall k | 0 <= k < |c| :: c[k].Ordered() && !c[k].Blank() }

  /** One byte to be sent: which buffer, whether from memory or from the file, and where. */
  datatype Byte = Byte(buf: nat, memory: bool, at: nat)

  /** The bytes of buffer `k`. */
  function Bytes(b: Buf, k: nat): (s: seq<Byte>)
    requires b.Ordered() && !b.Blank()
    ensures |s| == if b.Special() then 0 else b.Size()
  {
    if b.Special() then []
    else if b.inMemory then seq(b.last - b.pos, i requires i >= 0 => Byte(k, true, b.pos + i))
    else seq(b.fileLast - b.filePos, i requires i >= 0 => Byte(k, false, b.filePos + i))
  }

  /** The byte stream of the chain from link `i` on. */
  function Stream(c: seq<Buf>, i: nat): seq<Byte>
    requires Usable(c)
    decreases |c| - i
  {
    if i >= |c| then [] else Bytes(c[i], i) + Stream(c, i + 1)
  }

  // ---------------------------------------------------------------- the specification

  function Drained(b: Buf): Buf {
    b.(pos := if b.inMemory then b.last else b.pos, filePos := if b.inFile then b.fileLast else b.filePos)
  }

  function Advanced(b: Buf, n: nat): Buf {
    b.(pos := if b.inMemory then b.pos + n else b.pos, filePos := if b.inFile then b.filePos + n else b.filePos)
  }

  /** The chain and the returned link after `sent` bytes from link `i` on have been written. */
  function Sent(c: seq<Buf>, i: nat, sent: nat): (r: (seq<Buf>, nat))
    ensures |r.0| == |c|
    decreases |c| - i
  {
    if i >= |c| then (c, i)
    else if c[i].Special() then Sent(c, i + 1, sent)
    else if sent == 0 then (c, i)
    else if sent >= c[i].Size() then Sent(c[i := Drained(c[i])], i + 1, sent - c[i].Size())
    else (c[i := Advanced(c[i], sent)], i)
  }

  /** `ngx_chain_update_sent`. */
  method UpdateSent(c: array<Buf>, first: nat, sent0: nat) returns (link: nat)
    requires first <= c.Length
    modifies c
    ensures (c[..], link) == Sent(old(c[..]), first, sent0)
  {
    link := first;
    var sent := sent0;
    while link < c.Length
      invariant first <= link <= c.Length && sent >= 0
      invariant Sent(old(c[..]), first, sent0) == Sent(c[..], link, sent)
    {
      ghost var before := c[..];
      if !c[link].Special() {
        if sent == 0 { return; }
        var size := c[link].Size();
        if sent >= size {
          sent := sent - size;
          if c[link].inMemory { c[link] := c[link].(pos := c[link].last); }
          if c[link].inFile { c[link] := c[link].(filePos := c[link].fileLast); }
          assert c[..] == before[link := Drained(before[link])];
        } else {
          if c[link].inMemory { c[link] := c[link].(pos := c[link].pos + sent); }
          if c[link].inFile { c[link] := c[link].(filePos := c[link].filePos + sent); }
          assert c[..] == before[link := Advanced(before[link], sent)];
          return;
        }
      }
      link := link + 1;
    }
  }

  // ---------------------------------------------------------------- what it means

  function Min(a: int, b: int): int { if a < b then a else b }

  /** Buffers before the link do not matter for the stream after it. */
  lemma {:induction false} StreamLocal(c: seq<Buf>, d: seq<Buf>, i: nat)
    requires Usable(c) && Usable(d) && |c| == |d| && forall k | i <= k < |c| :: c[k] == d[k]
    ensures Stream(c, i) == Stream(d, i)
    decreases |c| - i
  {
    if i < |c| { StreamLocal(c, d, i + 1); }
  }

  lemma AdvancedBytes(b: Buf, k: nat, n: nat)
    requires b.Ordered() && !b.Blank() && !b.Special() && n < b.Size() && Advanced(b, n).Ordered()
    ensures Bytes(Advanced(b, n), k) == Bytes(b, k)[n..]
  {
  }

  lemma DropFront(b: seq<Byte>, s: seq<Byte>, n: nat)
    ensures n >= |b| ==> (b + s)[Min(n, |b + s|)..] == s[Min(n - |b|, |s|)..]
    ensures n < |b| ==> (b + s)[Min(n, |b + s|)..] == b[n..] + s
  {
  }

  lemma Touched(c: seq<Buf>, i: nat, b: Buf)
    requires Usable(c) && i < |c| && b.Ordered() && !b.Blank()
    ensures Usable(c[i := b]) && Stream(c[i := b], i) == Bytes(b, i) + Stream(c, i + 1)
  {
    StreamLocal(c, c[i := b], i + 1);
  }

  lemma StreamAt(c: seq<Buf>, i: nat)
    requires Usable(c) && i < |c|
    ensures Stream(c, i) == Bytes(c[i], i) + Stream(c, i + 1)
  {
  }

  lemma TouchedBufs(b: Buf, k: nat, n: nat)
    requires b.Ordered() && !b.Blank() && !b.Special()
    ensures Drained(b).Ordered() && !Drained(b).Blank() && Bytes(Drained(b), k) == []
    ensures n < b.Size() ==>
              Advanced(b, n).Ordered() && !Advanced(b, n).Blank() && Bytes(Advanced(b, n), k) == Bytes(b, k)[n..]
  {
    if n < b.Size() { AdvancedBytes(b, k, n); }
  }

  /** Earlier links are left alone and buffers stay well-formed. */
  lemma {:induction false} SentKeeps(c: seq<Buf>, i: nat, sent: nat)
    requires Usable(c)
    ensures var (d, link) := Sent(c, i, sent);
            Usable(d) && i <= link && (forall k | 0 <= k < |c| && k < i :: d[k] == c[k])
    decreases |c| - i
  {
    hide Drained, Advanced, Bytes;
    if i < |c| {
      if c[i].Special() {
        SentKeeps(c, i + 1, sent);
      } else if sent > 0 {
        TouchedBufs(c[i], i, sent);
        if sent >= c[i].Size() { SentKeeps(c[i := Drained(c[i])], i + 1, sent - c[i].Size()); }
      }
    }
  }

  lemma StreamEmpty(c: seq<Buf>, i: nat)
    requires Usable(c) && i < |c| && Bytes(c[i], i) == []
    ensures Stream(c, i) == Stream(c, i + 1)
  {
    assert [] + Stream(c, i + 1) == Stream(c, i + 1);
  }

  /** From link `i` on, chain `d` is chain `c` without its first `n` bytes, or empty if it has no more. */
  ghost predicate Dropped(c: seq<Buf>, d: seq<Buf>, i: nat, n: nat)
    requires Usable(c) && Usable(d)
  {
    Stream(d, i) == Stream(c, i)[Min(n, |Stream(c, i)|)..]
  }

  /** A full buffer at the front: what is left of `sent` is dropped behind it. */
  lemma DropsFull(c: seq<Buf>, i: nat, d: seq<Buf>, sent: nat)
    requires Usable(c) && Usable(d) && i < |c| == |d| && sent >= |Bytes(c[i], i)| && Bytes(d[i], i) == []
    requires Dropped(c, d, i + 1, sent - |Bytes(c[i], i)|)
    ensures Dropped(c, d, i, sent)
  {
    StreamAt(c, i);
    StreamEmpty(d, i);
    hide Stream, Bytes;
    DropFront(Bytes(c[i], i), Stream(c, i + 1), sent);
  }

  lemma DropsBehind(c: seq<Buf>, i: nat, b: Buf, d: seq<Buf>, n: nat)
    requires Usable(c) && i < |c| && Usable(d) && Usable(c[i := b]) && Dropped(c[i := b], d, i + 1, n)
    ensures Dropped(c, d, i + 1, n)
  {
    StreamLocal(c, c[i := b], i + 1);
  }

  lemma DropsPart(c: seq<Buf>, i: nat, sent: nat)
    requires Usable(c) && i < |c| && !c[i].Special() && sent < c[i].Size()
    ensures Usable(c[i := Advanced(c[i], sent)]) && Dropped(c, c[i := Advanced(c[i], sent)], i, sent)
  {
    TouchedBufs(c[i], i, sent);
    hide Advanced;
    Touched(c, i, Advanced(c[i], sent));
    StreamAt(c, i);
    hide Stream, Bytes;
    DropFront(Bytes(c[i], i), Stream(c, i + 1), sent);
  }

  /** Exactly the sent bytes, or all there are, leave the front of the stream. */
  lemma {:induction false} SentDrops(c: seq<Buf>, i: nat, sent: nat)
    requires Usable(c)
    ensures Usable(Sent(c, i, sent).0) && Dropped(c, Sent(c, i, sent).0, i, sent)
    decreases |c| - i
  {
    SentKeeps(c, i, sent);
    if i >= |c| { return; }
    hide Drained, Advanced, Dropped, Bytes;
    var n, d := c[i].Size(), Sent(c, i, sent).0;
    if c[i].Special() {
      SentDrops(c, i + 1, sent);
      SentKeeps(c, i + 1, sent);
      SpecialBytes(c[i], i);
      DropsFull(c, i, d, sent);
    } else if sent == 0 {
      DropNone(c, i);
    } else if sent >= n {
      TouchedBufs(c[i], i, sent);
      var c1 := c[i := Drained(c[i])];
      Touched(c, i, c1[i]);
      SentDrops(c1, i + 1, sent - n);
      SentKeeps(c1, i + 1, sent - n);
      DropsBehind(c, i, c1[i], d, sent - n);
      DropsFull(c, i, d, sent);
    } else {
      DropsPart(c, i, sent);
    }
  }

  lemma SpecialBytes(b: Buf, k: nat)
    requires b.Ordered() && b.Special()
    ensures Bytes(b, k) == []
  {
  }

  lemma DropNone(c: seq<Buf>, i: nat)
    requires Usable(c)
    ensures Dropped(c, c, i, 0)
  {
  }

  /** The returned link is where the rest of the stream starts, and null only when nothing is left. */
  lemma {:induction false} SentLink(c: seq<Buf>, i: nat, sent: nat)
    requires Usable(c) && i <= |c|
    ensures var (d, link) := Sent(c, i, sent);
            i <= link <= |c| && Usable(d) && Stream(d, link) == Stream(d, i) && (link < |c| ==> !d[link].Special())
    decreases |c| - i
  {
    SentKeeps(c, i, sent);
    if i < |c| {
      var d := Sent(c, i, sent).0;
      hide Stream, Drained, Advanced;
      if c[i].Special() {
        SentLink(c, i + 1, sent);
        SentKeeps(c, i + 1, sent);
        StreamEmpty(d, i);
      } else if sent > 0 && sent >= c[i].Size() {
        TouchedBufs(c[i], i, sent);
        var c1 := c[i := Drained(c[i])];
        Touched(c, i, c1[i]);
        SentLink(c1, i + 1, sent - c[i].Size());
        SentKeeps(c1, i + 1, sent - c[i].Size());
        StreamEmpty(d, i);
      }
    }
  }

  /**
   Reporting `a` bytes and then `b` more, from the returned link, is reporting `a + b` bytes: same buffers, same link.
   */
  predicate Adds(c: seq<Buf>, i: nat, a: nat, b: nat) {
    var (d, link) := Sent(c, i, a);
    Sent(d, link, b) == Sent(c, i, a + b)
  }

  /** A blank buffer that can be sent in part: it does not advance, so a later report counts its bytes again. */
  predicate Sticks(b: Buf) { b.Blank() && b.Size() >= 2 }

  lemma {:induction false} SmoothAdds(c: seq<Buf>, i: nat, a: nat, b: nat)
    requires forall k | i <= k < |c| :: !Sticks(c[k])
    ensures Adds(c, i, a, b)
    decreases |c| - i
  {
    if i < |c| {
      if c[i].Special() {
        SmoothAdds(c, i + 1, a, b);
      } else if a == 0 {
      } else if a >= c[i].Size() {
        SmoothAdds(c[i := Drained(c[i])], i + 1, a - c[i].Size(), b);
      } else {
        var d := c[i := Advanced(c[i], a)];
        if a + b >= c[i].Size() {
          assert d[i := Drained(d[i])] == c[i := Drained(c[i])];
        } else {
          assert d[i := Advanced(d[i], b)] == c[i := Advanced(c[i], a + b)];
        }
      }
    }
  }

  lemma {:induction false} LinkGrows(c: seq<Buf>, i: nat, sent: nat)
    ensures i <= Sent(c, i, sent).1
    decreases |c| - i
  {
    if i < |c| {
      if c[i].Special() {
        LinkGrows(c, i + 1, sent);
      } else if sent > 0 && sent >= c[i].Size() {
        LinkGrows(c[i := Drained(c[i])], i + 1, sent - c[i].Size());
      }
    }
  }

  /** Everything in front of the sticking buffer and one byte of it, and then the rest of it: it is never passed. */
  lemma {:induction false} StickingBreaks(c: seq<Buf>, i: nat, k: nat) returns (a: nat, b: nat)
    requires i <= k < |c| && Sticks(c[k]) && forall j | i <= j < |c| :: c[j].Ordered()
    ensures a >= 1 && !Adds(c, i, a, b)
    decreases k - i
  {
    if i == k {
      a, b := 1, c[k].Size() - 1;
      assert c[k := Advanced(c[k], 1)] == c && c[k := Advanced(c[k], b)] == c;
      LinkGrows(c[k := Drained(c[k])], k + 1, 0);
    } else if c[i].Special() {
      a, b := StickingBreaks(c, i + 1, k);
    } else {
      a, b := StickingBreaks(c[i := Drained(c[i])], i + 1, k);
      a := a + c[i].Size();
    }
  }

  /** Reports from link `i` on add up, for all numbers of bytes, if and only if no buffer from there on sticks. */
  lemma SentAddsIff(c: seq<Buf>, i: nat)
    requires forall k | i <= k < |c| :: c[k].Ordered()
    ensures (forall a: nat, b: nat :: Adds(c, i, a, b)) <==> (forall k | i <= k < |c| :: !Sticks(c[k]))
  {
    if forall k | i <= k < |c| :: !Sticks(c[k]) {
      forall a: nat, b: nat ensures Adds(c, i, a, b) { SmoothAdds(c, i, a, b); }
    } else {
      var k :| i <= k < |c| && Sticks(c[k]);
      var a, b := StickingBreaks(c, i, k);
    }
  }

  /** In particular they add up when every buffer is special, in memory or in a file. */
  lemma SentAdds(c: seq<Buf>, i: nat, a: nat, b: nat)
    requires forall k | i <= k < |c| :: !c[k].Blank()
    ensures Adds(c, i, a, b)
  {
    SmoothAdds(c, i, a, b);
  }

  /** ... and not with a blank buffer of two bytes. */
  lemma BlankBreaks()
    ensures exists a: nat, b: nat :: !Adds([Buf(false, false, false, 0, 0, 0, 2)], 0, a, b)
  {
    var c := [Buf(false, false, false, 0, 0, 0, 2)];
    assert Sticks(c[0]);
    SentAddsIff(c, 0);
  }
}
