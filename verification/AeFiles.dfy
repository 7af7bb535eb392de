/**
 wrk's event loop, file events: the mask table of ae.c and the epoll interest set
 behind it. A failed `epoll_ctl` is a parameter of the call.
 */
module AeFiles {

  /** AE_READABLE and AE_WRITABLE. */
  datatype Mask = Mask(readable: bool, writable: bool) {
    predicate IsNone() { !readable && !writable }
    function Or(m: Mask): Mask { Mask(readable || m.readable, writable || m.writable) }
    function Without(m: Mask): Mask { Mask(readable && !m.readable, writable && !m.writable) }
  }

  const NONE := Mask(false, false)

  datatype Op = Add | Mod | Del

  /** What the kernel accepts: ADD of an unknown descriptor, MOD and DEL of a known one. */
  predicate Legal(kernel: map<nat, Mask>, op: Op, fd: nat) { if op.Add? then fd !in kernel else fd in kernel }

  /** The table alone decides what the kernel must hold. */
  function Interest(events: seq<Mask>): map<nat, Mask> {
    map fd: nat | fd < |events| && !events[fd].IsNone() :: events[fd]
  }

  /** `maxfd` is the largest descriptor with a non-empty mask, or -1. */
  predicate IsMaxFd(events: seq<Mask>, maxfd: int) {
    && -1 <= maxfd < |events| && (maxfd >= 0 ==> !events[maxfd].IsNone())
    && forall fd | maxfd < fd < |events| :: events[fd].IsNone()
  }

  class FileEvents {
    var events: seq<Mask>
    var maxfd: int
    var kernel: map<nat, Mask>

    ghost predicate Valid()
      reads this
    {
      IsMaxFd(events, maxfd) && kernel == Interest(events)
    }

    constructor (setsize: nat)
      ensures Valid() && |events| == setsize && maxfd == -1 && kernel == map[]
    {
      events := seq(setsize, _ => NONE);
      maxfd := -1;
      kernel := map[];
    }

    /** `epoll_ctl`; every call below must be one the kernel accepts. */
    method EpollCtl(op: Op, fd: nat, mask: Mask)
      requires Legal(kernel, op, fd)
      modifies this`kernel
      ensures kernel == if op.Del? then old(kernel) - {fd} else old(kernel)[fd := mask]
    {
      kernel := if op.Del? then kernel - {fd} else kernel[fd := mask];
    }

    /** `aeApiAddEvent`. */
    method ApiAddEvent(fd: nat, mask: Mask, fails: bool) returns (ok: bool)
      requires Valid() && fd < |events|
      modifies this`kernel
      ensures ok == !fails && kernel == if ok then old(kernel)[fd := mask.Or(events[fd])] else old(kernel)
    {
      var op := if events[fd].IsNone() then Add else Mod;
      if fails { return false; }
      EpollCtl(op, fd, mask.Or(events[fd]));
      return true;
    }

    /** `aeApiDelEvent`, called before the table is changed. */
    method ApiDelEvent(fd: nat, delmask: Mask)
      requires Valid() && fd < |events| && !events[fd].IsNone()
      modifies this`kernel
      ensures kernel == if events[fd].Without(delmask).IsNone() then old(kernel) - {fd}
                        else old(kernel)[fd := events[fd].Without(delmask)]
    {
      var mask := events[fd].Without(delmask);
      EpollCtl(if mask.IsNone() then Del else Mod, fd, mask);
    }

    /**
     `aeCreateFileEvent`: adds interest, or changes nothing on an error. The table and the kernel stay in step exactly
     when the call asks for something or the descriptor was already watched.
     */
    method CreateFileEvent(fd: nat, mask: Mask, fails: bool) returns (ok: bool)
      requires Valid()
      modifies this
      ensures ok == (fd < |old(events)| && !fails)
      ensures events == if ok then old(events)[fd := old(events)[fd].Or(mask)] else old(events)
      ensures Valid() <==> !ok || !mask.IsNone() || !old(events)[fd].IsNone()
    {
      if fd >= |events| { return false; }
      ok := ApiAddEvent(fd, mask, fails);
      if !ok { return; }
      events := events[fd := events[fd].Or(mask)];
      if fd > maxfd { maxfd := fd; }
      if events[fd].IsNone() {
        assert fd in kernel && fd !in Interest(events);
      } else {
        assert kernel == Interest(events);
      }
    }

    /** `aeDeleteFileEvent`. */
    method DeleteFileEvent(fd: nat, mask: Mask)
      requires Valid()
      modifies this
      ensures Valid()
      ensures events == if fd < |old(events)| then old(events)[fd := old(events)[fd].Without(mask)] else old(events)
    {
      if fd >= |events| { return; }
      if events[fd].IsNone() {
        assert events[fd := events[fd].Without(mask)] == events;
        return;
      }
      ApiDelEvent(fd, mask);
      events := events[fd := events[fd].Without(mask)];
      assert kernel == Interest(events);
      if fd == maxfd && events[fd].IsNone() {
        var j := maxfd - 1;
        while j >= 0 && events[j].IsNone()
          invariant -1 <= j < maxfd && forall k | j < k < |events| :: events[k].IsNone()
        {
          j := j - 1;
        }
        maxfd := j;
      }
    }

    /** `aeResizeSetSize`; slots that `realloc` adds hold anything until they are cleared. */
    method ResizeSetSize(setsize: nat, junk: seq<Mask>) returns (ok: bool)
      requires Valid() && |junk| == setsize
      modifies this
      ensures Valid() && ok == (setsize == |old(events)| || old(maxfd) < setsize)
      ensures |events| == (if ok then setsize else |old(events)|) && maxfd == old(maxfd) && kernel == old(kernel)
      ensures forall fd | 0 <= fd < |events| && fd < |old(events)| :: events[fd] == old(events)[fd]
    {
      if setsize == |events| { return true; }
      if maxfd >= setsize { return false; }
      ghost var before := events;
      events := if setsize <= |events| then events[..setsize] else events + junk[|events|..];
      var i := maxfd + 1;
      while i < setsize
        invariant maxfd < i <= setsize == |events| && maxfd == old(maxfd) && kernel == old(kernel)
        invariant forall k | maxfd < k < i :: events[k].IsNone()
        invariant forall k | 0 <= k < setsize && k < |before| && (k <= maxfd || k >= i) :: events[k] == before[k]
      {
        events := events[i := NONE];
        i := i + 1;
      }
      assert forall k: nat :: k in Interest(events) <==> k in Interest(before);
      assert kernel == Interest(events);
      return true;
    }
  }

  // ---------------------------------------------------------------- whole runs

  datatype Call =
    | Create(fd: nat, mask: Mask, fails: bool) | Delete(fd: nat, mask: Mask) | Resize(setsize: nat, junk: seq<Mask>)

  /** Calls that ask for something, with as much junk as the resize exposes. */
  predicate Sensible(c: Call) { (c.Create? ==> !c.mask.IsNone()) && (c.Resize? ==> |c.junk| == c.setsize) }

  /** Over every run of calls the table, `maxfd` and the kernel agree, and no call is refused by the kernel. */
  method Run(setsize: nat, calls: seq<Call>) returns (loop: FileEvents)
    requires forall k | 0 <= k < |calls| :: Sensible(calls[k])
    ensures fresh(loop) && loop.Valid()
  {
    loop := new FileEvents(setsize);
    for k := 0 to |calls|
      invariant fresh(loop) && loop.Valid()
    {
      match calls[k]
      case Create(fd, mask, fails) => var _ := loop.CreateFileEvent(fd, mask, fails);
      case Delete(fd, mask) => loop.DeleteFileEvent(fd, mask);
      case Resize(n, junk) => var _ := loop.ResizeSetSize(n, junk);
    }
  }
}
