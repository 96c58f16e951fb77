/** The buffer cache of bio.c over the synchronous disk of memide.c.

`link` and `buf` are the two halves of bcache.buf[]: the prev/next pointers of the
LRU list, with the list head at index HEAD, and everything else in a struct buf. */
module BufferCache {
  import opened LogDisk

  const NBUF := 30           // MAXOPBLOCKS * 3
  const HEAD := NBUF
  const DISK_DEV := 1        // the only device iderw() accepts

  datatype Link = Link(prev: nat, next: nat)

  /** `valid` and `dirty` are the flag bits B_VALID and B_DIRTY; `locked` is the
      sleep-lock. */
  datatype Buf = Buf(dev: nat, blockno: nat, valid: bool, dirty: bool, refcnt: nat, locked: bool, data: Block)

  // ------------------------------------------------------------ the LRU ring

  /** Position `i` of the ring: the head at both ends, `order` between. */
  ghost function At(order: seq<nat>, i: int): nat {
    if 1 <= i <= |order| then order[i - 1] else HEAD
  }

  ghost predicate Distinct(s: seq<nat>) {
    forall i, j :: 0 <= i < j < |s| ==> s[i] != s[j]
  }

  /** The links form one doubly linked ring through HEAD and then `order`. */
  ghost predicate Ring(link: seq<Link>, order: seq<nat>) {
    && |link| == NBUF + 1
    && Distinct(order)
    && (forall i :: 0 <= i < |order| ==> order[i] < NBUF)
    && (forall i :: 0 <= i <= |order| ==> link[At(order, i)].next == At(order, i + 1))
    && (forall i :: 1 <= i <= |order| + 1 ==> link[At(order, i)].prev == At(order, i - 1))
  }

  ghost function Without(s: seq<nat>, i: nat): seq<nat>
    requires i < |s|
  {
    s[..i] + s[i + 1..]
  }

  function SetNext(link: seq<Link>, b: nat, n: nat): seq<Link>
    requires b < |link|
  {
    link[b := link[b].(next := n)]
  }

  function SetPrev(link: seq<Link>, b: nat, p: nat): seq<Link>
    requires b < |link|
  {
    link[b := link[b].(prev := p)]
  }

  /** The neighbours of `b` are linked to each other. */
  function Unlinked(link: seq<Link>, b: nat): (r: seq<Link>)
    requires b < |link| && link[b].prev < |link| && link[b].next < |link|
  {
    SetNext(SetPrev(link, link[b].next, link[b].prev), link[b].prev, link[b].next)
  }

  /** Insert after the head, the place of the most recently used buffer. */
  function Pushed(link: seq<Link>, b: nat): (r: seq<Link>)
    requires b < |link| && HEAD < |link| && link[HEAD].next < |link|
  {
    SetNext(SetPrev(link[b := Link(HEAD, link[HEAD].next)], link[HEAD].next, b), HEAD, b)
  }

  /** Ring positions are different buffers, so a link written at one stays there. */
  lemma AtInjective(link: seq<Link>, order: seq<nat>, i: nat, j: nat)
    requires Ring(link, order) && i <= |order| && j <= |order|
    ensures At(order, i) <= NBUF
    ensures At(order, i) == At(order, j) <==> i == j
  {
  }

  lemma AtWithout(order: seq<nat>, k: nat, i: nat)
    requires k < |order| && i <= |order|
    ensures At(Without(order, k), i) == At(order, if i <= k then i else i + 1)
  {
  }

  lemma UnlinkNext(link: seq<Link>, order: seq<nat>, k: nat, i: nat)
    requires Ring(link, order) && k < |order| && i < |order|
    ensures link[order[k]] == Link(At(order, k), At(order, k + 2))
    ensures At(order, k) <= NBUF && At(order, k + 2) <= NBUF
    ensures At(Without(order, k), i) <= NBUF
    ensures Unlinked(link, order[k])[At(Without(order, k), i)].next == At(Without(order, k), i + 1)
  {
    assert At(order, k + 1) == order[k];
    var j := if i <= k then i else i + 1;
    AtWithout(order, k, i);
    AtWithout(order, k, i + 1);
    AtInjective(link, order, j, k);
    assert link[At(order, j)].next == At(order, j + 1);
  }

  lemma UnlinkPrev(link: seq<Link>, order: seq<nat>, k: nat, i: nat)
    requires Ring(link, order) && k < |order| && 1 <= i <= |order|
    ensures link[order[k]] == Link(At(order, k), At(order, k + 2))
    ensures At(order, k) <= NBUF && At(order, k + 2) <= NBUF
    ensures At(Without(order, k), i) <= NBUF
    ensures Unlinked(link, order[k])[At(Without(order, k), i)].prev == At(Without(order, k), i - 1)
  {
    assert At(order, k + 1) == order[k];
    var j := if i <= k then i else i + 1;
    AtWithout(order, k, i);
    AtWithout(order, k, i - 1);
    AtInjective(link, order, j % (|order| + 1), (k + 2) % (|order| + 1));
    assert link[At(order, j)].prev == At(order, j - 1);
  }

  lemma RingUnlink(link: seq<Link>, order: seq<nat>, k: nat)
    requires Ring(link, order) && k < |order|
    ensures link[order[k]].prev <= NBUF && link[order[k]].next <= NBUF
    ensures Ring(Unlinked(link, order[k]), Without(order, k))
    ensures order[k] !in Without(order, k)
  {
    var o := Without(order, k);
    UnlinkNext(link, order, k, 0);
    var r := Unlinked(link, order[k]);
    forall i | 0 <= i <= |o| ensures At(o, i) <= NBUF && r[At(o, i)].next == At(o, i + 1) {
      UnlinkNext(link, order, k, i);
    }
    forall i | 1 <= i <= |o| + 1 ensures At(o, i) <= NBUF && r[At(o, i)].prev == At(o, i - 1) {
      UnlinkPrev(link, order, k, i);
    }
  }

  lemma RingPush(link: seq<Link>, order: seq<nat>, b: nat)
    requires Ring(link, order) && b < NBUF && b !in order
    ensures link[HEAD].next <= NBUF && link[HEAD].next != b
    ensures Ring(Pushed(link, b), [b] + order)
  {
    assert At(order, 0) == HEAD;
    assert link[At(order, 0)].next == At(order, 1);
    var r, o := Pushed(link, b), [b] + order;
    forall i | 0 <= i <= |o| ensures At(o, i) <= NBUF && r[At(o, i)].next == At(o, i + 1) {
      if i >= 2 {
        assert At(o, i) == At(order, i - 1) && At(o, i + 1) == At(order, i);
        AtInjective(link, order, i - 1, 0);
        assert link[At(order, i - 1)].next == At(order, i);
      }
    }
    forall i | 1 <= i <= |o| + 1 ensures At(o, i) <= NBUF && r[At(o, i)].prev == At(o, i - 1) {
      if i >= 3 {
        assert At(o, i) == At(order, i - 1) && At(o, i - 1) == At(order, i - 2);
        AtInjective(link, order, (i - 1) % (|order| + 1), 1 % (|order| + 1));
        assert link[At(order, i - 1)].prev == At(order, i - 2);
      }
    }
  }

  // ------------------------------------------------------------ the cache

  predicate IsKey(b: Buf, dev: int, blockno: int) {
    b.dev == dev && b.blockno == blockno
  }

  /** A buffer bget() may recycle. */
  predicate Idle(b: Buf) {
    b.refcnt == 0 && !b.dirty
  }

  /** At most one buffer per key; the key (0,0) all buffers start with is exempt. */
  ghost predicate UniqueKeys(buf: seq<Buf>) {
    forall i, j :: 0 <= i < j < |buf| && buf[i].dev == buf[j].dev && buf[i].blockno == buf[j].blockno ==>
      buf[i].dev == 0 && buf[i].blockno == 0
  }

  ghost predicate Cached(buf: seq<Buf>, dev: int, blockno: int) {
    exists i :: 0 <= i < |buf| && IsKey(buf[i], dev, blockno)
  }

  /** bget() finds a buffer instead of panicking with "no buffers". */
  ghost predicate Gettable(buf: seq<Buf>, dev: int, blockno: int) {
    Cached(buf, dev, blockno) || exists i :: 0 <= i < |buf| && Idle(buf[i])
  }

  /** bget() does not have to wait for another holder. */
  ghost predicate Unheld(buf: seq<Buf>, dev: int, blockno: int) {
    forall i :: 0 <= i < |buf| && IsKey(buf[i], dev, blockno) ==> !buf[i].locked
  }

  /** What bget() does to buffer `b` under bcache.lock: one more user of a cached block, or
      the buffer is recycled. */
  ghost function Claimed(buf: seq<Buf>, dev: nat, blockno: nat, b: nat): seq<Buf>
    requires b < |buf|
  {
    buf[b := if Cached(buf, dev, blockno) then buf[b].(refcnt := buf[b].refcnt + 1)
             else Buf(dev, blockno, false, false, 1, buf[b].locked, buf[b].data)]
  }

  /** The buffer bget() recycles: idle, with no idle one behind it in the ring. */
  ghost predicate LeastRecentIdle(buf: seq<Buf>, order: seq<nat>, b: nat) {
    && b < |buf| && Idle(buf[b])
    && exists q :: 0 <= q < |order| && order[q] == b &&
         forall r :: q < r < |order| && order[r] < |buf| ==> !Idle(buf[order[r]])
  }

  /** One ring of all NBUF buffers. */
  ghost predicate FullRing(link: seq<Link>, order: seq<nat>) {
    Ring(link, order) && |order| == NBUF && forall b :: 0 <= b < NBUF ==> b in order
  }

  ghost predicate Table(buf: seq<Buf>) {
    && UniqueKeys(buf)
    && forall i :: 0 <= i < |buf| ==> (buf[i].locked ==> buf[i].refcnt > 0) && (buf[i].dirty ==> buf[i].valid)
  }

  /** brelse() takes a buffer out of the ring and puts it back at the front. */
  lemma MoveToFront(link: seq<Link>, order: seq<nat>, q: nat)
    requires FullRing(link, order) && q < NBUF
    ensures |link| == NBUF + 1 && order[q] < NBUF
    ensures var l := link[order[q]];
            && l.next != order[q] && l.prev != order[q] && l.prev <= NBUF && l.next <= NBUF
    ensures var u := Unlinked(link, order[q]);
            && u[HEAD].next <= NBUF && u[HEAD].next != order[q]
            && FullRing(Pushed(u, order[q]), [order[q]] + Without(order, q))
  {
    var b := order[q];
    RingUnlink(link, order, q);
    RingPush(Unlinked(link, b), Without(order, q), b);
    NeighboursDiffer(link, order, q);
    forall i | 0 <= i < NBUF ensures i in [b] + Without(order, q) {
      assert i in order;
    }
  }

  /** A buffer is never its own neighbour, nor is it reachable once unlinked. */
  lemma NeighboursDiffer(link: seq<Link>, order: seq<nat>, q: nat)
    requires Ring(link, order) && q < |order|
    ensures link[order[q]].next != order[q] && link[order[q]].prev != order[q]
    ensures link[order[q]].prev <= NBUF && link[order[q]].next <= NBUF
    ensures Unlinked(link, order[q])[HEAD].next != order[q]
  {
    UnlinkNext(link, order, q, 0);
    AtInjective(link, order, q + 1, q);
    AtInjective(link, order, q + 1, (q + 2) % (|order| + 1));
    RingUnlink(link, order, q);
    assert At(Without(order, q), 0) == HEAD;
  }

  class Bcache {
    var disk: Disk
    var link: seq<Link>
    var buf: seq<Buf>
    ghost var order: seq<nat>     // the ring, most recently used first
    ghost var writes: seq<Disk>   // the disk after each block write so far

    ghost predicate Valid()
      reads this
    {
      && FullRing(link, order)
      && |buf| == NBUF
      && Table(buf)
    }

    /** binit(): link all buffers; the zeroed buffers hold key (0,0) and no data. */
    constructor (d: Disk, zero: Block)
      ensures Valid() && disk == d && writes == []
      ensures forall i :: 0 <= i < NBUF ==> buf[i] == Buf(0, 0, false, false, 0, false, zero)
    {
      disk := d;
      buf := seq(NBUF, _ => Buf(0, 0, false, false, 0, false, zero));
      link := seq(NBUF + 1, _ => Link(HEAD, HEAD));
      order := [];
      writes := [];
      new;
      var b := 0;
      while b < NBUF
        invariant 0 <= b <= NBUF
        invariant Ring(link, order) && |order| == b
        invariant forall i :: 0 <= i < b ==> i in order
        invariant forall i :: 0 <= i < |order| ==> order[i] < b
        invariant |buf| == NBUF
        invariant forall i :: 0 <= i < NBUF ==> buf[i] == Buf(0, 0, false, false, 0, false, zero)
        invariant disk == d && writes == []
      {
        RingPush(link, order, b);
        PushFront(b);
        b := b + 1;
      }
    }

    /** Links `b` in behind the head, one link after the other. */
    method PushFront(b: nat)
      requires b < NBUF && |link| == NBUF + 1 && link[HEAD].next <= NBUF && link[HEAD].next != b
      modifies `link, `order
      ensures link == Pushed(old(link), b) && order == [b] + old(order)
    {
      link := SetNext(link, b, link[HEAD].next);
      link := SetPrev(link, b, HEAD);
      link := SetPrev(link, link[HEAD].next, b);
      link := SetNext(link, HEAD, b);
      order := [b] + order;
    }

    /** The forward scan of bget(): a buffer that holds the block, or HEAD. */
    method FindCached(dev: nat, blockno: nat) returns (b: nat)
      requires Valid()
      ensures b == HEAD ==> !Cached(buf, dev, blockno)
      ensures b != HEAD ==> b < NBUF && IsKey(buf[b], dev, blockno)
    {
      assert At(order, 0) == HEAD && At(order, NBUF + 1) == HEAD;
      b := link[HEAD].next;
      ghost var q := 1;
      while b != HEAD
        invariant 1 <= q <= NBUF + 1 && b == At(order, q)
        invariant forall r :: 0 <= r < q - 1 ==> !IsKey(buf[order[r]], dev, blockno)
        decreases NBUF + 1 - q
      {
        if IsKey(buf[b], dev, blockno) {
          return;
        }
        b := link[b].next;
        q := q + 1;
      }
      forall i | 0 <= i < NBUF ensures !IsKey(buf[i], dev, blockno) {
        assert i in order;
      }
    }

    /** The backward scan of bget(): the least recently used idle buffer, or HEAD. */
    method FindIdle() returns (b: nat)
      requires Valid()
      ensures b == HEAD ==> forall i :: 0 <= i < NBUF ==> !Idle(buf[i])
      ensures b != HEAD ==> b < NBUF && LeastRecentIdle(buf, order, b)
    {
      assert At(order, 0) == HEAD && At(order, NBUF + 1) == HEAD;
      b := link[HEAD].prev;
      ghost var q := NBUF;
      while b != HEAD
        invariant 0 <= q <= NBUF && b == At(order, q)
        invariant forall r :: q <= r < NBUF ==> !Idle(buf[order[r]])
        decreases q
      {
        if Idle(buf[b]) {
          assert order[q - 1] == b;
          return;
        }
        b := link[b].prev;
        q := q - 1;
      }
      forall i | 0 <= i < NBUF ensures !Idle(buf[i]) {
        assert i in order;
      }
    }

    /** bget() up to the wait for the buffer's sleep-lock. */
    method Claim(dev: nat, blockno: nat) returns (b: nat, panicked: bool)
      requires Valid()
      modifies `buf
      ensures Valid() && (panicked <==> !Gettable(old(buf), dev, blockno))
      ensures panicked ==> buf == old(buf)
      ensures !panicked ==> b < NBUF && buf == Claimed(old(buf), dev, blockno, b) && IsKey(buf[b], dev, blockno)
      ensures !panicked && Cached(old(buf), dev, blockno) ==> IsKey(old(buf[b]), dev, blockno)
      ensures !panicked && !Cached(old(buf), dev, blockno) ==>
                LeastRecentIdle(old(buf), order, b) && !old(buf[b]).locked
    {
      b := FindCached(dev, blockno);
      hide FullRing;
      if b != HEAD {
        buf := buf[b := buf[b].(refcnt := buf[b].refcnt + 1)];
        return b, false;
      }
      b := FindIdle();
      if b == HEAD { return b, true; }
      buf := buf[b := Buf(dev, blockno, false, false, 1, buf[b].locked, buf[b].data)];
      panicked := false;
    }

    /** acquiresleep() of a claimed buffer, once nobody holds it. */
    method Take(b: nat)
      requires Valid() && b < NBUF && buf[b].refcnt > 0 && !buf[b].locked
      modifies `buf
      ensures Valid() && buf == old(buf)[b := old(buf[b]).(locked := true)]
    {
      buf := buf[b := buf[b].(locked := true)];
    }

    /** bget() when there is a buffer and no wait. */
    method Bget(dev: nat, blockno: nat) returns (b: nat)
      requires Valid() && Gettable(buf, dev, blockno) && Unheld(buf, dev, blockno)
      modifies `buf
      ensures Valid() && b < NBUF
      ensures Cached(old(buf), dev, blockno) ==>
                && IsKey(old(buf[b]), dev, blockno)
                && buf == old(buf)[b := old(buf[b]).(refcnt := old(buf[b]).refcnt + 1, locked := true)]
      ensures !Cached(old(buf), dev, blockno) ==>
                && LeastRecentIdle(old(buf), order, b)
                && buf == old(buf)[b := Buf(dev, blockno, false, false, 1, true, old(buf[b]).data)]
    {
      hide FullRing, LeastRecentIdle, Table, Cached, Gettable;
      var panicked;
      b, panicked := Claim(dev, blockno);
      Take(b);
    }

    /** Sync a locked buffer with the disk. */
    method Iderw(b: nat)
      requires Valid() && b < NBUF && buf[b].locked && (buf[b].valid ==> buf[b].dirty)
      requires buf[b].dev == DISK_DEV && buf[b].blockno < |disk|
      modifies `buf, `disk, `writes
      ensures Valid()
      ensures old(buf[b]).dirty ==>
                && disk == old(disk)[old(buf[b]).blockno := old(buf[b]).data]
                && writes == old(writes) + [disk]
                && buf == old(buf)[b := old(buf[b]).(dirty := false, valid := true)]
      ensures !old(buf[b]).dirty ==>
                && disk == old(disk) && writes == old(writes)
                && buf == old(buf)[b := old(buf[b]).(data := disk[old(buf[b]).blockno], valid := true)]
    {
      var no := buf[b].blockno;
      if buf[b].dirty {
        buf := buf[b := buf[b].(dirty := false)];
        disk := disk[no := buf[b].data];
        writes := writes + [disk];
      } else {
        buf := buf[b := buf[b].(data := disk[no])];
      }
      buf := buf[b := buf[b].(valid := true)];
    }

    method Bread(blockno: nat) returns (b: nat)
      requires Valid() && Gettable(buf, DISK_DEV, blockno) && Unheld(buf, DISK_DEV, blockno)
      requires blockno < |disk|
      modifies `buf, `disk, `writes
      ensures Valid() && disk == old(disk) && writes == old(writes) && b < NBUF
      ensures forall i :: 0 <= i < NBUF && i != b ==> buf[i] == old(buf[i])
      ensures IsKey(buf[b], DISK_DEV, blockno) && buf[b].valid && buf[b].locked
      ensures var hit := Cached(old(buf), DISK_DEV, blockno);
              && (hit ==> IsKey(old(buf[b]), DISK_DEV, blockno))
              && (!hit ==> LeastRecentIdle(old(buf), order, b))
              && buf[b].refcnt == (if hit then old(buf[b]).refcnt + 1 else 1)
              && buf[b].dirty == (hit && old(buf[b]).dirty)
              && buf[b].data == if hit && old(buf[b]).valid then old(buf[b]).data else disk[blockno]
    {
      hide FullRing;
      b := Bget(DISK_DEV, blockno);
      if !buf[b].valid {
        Iderw(b);
      }
    }

    method Bwrite(b: nat)
      requires Valid() && b < NBUF && buf[b].locked && buf[b].valid
      requires buf[b].dev == DISK_DEV && buf[b].blockno < |disk|
      modifies `buf, `disk, `writes
      ensures Valid()
      ensures disk == old(disk)[old(buf[b]).blockno := old(buf[b]).data]
      ensures writes == old(writes) + [disk]
      ensures buf == old(buf)[b := old(buf[b]).(dirty := false)]
    {
      buf := buf[b := buf[b].(dirty := true)];
      Iderw(b);
    }

    /** The holder changes the data of its buffer. */
    method SetData(b: nat, data: Block)
      requires Valid() && b < NBUF && buf[b].locked
      modifies `buf
      ensures Valid() && buf == old(buf)[b := old(buf[b]).(data := data)]
    {
      buf := buf[b := buf[b].(data := data)];
    }

    /** The dirty flag is set, as log_write() does to pin a buffer. */
    method MarkDirty(b: nat)
      requires Valid() && b < NBUF && buf[b].valid
      modifies `buf
      ensures Valid() && buf == old(buf)[b := old(buf[b]).(dirty := true)]
    {
      buf := buf[b := buf[b].(dirty := true)];
    }

    method Brelse(b: nat)
      requires Valid() && b < NBUF && buf[b].locked
      modifies `buf, `link, `order
      ensures Valid()
      ensures buf == old(buf)[b := old(buf[b]).(locked := false, refcnt := old(buf[b]).refcnt - 1)]
      ensures old(buf[b]).refcnt == 1 ==>
                exists q :: 0 <= q < NBUF && old(order)[q] == b && order == [b] + Without(old(order), q)
      ensures old(buf[b]).refcnt != 1 ==> order == old(order)
    {
      hide Ring;
      buf := buf[b := buf[b].(locked := false)];
      buf := buf[b := buf[b].(refcnt := buf[b].refcnt - 1)];
      if buf[b].refcnt == 0 {
        assert b in order;
        ghost var q :| 0 <= q < NBUF && order[q] == b;
        MoveToFront(link, order, q);
        link := SetPrev(link, link[b].next, link[b].prev);
        link := SetNext(link, link[b].prev, link[b].next);
        order := Without(order, q);
        PushFront(b);
      }
    }
  }
}
