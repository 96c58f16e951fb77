/** log.c: the in-memory log over the buffer cache.

`view` is the plain block map the file system believes in: what was last logged for
each block. The cache and the disk together represent it, and commit() moves it to
the disk through exactly the block writes of `LogDisk.CommitCrash`. */
module Log {

  import opened Basics
  import opened LogDisk
  import opened BufferCache

  ghost predicate HeaderOk(g: Geometry, disk: Disk, lh: seq<int>) {
    && Fits(g, disk) && GoodEntries(g, disk, lh)
    && forall s, t :: 0 <= s < t < |lh| ==> lh[s] != lh[t]
  }

  ghost predicate BufOk(b: Buf, lh: seq<int>, view: Disk) {
    && (b.valid ==> b.dev == DISK_DEV && b.blockno < |view|)
    && (b.valid && !b.locked ==> b.data == view[b.blockno])
    && (b.dirty ==> b.valid && b.blockno in lh)
  }

  /** How cache, disk and log header represent `view`: a buffer nobody holds has the
      block's contents, a block that is not logged is on the disk, and a logged block
      is pinned in the cache by its dirty flag. */
  ghost predicate Coherent(g: Geometry, disk: Disk, buf: seq<Buf>, lh: seq<int>, view: Disk) {
    && HeaderOk(g, disk, lh)
    && |view| == |disk|
    && (forall i :: 0 <= i < |buf| ==> BufOk(buf[i], lh, view))
    && (forall t :: 0 <= t < |lh| ==> Pinned(buf, lh[t]))
    && (forall k :: 0 <= k < |disk| && k !in lh ==> view[k] == disk[k])
  }

  ghost predicate Pinned(buf: seq<Buf>, k: int) {
    exists i :: 0 <= i < |buf| && buf[i].dirty && IsKey(buf[i], DISK_DEV, k)
  }

  ghost predicate Quiet(buf: seq<Buf>) {
    forall i :: 0 <= i < |buf| ==> buf[i].refcnt == 0 && !buf[i].locked
  }

  /** What the cache holds is on the disk. */
  ghost predicate OnDisk(buf: seq<Buf>, disk: Disk) {
    forall i :: 0 <= i < |buf| ==>
      !buf[i].dirty && (buf[i].valid ==>
            buf[i].dev == DISK_DEV && buf[i].blockno < |disk| && buf[i].data == disk[buf[i].blockno])
  }

  /** The contents commit() is going to log, in log order. */
  ghost function Contents(view: Disk, lh: seq<int>): (cs: seq<Block>)
    requires forall t :: 0 <= t < |lh| ==> 0 <= lh[t] < |view|
    ensures |cs| == |lh| && forall t :: 0 <= t < |lh| ==> cs[t] == view[lh[t]]
  {
    seq(|lh|, t requires 0 <= t < |lh| => view[lh[t]])
  }

  // ------------------------------------------------ a free buffer for the log

  ghost function DirtyBelow(buf: seq<Buf>, n: nat): set<int>
    requires n <= |buf|
  {
    set i | 0 <= i < n && buf[i].dirty
  }

  ghost function DirtyKeys(buf: seq<Buf>, n: nat): set<int>
    requires n <= |buf|
  {
    set i | 0 <= i < n && buf[i].dirty :: buf[i].blockno as int
  }

  /** The buffers in use that hold no logged block: those of readers. */
  ghost function HeldSet(buf: seq<Buf>): set<int> {
    set i | 0 <= i < |buf| && buf[i].refcnt > 0 && !buf[i].dirty
  }

  ghost function Held(buf: seq<Buf>): nat {
    |HeldSet(buf)|
  }

  /** The next buffer's block is a new one. */
  lemma NewKey(buf: seq<Buf>, i: nat)
    requires i < |buf| && UniqueKeys(buf) && forall j :: 0 <= j <= i && buf[j].dirty ==> buf[j].dev == DISK_DEV
    ensures buf[i].dirty ==> buf[i].blockno !in DirtyKeys(buf, i)
  {
  }

  lemma OneMoreDirty(buf: seq<Buf>, i: nat)
    requires i < |buf|
    ensures DirtyBelow(buf, i + 1) == DirtyBelow(buf, i) + (if buf[i].dirty then {i as int} else {})
    ensures i !in DirtyBelow(buf, i)
    ensures DirtyKeys(buf, i + 1) == DirtyKeys(buf, i) + (if buf[i].dirty then {buf[i].blockno as int} else {})
  {
  }

  lemma {:induction false} DirtyKeysCount(buf: seq<Buf>, n: nat)
    requires n <= |buf| && UniqueKeys(buf) && forall i :: 0 <= i < n && buf[i].dirty ==> buf[i].dev == DISK_DEV
    ensures |DirtyKeys(buf, n)| == |DirtyBelow(buf, n)|
  {
    if n > 0 {
      hide DirtyKeys, DirtyBelow, UniqueKeys;
      NewKey(buf, n - 1);
      OneMoreDirty(buf, n - 1);
      DirtyKeysCount(buf, n - 1);
    } else {
      assert DirtyKeys(buf, 0) == {} == DirtyBelow(buf, 0);
    }
  }

  /** There are as many dirty buffers as logged blocks. */
  lemma DirtyCount(g: Geometry, disk: Disk, buf: seq<Buf>, lh: seq<int>, view: Disk)
    requires UniqueKeys(buf) && Coherent(g, disk, buf, lh, view)
    ensures |DirtyBelow(buf, |buf|)| == |lh|
  {
    forall i | 0 <= i < |buf| && buf[i].dirty ensures buf[i].dev == DISK_DEV && buf[i].blockno in lh {
      assert BufOk(buf[i], lh, view);
    }
    DirtyKeysCount(buf, |buf|);
    DistinctSize(lh);
    forall k | k in ToSet(lh) ensures k in DirtyKeys(buf, |buf|) {
      var t :| 0 <= t < |lh| && lh[t] == k;
      assert Pinned(buf, lh[t]);
    }
    assert DirtyKeys(buf, |buf|) == ToSet(lh);
  }

  /** A buffer can be recycled exactly while logged blocks and readers leave one. */
  lemma IdleIff(g: Geometry, disk: Disk, buf: seq<Buf>, lh: seq<int>, view: Disk)
    requires |buf| == NBUF && UniqueKeys(buf) && Coherent(g, disk, buf, lh, view)
    ensures (exists i :: 0 <= i < NBUF && Idle(buf[i])) <==> |lh| + Held(buf) < NBUF
  {
    hide Coherent, UniqueKeys, DirtyBelow, HeldSet, Idle;
    DirtyCount(g, disk, buf, lh, view);
    BusyBuffers(buf);
    OneLeft(DirtyBelow(buf, NBUF), HeldSet(buf), NBUF);
  }

  lemma OneLeft(a: set<int>, b: set<int>, n: nat)
    requires a !! b && a + b <= Range(0, n)
    ensures (exists i :: 0 <= i < n && i !in a + b) <==> |a| + |b| < n
  {
    var busy := a + b;
    assert |busy| == |a| + |b|;
    if i :| 0 <= i < n && i !in busy {
      SubsetSize(busy + {i}, Range(0, n));
    } else {
      assert busy == Range(0, n);
    }
  }

  /** A buffer is dirty, or used by a reader, or idle. */
  lemma BusyBuffers(buf: seq<Buf>)
    requires |buf| == NBUF
    ensures DirtyBelow(buf, NBUF) !! HeldSet(buf) && DirtyBelow(buf, NBUF) + HeldSet(buf) <= Range(0, NBUF)
    ensures forall i :: 0 <= i < NBUF ==> (Idle(buf[i]) <==> i !in DirtyBelow(buf, NBUF) + HeldSet(buf))
  {
  }

  /** write_log() gets a buffer for a log block exactly if the block is cached or the logged
      blocks and the buffers of readers are fewer than NBUF; otherwise bget() panics with
      "no buffers". */
  lemma CommitNeedsBuffer(g: Geometry, disk: Disk, buf: seq<Buf>, lh: seq<int>, view: Disk, k: int)
    requires |buf| == NBUF && UniqueKeys(buf) && Coherent(g, disk, buf, lh, view) && InLog(g, k)
    ensures Gettable(buf, DISK_DEV, k) <==> Cached(buf, DISK_DEV, k) || |lh| + Held(buf) < NBUF
    ensures |lh| >= NBUF ==> !Gettable(buf, DISK_DEV, k)
  {
    hide DirtyBelow, Held, UniqueKeys;
    IdleIff(g, disk, buf, lh, view);
    if |lh| >= NBUF {
      AllDirty(g, disk, buf, lh, view);
      assert forall i :: 0 <= i < NBUF ==> BufOk(buf[i], lh, view) && buf[i].blockno in lh;
      assert k !in lh;
    }
  }

  lemma AllDirty(g: Geometry, disk: Disk, buf: seq<Buf>, lh: seq<int>, view: Disk)
    requires |buf| == NBUF && UniqueKeys(buf) && Coherent(g, disk, buf, lh, view) && |lh| >= NBUF
    ensures forall i :: 0 <= i < NBUF ==> buf[i].dirty
  {
    hide Coherent, UniqueKeys;
    DirtyCount(g, disk, buf, lh, view);
    OneLeft(DirtyBelow(buf, NBUF), {}, NBUF);
    forall i | 0 <= i < NBUF ensures buf[i].dirty { assert i in DirtyBelow(buf, NBUF) + {}; }
  }

  // ------------------------------------------------ other users of the cache

  /** Nobody uses the buffer of block `k`. */
  ghost predicate Unused(buf: seq<Buf>, k: int) {
    forall i :: 0 <= i < |buf| && IsKey(buf[i], DISK_DEV, k) ==> buf[i].refcnt == 0
  }

  /** Nobody uses the buffer of a log block or of one of `ks`. Readers, who do not begin an
      operation, may use any other at any time. */
  ghost predicate Apart(buf: seq<Buf>, g: Geometry, ks: seq<int>) {
    forall i :: 0 <= i < |buf| && buf[i].refcnt > 0 && buf[i].dev == DISK_DEV ==>
      !InLog(g, buf[i].blockno) && buf[i].blockno !in ks
  }

  /** The buffers that were in use are as before, and no other is in use. */
  ghost predicate Rested(before: seq<Buf>, buf: seq<Buf>) {
    && |buf| == |before|
    && forall i :: 0 <= i < |buf| ==>
         if before[i].refcnt > 0 then buf[i] == before[i] else buf[i].refcnt == 0 && !buf[i].locked
  }

  lemma RestedSame(buf: seq<Buf>)
    requires Table(buf)
    ensures Rested(buf, buf)
  {
  }

  lemma RestedTwice(a: seq<Buf>, b: seq<Buf>, c: seq<Buf>)
    requires Rested(a, b) && Rested(b, c)
    ensures Rested(a, c)
  {
  }

  lemma RestedFacts(a: seq<Buf>, b: seq<Buf>, g: Geometry, ks: seq<int>)
    requires Rested(a, b)
    ensures Apart(a, g, ks) ==> Apart(b, g, ks)
    ensures Quiet(a) ==> Quiet(b)
    ensures Held(b) == Held(a)
  {
    forall i | 0 <= i < |a| ensures a[i].refcnt > 0 <==> b[i].refcnt > 0 {}
    assert HeldSet(a) == HeldSet(b);
  }

  /** The blocks still pinned when install_trans() has come to `tail`: none in recovery. */
  ghost function Left(pinned: bool, lh: seq<int>, tail: nat): seq<int>
    requires tail <= |lh|
  {
    if pinned then lh[tail..] else []
  }

  lemma LeftEnds(pinned: bool, lh: seq<int>)
    ensures Left(pinned, lh, |lh|) == [] && Left(pinned, lh, 0) == if pinned then lh else []
  {
  }

  /** install_trans() has a buffer for the log block, and in recovery one for its home. */
  ghost predicate Enough(buf: seq<Buf>, pins: seq<int>) {
    |pins| + Held(buf) < NBUF && (pins == [] ==> Held(buf) + 1 < NBUF)
  }

  lemma StillEnough(a: seq<Buf>, b: seq<Buf>, g: Geometry, lh: seq<int>, pins: seq<int>, tail: nat)
    requires Rested(a, b) && Apart(a, g, lh) && Enough(a, pins) && (pins == lh || pins == []) && tail < |lh|
    ensures Apart(b, g, lh) && Enough(b, Left(pins != [], lh, tail))
  {
    RestedFacts(a, b, g, lh);
    hide Held, Apart, Rested;
  }

  lemma QuietFacts(buf: seq<Buf>, g: Geometry, ks: seq<int>)
    requires Quiet(buf)
    ensures Apart(buf, g, ks) && Held(buf) == 0
  {
    assert HeldSet(buf) == {};
  }

  lemma ApartFacts(buf: seq<Buf>, g: Geometry, ks: seq<int>, k: int)
    requires Apart(buf, g, ks) && (InLog(g, k) || k in ks)
    ensures Unused(buf, k)
  {
  }

  lemma ApartFrom(buf: seq<Buf>, g: Geometry, ks: seq<int>, lh: seq<int>)
    requires Apart(buf, g, ks) && forall t :: 0 <= t < |lh| ==> lh[t] in ks
    ensures Apart(buf, g, lh)
  {
  }

  // ------------------------------------------------------ the history of a block

  /** What log_write() last stored for block `k`, or what was there at the start. */
  ghost function LastLogged(base: Disk, logged: seq<(int, Block)>, k: int): Block
    requires 0 <= k < |base|
  {
    if logged == [] then base[k]
    else if logged[|logged| - 1].0 == k then logged[|logged| - 1].1
    else LastLogged(base, logged[..|logged| - 1], k)
  }

  ghost predicate Replays(g: Geometry, base: Disk, logged: seq<(int, Block)>, view: Disk) {
    && |base| == |view|
    && forall k :: 0 <= k < |view| && !InLog(g, k) ==> view[k] == LastLogged(base, logged, k)
  }

  lemma NothingLogged(g: Geometry, base: Disk)
    ensures Replays(g, base, [], base)
  {
  }

  lemma ReplaySameHome(g: Geometry, base: Disk, logged: seq<(int, Block)>, v: Disk, v': Disk)
    requires Replays(g, base, logged, v) && SameHome(g, v', v)
    ensures Replays(g, base, logged, v')
  {
  }

  lemma ReplayAppend(g: Geometry, base: Disk, logged: seq<(int, Block)>, v: Disk, no: int, x: Block)
    requires Replays(g, base, logged, v) && 0 <= no < |v|
    ensures Replays(g, base, logged + [(no, x)], v[no := x])
  {
    var l := logged + [(no, x)];
    assert l[..|l| - 1] == logged;
  }

  lemma SameHomeFlip(g: Geometry, a: Disk, b: Disk)
    requires SameHome(g, a, b)
    ensures SameHome(g, b, a)
  {
  }

  lemma SameHomeAt(g: Geometry, a: Disk, b: Disk, k: int)
    requires SameHome(g, a, b) && 0 <= k < |a| && !InLog(g, k)
    ensures |a| == |b| && a[k] == b[k]
  {
  }

  lemma SameHomeSelf(g: Geometry, a: Disk)
    ensures SameHome(g, a, a)
  {
  }

  lemma NoCommit(g: Geometry, d: Disk)
    requires GoodLog(g, d)
    ensures CommitDisks(g, d, [], []) == []
  {
  }

  lemma SameHomeChain(g: Geometry, a: Disk, b: Disk, c: Disk)
    requires SameHome(g, a, b) && SameHome(g, b, c)
    ensures SameHome(g, a, a) && SameHome(g, a, c)
  {
  }

  lemma LogNothing(g: Geometry, d: Disk, cs: seq<Block>)
    requires Fits(g, d) && |cs| < g.size
    ensures Logged(g, d, cs, 0) == d && LogDisks(g, d, cs, 0) == []
  {
  }

  lemma LogOneMore(g: Geometry, d: Disk, cs: seq<Block>, m: nat, before: seq<Disk>)
    requires Fits(g, d) && |cs| < g.size && m < |cs|
    ensures Logged(g, d, cs, m + 1) == Logged(g, d, cs, m)[g.start + m + 1 := cs[m]]
    ensures before + LogDisks(g, d, cs, m) + [Logged(g, d, cs, m + 1)] == before + LogDisks(g, d, cs, m + 1)
  {
  }

  lemma InstallNothing(g: Geometry, d: Disk, es: seq<int>)
    requires Fits(g, d) && GoodEntries(g, d, es)
    ensures Installed(g, d, es, 0) == d && InstallDisks(g, d, es, 0) == []
  {
  }

  lemma InstallOneMore(g: Geometry, d: Disk, es: seq<int>, m: nat, before: seq<Disk>)
    requires Fits(g, d) && GoodEntries(g, d, es) && m < |es| && 0 <= es[m] < |d| && |es| < g.size
    ensures Installed(g, d, es, m + 1) == Installed(g, d, es, m)[es[m] := Installed(g, d, es, m)[g.start + m + 1]]
    ensures before + InstallDisks(g, d, es, m) + [Installed(g, d, es, m + 1)] == before + InstallDisks(g, d, es, m + 1)
  {
  }

  lemma InstallStep(g: Geometry, d: Disk, es: seq<int>, m: nat)
    requires Fits(g, d) && GoodEntries(g, d, es) && m < |es|
    ensures 0 <= es[m] < |d| && |es| < g.size
    ensures Installed(g, d, es, m)[g.start + m + 1] == d[g.start + m + 1]
    ensures GoodEntries(g, Installed(g, d, es, m), es)
  {
    InstalledOutside(g, d, es, m, g.start + m + 1);
  }

  /** The log blocks are the contents of the blocks the header names. */
  ghost predicate LogHolds(g: Geometry, d: Disk, es: seq<int>, view: Disk)
    requires Fits(g, d) && |es| < g.size && |view| == |d|
  {
    forall t :: 0 <= t < |es| ==> 0 <= es[t] < |d| && view[es[t]] == d[g.start + 1 + t]
  }

  lemma HoldsAt(g: Geometry, d: Disk, es: seq<int>, view: Disk, t: nat)
    requires Fits(g, d) && |es| < g.size && |view| == |d| && LogHolds(g, d, es, view) && t < |es|
    ensures 0 <= es[t] < |d| && view[es[t]] == d[g.start + 1 + t]
  {
  }

  /** Where commit() stands once the header is written. */
  lemma CommittedFacts(g: Geometry, d: Disk, es: seq<int>, cs: seq<Block>, v: Disk, v': Disk)
    requires HeaderOk(g, d, es) && |d[g.start].words| == BLOCK_WORDS
    requires |v| == |d| && SameHome(g, v, v') && cs == Contents(v, es)
    ensures var h := Headed(g, Logged(g, d, cs, |es|), es);
            && |h| == |d| && Fits(g, h) && GoodEntries(g, h, es)
            && |h[g.start].words| == BLOCK_WORDS
            && LogHolds(g, h, es, v')
  {
    HeadedKeepsLog(g, d, es, cs);
    ContentsHold(g, d, es, cs, v, v', Headed(g, Logged(g, d, cs, |es|), es));
  }

  lemma ContentsHold(g: Geometry, d: Disk, es: seq<int>, cs: seq<Block>, v: Disk, v': Disk, h: Disk)
    requires HeaderOk(g, d, es) && |v| == |d| == |h| && SameHome(g, v, v') && cs == Contents(v, es)
    requires forall t :: 0 <= t < |es| ==> h[g.start + 1 + t] == cs[t]
    ensures LogHolds(g, h, es, v')
  {
  }

  lemma CommitDone(g: Geometry, d: Disk, es: seq<int>, cs: seq<Block>, w: seq<Disk>)
    requires HeaderOk(g, d, es) && |d[g.start].words| == BLOCK_WORDS && |cs| == |es| > 0
    ensures var h := Headed(g, Logged(g, d, cs, |es|), es);
            var f := Headed(g, Installed(g, h, es, |es|), []);
            && GoodLog(g, f) && Entries(g, f) == []
            && w + LogDisks(g, d, cs, |es|) + [h] + InstallDisks(g, h, es, |es|) + [f] == w + CommitDisks(g, d, es, cs)
  {
    hide Logged, Installed, LogDisks, InstallDisks;
    var h := Headed(g, Logged(g, d, cs, |es|), es);
    HeadRoundTrip(d[g.start], es);
    HeadRoundTrip(h[g.start], []);
  }

  lemma HeaderFacts(g: Geometry, disk: Disk, buf: seq<Buf>, lh: seq<int>, view: Disk)
    requires Coherent(g, disk, buf, lh, view)
    ensures HeaderOk(g, disk, lh) && |view| == |disk| && |lh| < g.size
    ensures forall t :: 0 <= t < |lh| ==> 0 <= lh[t] < |view| && !InLog(g, lh[t])
    ensures lh == [] ==> view == disk
  {
  }

  lemma BufFacts(g: Geometry, disk: Disk, buf: seq<Buf>, lh: seq<int>, view: Disk, b: nat)
    requires Coherent(g, disk, buf, lh, view) && b < |buf| && buf[b].valid
    ensures Fits(g, disk) && |view| == |disk|
    ensures buf[b].dev == DISK_DEV && buf[b].blockno < |disk|
    ensures !buf[b].locked ==> buf[b].data == view[buf[b].blockno]
  {
  }

  ghost function Unpin(pins: seq<int>, k: int): seq<int> {
    if pins != [] && pins[0] == k then pins[1..] else pins
  }

  lemma WriteCoherent(g: Geometry, disk: Disk, buf: seq<Buf>, pins: seq<int>, view: Disk, b: nat, x: Block)
    requires Coherent(g, disk, buf, pins, view) && UniqueKeys(buf)
    requires b < |buf| && buf[b].valid && buf[b].locked
    requires buf[b].blockno !in pins || pins[0] == buf[b].blockno
    ensures Coherent(g, disk[buf[b].blockno := x], buf[b := buf[b].(data := x, dirty := false)],
                     Unpin(pins, buf[b].blockno), view[buf[b].blockno := x])
  {
    var k := buf[b].blockno;
    var buf', pins' := buf[b := buf[b].(data := x, dirty := false)], Unpin(pins, k);
    UnpinDrops(pins, k);
    assert BufOk(buf[b], pins, view);
    forall t | 0 <= t < |pins'| ensures Pinned(buf', pins'[t]) {
      PinSurvives(buf, buf', pins, pins'[t], b);
    }
    forall i | 0 <= i < |buf| && i != b ensures BufOk(buf'[i], pins', view[k := x]) {
      assert BufOk(buf[i], pins, view);
      assert buf[i].valid ==> buf[i].blockno != k;
    }
  }

  lemma UnpinDrops(pins: seq<int>, k: int)
    requires k !in pins || pins[0] == k
    requires forall s, t :: 0 <= s < t < |pins| ==> pins[s] != pins[t]
    ensures forall p :: p in Unpin(pins, k) <==> p in pins && p != k
  {
  }

  lemma PinSurvives(buf: seq<Buf>, buf': seq<Buf>, pins: seq<int>, p: int, b: nat)
    requires |buf'| == |buf| && b < |buf| && p != buf[b].blockno && p in pins
    requires forall t :: 0 <= t < |pins| ==> Pinned(buf, pins[t])
    requires forall i :: 0 <= i < |buf| && i != b ==> buf'[i] == buf[i]
    ensures Pinned(buf', p)
  {
    var t :| 0 <= t < |pins| && pins[t] == p;
    assert Pinned(buf, pins[t]);
    var i :| 0 <= i < |buf| && buf[i].dirty && IsKey(buf[i], DISK_DEV, p);
    assert buf'[i].dirty && IsKey(buf'[i], DISK_DEV, p);
  }

  /** There is a buffer for a logged block, and for any block while one can be recycled. */
  lemma AnyBuffer(g: Geometry, disk: Disk, buf: seq<Buf>, pins: seq<int>, view: Disk, k: int)
    requires |buf| == NBUF && UniqueKeys(buf) && Coherent(g, disk, buf, pins, view)
    requires k in pins || |pins| + Held(buf) < NBUF
    ensures Gettable(buf, DISK_DEV, k)
  {
    if k in pins {
      var t :| 0 <= t < |pins| && pins[t] == k;
      assert Pinned(buf, pins[t]);
    } else {
      IdleIff(g, disk, buf, pins, view);
    }
  }

  /** The header after log_write() of block `no`: absorbed, or appended. */
  function Absorb(lh: seq<int>, no: int): (r: seq<int>) {
    if no in lh then lh else lh + [no]
  }

  lemma LogWriteCoherent(g: Geometry, disk: Disk, buf: seq<Buf>, lh: seq<int>, view: Disk, b: nat)
    requires Coherent(g, disk, buf, lh, view) && b < |buf| && buf[b].valid && buf[b].locked
    requires !InLog(g, buf[b].blockno) && |lh| < LOGSIZE && |lh| < g.size - 1 && UniqueKeys(buf)
    ensures Coherent(g, disk, buf[b := buf[b].(dirty := true)], Absorb(lh, buf[b].blockno),
                     view[buf[b].blockno := buf[b].data])
  {
    var no := buf[b].blockno;
    var buf', lh', view' := buf[b := buf[b].(dirty := true)], Absorb(lh, no), view[no := buf[b].data];
    assert IsKey(buf'[b], DISK_DEV, no) && buf'[b].dirty;
    forall t | 0 <= t < |lh'| ensures Pinned(buf', lh'[t]) {
      if lh'[t] != no {
        var j :| 0 <= j < |buf| && buf[j].dirty && IsKey(buf[j], DISK_DEV, lh[t]);
        assert buf'[j].dirty && IsKey(buf'[j], DISK_DEV, lh'[t]);
      }
    }
    forall i | 0 <= i < |buf'| && buf'[i].valid && !buf'[i].locked ensures buf'[i].data == view'[buf'[i].blockno] {
      assert i != b && buf[i].dev == DISK_DEV && buf[b].dev == DISK_DEV;
      assert buf[i].blockno != no;
    }
  }

  // ------------------------------------------------------ coherence, step by step

  function Freed(b: Buf): Buf
    requires b.refcnt > 0
  {
    b.(locked := false, refcnt := b.refcnt - 1)
  }

  /** What bread() may do to the table: buffer `b` is taken for block `k`. */
  ghost predicate Took(old_: seq<Buf>, buf: seq<Buf>, k: int, b: nat) {
    && |old_| == |buf| && b < |buf|
    && (forall i :: 0 <= i < |buf| && i != b ==> buf[i] == old_[i])
    && IsKey(buf[b], DISK_DEV, k) && buf[b].valid && buf[b].locked
    && if Cached(old_, DISK_DEV, k)
       then IsKey(old_[b], DISK_DEV, k) && buf[b].refcnt == old_[b].refcnt + 1 && buf[b].dirty == old_[b].dirty
       else Idle(old_[b]) && buf[b].refcnt == 1 && !buf[b].dirty
  }

  lemma TableFacts(buf: seq<Buf>)
    requires Table(buf)
    ensures UniqueKeys(buf)
    ensures forall i :: 0 <= i < |buf| && buf[i].locked ==> buf[i].refcnt > 0
    ensures forall i :: 0 <= i < |buf| && buf[i].dirty ==> buf[i].valid
  {
  }

  lemma CacheFacts(bc: Bcache)
    requires bc.Valid()
    ensures |bc.buf| == NBUF && Table(bc.buf) && UniqueKeys(bc.buf)
  {
  }

  lemma UnusedFree(buf: seq<Buf>, k: int)
    requires Table(buf) && Unused(buf, k)
    ensures Unheld(buf, DISK_DEV, k)
  {
  }

  /** The buffer of an unused block has been taken. */
  lemma OneTaken(old_: seq<Buf>, buf: seq<Buf>, k: int, b: nat)
    requires Took(old_, buf, k, b) && Unused(old_, k)
    ensures |buf| == |old_| && b < |buf| && IsKey(buf[b], DISK_DEV, k) && old_[b].refcnt == 0
    ensures buf[b].valid && buf[b].locked && buf[b].refcnt == 1
    ensures forall i :: 0 <= i < |buf| && i != b ==> buf[i] == old_[i]
    ensures Held(buf) == Held(old_) + (if buf[b].dirty then 0 else 1)
    ensures forall k' :: k' != k && Unused(old_, k') ==> Unused(buf, k')
  {
    assert HeldSet(buf) == if buf[b].dirty then HeldSet(old_) else HeldSet(old_) + {b as int};
  }

  /** The buffer taken has been given back. */
  lemma GivenBack(old_: seq<Buf>, buf: seq<Buf>, b: nat)
    requires Table(old_) && |buf| == |old_| && b < |buf| && old_[b].refcnt == 0 && buf[b].refcnt == 0 && !buf[b].locked
    requires forall i :: 0 <= i < |buf| && i != b ==> buf[i] == old_[i]
    ensures Rested(old_, buf)
  {
  }

  lemma BothGivenBack(old_: seq<Buf>, buf: seq<Buf>, b: nat, c: nat)
    requires Table(old_) && |buf| == |old_| && b < |buf| && c < |buf| && old_[b].refcnt == 0 && old_[c].refcnt == 0
    requires buf[b].refcnt == 0 && !buf[b].locked && buf[c].refcnt == 0 && !buf[c].locked
    requires forall i :: 0 <= i < |buf| && i != b && i != c ==> buf[i] == old_[i]
    ensures Rested(old_, buf)
  {
  }

  /** A log block is never pinned, and there is a buffer for it. */
  lemma LogBlockFacts(g: Geometry, disk: Disk, buf: seq<Buf>, pins: seq<int>, view: Disk, ks: seq<int>, k: int)
    requires |buf| == NBUF && Table(buf) && Coherent(g, disk, buf, pins, view)
    requires Apart(buf, g, ks) && |pins| + Held(buf) < NBUF && InLog(g, k)
    ensures k !in pins && view[k] == disk[k]
    ensures Gettable(buf, DISK_DEV, k) && Unheld(buf, DISK_DEV, k) && Unused(buf, k)
  {
    AnyBuffer(g, disk, buf, pins, view, k);
    ApartFacts(buf, g, ks, k);
    UnusedFree(buf, k);
  }

  lemma ReadCoherent(g: Geometry, disk: Disk, old_: seq<Buf>, buf: seq<Buf>, pins: seq<int>, view: Disk, b: nat, k: int)
    requires Coherent(g, disk, old_, pins, view) && Took(old_, buf, k, b) && 0 <= k < |disk|
    requires UniqueKeys(old_) && Unheld(old_, DISK_DEV, k)
    requires buf[b].data == if Cached(old_, DISK_DEV, k) && old_[b].valid then old_[b].data else disk[k]
    ensures Coherent(g, disk, buf, pins, view) && buf[b].data == view[k]
  {
    if k in pins {
      var t :| 0 <= t < |pins| && pins[t] == k;
      assert Pinned(old_, pins[t]);
      var i :| 0 <= i < |old_| && old_[i].dirty && IsKey(old_[i], DISK_DEV, k);
      assert i == b;
    }
    assert BufOk(old_[b], pins, view);
    forall t | 0 <= t < |pins| ensures Pinned(buf, pins[t]) {
      assert Pinned(old_, pins[t]);
      var i :| 0 <= i < |old_| && old_[i].dirty && IsKey(old_[i], DISK_DEV, pins[t]);
      assert buf[i].dirty && IsKey(buf[i], DISK_DEV, pins[t]);
    }
  }

  lemma ReleaseCoherent(g: Geometry, disk: Disk, buf: seq<Buf>, pins: seq<int>, view: Disk, b: nat)
    requires Coherent(g, disk, buf, pins, view) && b < |buf| && buf[b].refcnt > 0 && buf[b].valid
    requires 0 <= buf[b].blockno < |view| && buf[b].data == view[buf[b].blockno]
    ensures Coherent(g, disk, buf[b := Freed(buf[b])], pins, view)
  {
    var buf' := buf[b := Freed(buf[b])];
    assert BufOk(buf[b], pins, view);
    forall t | 0 <= t < |pins| ensures Pinned(buf', pins[t]) {
      assert Pinned(buf, pins[t]);
      var i :| 0 <= i < |buf| && buf[i].dirty && IsKey(buf[i], DISK_DEV, pins[t]);
      assert buf'[i].dirty && IsKey(buf'[i], DISK_DEV, pins[t]);
    }
  }

  lemma ModifyCoherent(g: Geometry, disk: Disk, buf: seq<Buf>, pins: seq<int>, view: Disk, b: nat, x: Block)
    requires Coherent(g, disk, buf, pins, view) && b < |buf| && buf[b].locked
    ensures Coherent(g, disk, buf[b := buf[b].(data := x)], pins, view)
  {
    var buf' := buf[b := buf[b].(data := x)];
    forall i | 0 <= i < |buf| ensures BufOk(buf'[i], pins, view) { assert BufOk(buf[i], pins, view); }
    forall t | 0 <= t < |pins| ensures Pinned(buf', pins[t]) {
      assert Pinned(buf, pins[t]);
      var i :| 0 <= i < |buf| && buf[i].dirty && IsKey(buf[i], DISK_DEV, pins[t]);
      assert buf'[i].dirty && IsKey(buf'[i], DISK_DEV, pins[t]);
    }
  }

  /** What commit() is going to put on the disk is what the file system sees. */
  lemma AppliedIsView(g: Geometry, disk: Disk, buf: seq<Buf>, lh: seq<int>, view: Disk)
    requires Coherent(g, disk, buf, lh, view) && forall t :: 0 <= t < |lh| ==> 0 <= lh[t] < |view|
    ensures GoodEntries(g, disk, lh) && |view| == |disk| && Applied(disk, lh, Contents(view, lh)) == view
  {
    var cs := Contents(view, lh);
    forall k | 0 <= k < |view| ensures Applied(disk, lh, cs)[k] == view[k] { StoredAt(disk, lh, cs, view, |lh|, k); }
  }

  lemma {:induction false} StoredAt(disk: Disk, lh: seq<int>, cs: seq<Block>, view: Disk, j: nat, k: nat)
    requires |cs| == |lh| && j <= |lh| && (forall t :: 0 <= t < |lh| ==> 0 <= lh[t] < |disk|) && |view| == |disk|
    requires k < |disk|
    requires forall t :: 0 <= t < |lh| ==> cs[t] == view[lh[t]]
    ensures Stored(disk, lh, cs, j)[k] == if k in lh[..j] then view[k] else disk[k]
  {
    if j > 0 {
      StoredAt(disk, lh, cs, view, j - 1, k);
      assert lh[..j] == lh[..j - 1] + [lh[j - 1]];
    }
  }

  /** Recovery of `c` shows the file system before the operation, or after it. */
  ghost predicate NoneOrAll(g: Geometry, c: Disk, before: Disk, after: Disk) {
    GoodLog(g, c) && (SameHome(g, Recovered(g, c), before) || SameHome(g, Recovered(g, c), after))
  }

  lemma WritesAreSafe(g: Geometry, d: Disk, es: seq<int>, cs: seq<Block>, v: Disk, w: seq<Disk>, w': seq<Disk>)
    requires GoodLog(g, d) && Entries(g, d) == [] && GoodEntries(g, d, es) && |cs| == |es| && Applied(d, es, cs) == v
    requires w' == w + CommitDisks(g, d, es, cs)
    ensures |w| <= |w'| && w'[..|w|] == w && forall j :: |w| <= j < |w'| ==> NoneOrAll(g, w'[j], d, v)
  {
    hide CommitDisks, SameHome, Applied, GoodEntries, GoodLog;
    forall j | |w| <= j < |w'| ensures NoneOrAll(g, w'[j], d, v) { CommitDisksRecover(g, d, es, cs, j - |w| + 1, 0); }
  }

  // ------------------------------------------------------------ struct log

  class Log {
    const bc: Bcache
    const g: Geometry            // log.start, log.size
    var lh: seq<int>             // log.lh.block[0 .. log.lh.n]
    var outstanding: nat
    var committing: bool
    ghost var view: Disk
    ghost var pins: seq<int>     // the blocks of `lh` still waiting to go home
    ghost var base: Disk         // the disk initlog() left
    ghost var logged: seq<(int, Block)>   // every log_write() since, in order

    ghost predicate Valid()
      reads this, bc
    {
      && bc.Valid()
      && Coherent(g, bc.disk, bc.buf, pins, view)
    }

    /** Between operations: whatever is logged is pinned. */
    ghost predicate Ready()
      reads this, bc
    {
      && Valid() && pins == lh
      && GoodLog(g, bc.disk) && Entries(g, bc.disk) == []
      && Replays(g, base, logged, view)
    }

    /** initlog() on a cache that nobody holds a buffer of and that agrees with the disk, as
        after readsb(): recover, and show what was committed. */
    constructor (cache: Bcache, geometry: Geometry)
      requires cache.Valid() && GoodLog(geometry, cache.disk) && Quiet(cache.buf) && OnDisk(cache.buf, cache.disk)
      modifies cache
      ensures bc == cache && g == geometry && Ready() && Quiet(bc.buf)
      ensures bc.disk == Recovered(g, old(cache.disk)) && view == bc.disk
      ensures lh == [] && outstanding == 0 && !committing && logged == []
      ensures bc.writes == old(cache.writes) + RecoverDisks(g, old(cache.disk))
    {
      bc := cache;
      g := geometry;
      lh := [];
      pins := [];
      view := cache.disk;
      outstanding := 0;
      committing := false;
      new;
      RecoverFromLog();
    }

    /** bread() as the file system sees it: the contents last logged for the block. */
    method Bread(k: int) returns (b: nat)
      requires Ready() && 0 <= k < |bc.disk| && !InLog(g, k)
      requires Gettable(bc.buf, DISK_DEV, k) && Unheld(bc.buf, DISK_DEV, k)
      modifies bc
      ensures Ready() && b < NBUF && |base| == |bc.disk|
      ensures bc.disk == old(bc.disk) && bc.writes == old(bc.writes)
      ensures Took(old(bc.buf), bc.buf, k, b)
      ensures bc.buf[b].data == LastLogged(base, logged, k)
    {
      hide Bcache.Valid, Coherent, Took, Gettable, Unheld;
      b := Read(k);
    }

    method Read(k: int) returns (b: nat)
      requires Valid() && 0 <= k < |bc.disk|
      requires Gettable(bc.buf, DISK_DEV, k) && Unheld(bc.buf, DISK_DEV, k)
      modifies bc
      ensures Valid() && b < NBUF
      ensures bc.disk == old(bc.disk) && bc.writes == old(bc.writes)
      ensures Took(old(bc.buf), bc.buf, k, b)
      ensures |view| == |bc.disk| && bc.buf[b].data == view[k]
    {
      hide FullRing, Table, Coherent;
      TableFacts(bc.buf);
      b := bc.Bread(k);
      TableFacts(bc.buf);
      ReadCoherent(g, bc.disk, old(bc.buf), bc.buf, pins, view, b, k);
    }

    /** brelse(): the holder has logged every change it made. */
    method Release(b: nat)
      requires Valid() && b < NBUF && bc.buf[b].locked && bc.buf[b].valid
      requires 0 <= bc.buf[b].blockno < |view| && bc.buf[b].data == view[bc.buf[b].blockno]
      modifies bc
      ensures Valid() && (old(Ready()) ==> Ready())
      ensures bc.disk == old(bc.disk) && bc.writes == old(bc.writes)
      ensures bc.buf == old(bc.buf)[b := Freed(old(bc.buf[b]))]
    {
      hide FullRing, Table, Coherent, GoodLog, Replays;
      TableFacts(bc.buf);
      ReleaseCoherent(g, bc.disk, bc.buf, pins, view, b);
      bc.Brelse(b);
    }

    /** The holder of `b` stores into its data. */
    method Modify(b: nat, x: Block)
      requires Ready() && b < NBUF && bc.buf[b].locked
      modifies bc
      ensures Ready() && bc.buf == old(bc.buf)[b := old(bc.buf[b]).(data := x)]
      ensures bc.disk == old(bc.disk) && bc.writes == old(bc.writes)
    {
      hide Coherent, FullRing, Table, GoodLog, Replays;
      ModifyCoherent(g, bc.disk, bc.buf, pins, view, b, x);
      bc.SetData(b, x);
    }

    /** log_write(): the holder of `b` has changed its data. The panics of the source
        are the second precondition. */
    method LogWrite(b: nat)
      requires Ready() && b < NBUF && bc.buf[b].locked && bc.buf[b].valid && !InLog(g, bc.buf[b].blockno)
      requires |lh| < LOGSIZE && |lh| < g.size - 1 && outstanding >= 1
      modifies this, bc
      ensures Ready() && outstanding == old(outstanding) && committing == old(committing)
      ensures base == old(base) && logged == old(logged) + [(old(bc.buf[b]).blockno, old(bc.buf[b]).data)]
      ensures view == old(view)[old(bc.buf[b]).blockno := old(bc.buf[b]).data]
      ensures lh == Absorb(old(lh), old(bc.buf[b]).blockno)
      ensures bc.disk == old(bc.disk) && bc.writes == old(bc.writes)
      ensures bc.buf == old(bc.buf)[b := old(bc.buf[b]).(dirty := true)]
    {
      hide FullRing, Table, Coherent;
      TableFacts(bc.buf);
      BufFacts(g, bc.disk, bc.buf, pins, view, b);
      var no := bc.buf[b].blockno;
      var i := 0;
      while i < |lh|
        invariant 0 <= i <= |lh| && forall t :: 0 <= t < i ==> lh[t] != no
      {
        if lh[i] == no {
          break;
        }
        i := i + 1;
      }
      if i == |lh| {
        lh := lh + [no];
      } else {
        lh := lh[i := no];
      }
      assert lh == Absorb(old(lh), no);
      LogWriteCoherent(g, bc.disk, bc.buf, old(lh), view, b);
      bc.MarkDirty(b);
      view := view[no := bc.buf[b].data];
      ReplayAppend(g, base, logged, old(view), no, bc.buf[b].data);
      logged := logged + [(no, bc.buf[b].data)];
      pins := lh;
    }

    /** The holder stores `x` and bwrite()s it; the block, if pinned, goes home. */
    method WriteThrough(b: nat, x: Block)
      requires Valid() && b < NBUF && bc.buf[b].locked && bc.buf[b].valid
      requires bc.buf[b].blockno !in pins || pins[0] == bc.buf[b].blockno
      modifies bc, `view, `pins
      ensures Valid()
      ensures old(bc.buf[b]).blockno < |old(bc.disk)| && |old(view)| == |old(bc.disk)|
      ensures bc.disk == old(bc.disk)[old(bc.buf[b]).blockno := x]
      ensures bc.writes == old(bc.writes) + [bc.disk]
      ensures view == old(view)[old(bc.buf[b]).blockno := x]
      ensures pins == Unpin(old(pins), old(bc.buf[b]).blockno)
      ensures bc.buf == old(bc.buf)[b := old(bc.buf[b]).(data := x, dirty := false)]
    {
      hide FullRing, Table, Coherent;
      TableFacts(bc.buf);
      WriteCoherent(g, bc.disk, bc.buf, pins, view, b, x);
      BufFacts(g, bc.disk, bc.buf, pins, view, b);
      bc.SetData(b, x);
      bc.Bwrite(b);
      assert bc.buf == old(bc.buf)[b := old(bc.buf[b]).(data := x, dirty := false)];
      view := view[bc.buf[b].blockno := x];
      pins := Unpin(pins, bc.buf[b].blockno);
    }

    method WriteHead()
      requires Valid() && Apart(bc.buf, g, []) && |pins| + Held(bc.buf) < NBUF
      requires |lh| <= LOGSIZE && |bc.disk[g.start].words| == BLOCK_WORDS
      modifies bc, `view, `pins
      ensures Valid() && Rested(old(bc.buf), bc.buf) && pins == old(pins)
      ensures bc.disk == Headed(g, old(bc.disk), lh)
      ensures bc.writes == old(bc.writes) + [bc.disk]
      ensures SameHome(g, view, old(view))
    {
      hide Bcache.Valid, Coherent, Apart, Took, Gettable, Unheld, Table, UniqueKeys, Unused, Rested, Held;
      CacheFacts(bc);
      HeaderFacts(g, bc.disk, bc.buf, pins, view);
      LogBlockFacts(g, bc.disk, bc.buf, pins, view, [], g.start);
      var b := Read(g.start);
      OneTaken(old(bc.buf), bc.buf, g.start, b);
      WriteThrough(b, PutHead(bc.buf[b].data, lh));
      Release(b);
      GivenBack(old(bc.buf), bc.buf, b);
    }

    /** One round of write_log(): cached block `tail` of the header into the log. */
    method WriteLogBlock(tail: nat)
      requires Valid() && Apart(bc.buf, g, lh) && pins == lh && tail < |lh| && |lh| + Held(bc.buf) < NBUF
      modifies bc, `view, `pins
      ensures Valid() && Rested(old(bc.buf), bc.buf) && pins == lh
      ensures bc.disk == old(bc.disk)[g.start + tail + 1 := old(view)[lh[tail]]]
      ensures bc.writes == old(bc.writes) + [bc.disk]
      ensures SameHome(g, view, old(view))
    {
      hide Bcache.Valid, Coherent, Apart, Took, Gettable, Unheld, Table, UniqueKeys, Unused, Rested, Held;
      CacheFacts(bc);
      HeaderFacts(g, bc.disk, bc.buf, pins, view);
      LogBlockFacts(g, bc.disk, bc.buf, pins, view, lh, g.start + tail + 1);
      ApartFacts(bc.buf, g, lh, lh[tail]);
      var to := Read(g.start + tail + 1);
      OneTaken(old(bc.buf), bc.buf, g.start + tail + 1, to);
      ghost var buf1 := bc.buf;
      CacheFacts(bc);
      UnusedFree(buf1, lh[tail]);
      AnyBuffer(g, bc.disk, bc.buf, pins, view, lh[tail]);
      var from := Read(lh[tail]);
      OneTaken(buf1, bc.buf, lh[tail], from);
      WriteThrough(to, bc.buf[from].data);
      Release(from);
      Release(to);
      BothGivenBack(old(bc.buf), bc.buf, to, from);
    }

    method WriteLog()
      requires Valid() && Apart(bc.buf, g, lh) && pins == lh && |lh| + Held(bc.buf) < NBUF
      modifies bc, `view, `pins
      ensures Valid() && Rested(old(bc.buf), bc.buf) && pins == lh
      ensures SameHome(g, view, old(view))
      ensures bc.disk == Logged(g, old(bc.disk), Contents(old(view), lh), |lh|)
      ensures bc.writes == old(bc.writes) + LogDisks(g, old(bc.disk), Contents(old(view), lh), |lh|)
    {
      hide Bcache.Valid, Coherent, Apart, Rested, Held, GoodEntries, SameHome, Logged, LogDisks, Table, UniqueKeys;
      HeaderFacts(g, bc.disk, bc.buf, pins, view);
      SameHomeSelf(g, view);
      CacheFacts(bc);
      RestedSame(bc.buf);
      ghost var cs := Contents(view, lh);
      LogNothing(g, bc.disk, cs);
      var tail := 0;
      while tail < |lh|
        invariant 0 <= tail <= |lh|
        invariant Valid() && Rested(old(bc.buf), bc.buf) && pins == lh
        invariant SameHome(g, view, old(view))
        invariant bc.disk == Logged(g, old(bc.disk), cs, tail)
        invariant bc.writes == old(bc.writes) + LogDisks(g, old(bc.disk), cs, tail)
      {
        HeaderFacts(g, bc.disk, bc.buf, pins, view);
        SameHomeAt(g, view, old(view), lh[tail]);
        RestedFacts(old(bc.buf), bc.buf, g, lh);
        ghost var v, before := view, bc.buf;
        WriteLogBlock(tail);
        RestedTwice(old(bc.buf), before, bc.buf);
        SameHomeChain(g, view, v, old(view));
        LogOneMore(g, old(bc.disk), cs, tail, old(bc.writes));
        tail := tail + 1;
      }
    }

    /** One round of install_trans(): log block `tail` to its home. At a commit the home
        block is pinned; in recovery nothing is, and a second buffer is needed. */
    method InstallBlock(tail: nat, ghost pinned: bool)
      requires Valid() && Apart(bc.buf, g, lh) && tail < |lh| && GoodEntries(g, bc.disk, lh)
      requires Enough(bc.buf, pins)
      requires pins == Left(pinned, lh, tail)
      modifies bc, `view, `pins
      ensures Valid() && Rested(old(bc.buf), bc.buf)
      ensures pins == Left(pinned, lh, tail + 1)
      ensures bc.disk == old(bc.disk)[lh[tail] := old(bc.disk)[g.start + tail + 1]]
      ensures bc.writes == old(bc.writes) + [bc.disk]
      ensures view == old(view)[lh[tail] := old(bc.disk)[g.start + tail + 1]]
    {
      hide Bcache.Valid, Coherent, Apart, Took, Gettable, Unheld, Table, UniqueKeys, Unused, Rested, Held;
      CacheFacts(bc);
      HeaderFacts(g, bc.disk, bc.buf, pins, view);
      LogBlockFacts(g, bc.disk, bc.buf, pins, view, lh, g.start + tail + 1);
      ApartFacts(bc.buf, g, lh, lh[tail]);
      var lbuf := Read(g.start + tail + 1);
      OneTaken(old(bc.buf), bc.buf, g.start + tail + 1, lbuf);
      ghost var buf1 := bc.buf;
      CacheFacts(bc);
      UnusedFree(buf1, lh[tail]);
      AnyBuffer(g, bc.disk, bc.buf, pins, view, lh[tail]);
      var dbuf := Read(lh[tail]);
      OneTaken(buf1, bc.buf, lh[tail], dbuf);
      WriteThrough(dbuf, bc.buf[lbuf].data);
      Release(lbuf);
      Release(dbuf);
      BothGivenBack(old(bc.buf), bc.buf, lbuf, dbuf);
    }

    method InstallTrans()
      requires Valid() && Apart(bc.buf, g, lh) && GoodEntries(g, bc.disk, lh)
      requires Enough(bc.buf, pins)
      requires pins == lh || pins == []
      requires |view| == |bc.disk| && (pins != [] ==> LogHolds(g, bc.disk, lh, view))
      modifies bc, `view, `pins
      ensures Valid() && Rested(old(bc.buf), bc.buf) && pins == []
      ensures old(pins) != [] ==> view == old(view)
      ensures bc.disk == Installed(g, old(bc.disk), lh, |lh|)
      ensures bc.writes == old(bc.writes) + InstallDisks(g, old(bc.disk), lh, |lh|)
    {
      hide Bcache.Valid, Coherent, Apart, Rested, Enough, GoodEntries, Installed, InstallDisks, LogHolds, HeaderOk;
      hide Table, UniqueKeys, Left;
      LeftEnds(pins != [], lh);
      HeaderFacts(g, bc.disk, bc.buf, pins, view);
      CacheFacts(bc);
      RestedSame(bc.buf);
      ghost var d := bc.disk;
      InstallNothing(g, d, lh);
      var tail := 0;
      while tail < |lh|
        invariant 0 <= tail <= |lh|
        invariant Valid() && Rested(old(bc.buf), bc.buf)
        invariant pins == Left(old(pins) != [], lh, tail)
        invariant old(pins) != [] ==> view == old(view)
        invariant bc.disk == Installed(g, d, lh, tail)
        invariant bc.writes == old(bc.writes) + InstallDisks(g, d, lh, tail)
      {
        HeaderFacts(g, bc.disk, bc.buf, pins, view);
        InstallStep(g, d, lh, tail);
        if old(pins) != [] { HoldsAt(g, d, lh, view, tail); }
        StillEnough(old(bc.buf), bc.buf, g, lh, old(pins), tail);
        ghost var before := bc.buf;
        InstallBlock(tail, old(pins) != []);
        RestedTwice(old(bc.buf), before, bc.buf);
        InstallOneMore(g, d, lh, tail, old(bc.writes));
        tail := tail + 1;
      }
    }

    /** recover_from_log(): the disk writes are those of `RecoverCrash`, one by one. */
    method RecoverFromLog()
      requires Valid() && Quiet(bc.buf) && pins == [] && GoodLog(g, bc.disk)
      modifies this, bc
      ensures Ready() && Quiet(bc.buf) && lh == [] && logged == []
      ensures outstanding == old(outstanding) && committing == old(committing)
      ensures bc.disk == Recovered(g, old(bc.disk)) && view == bc.disk
      ensures bc.writes == old(bc.writes) + RecoverDisks(g, old(bc.disk))
    {
      hide Bcache.Valid, Coherent, Quiet, Took, Gettable, Unheld, Installed, PutHead, Apart, Rested, Held, Table;
      hide Unused;
      CacheFacts(bc);
      HeaderFacts(g, bc.disk, bc.buf, pins, view);
      QuietFacts(bc.buf, g, []);
      LogBlockFacts(g, bc.disk, bc.buf, pins, view, [], g.start);
      var b := Read(g.start);
      OneTaken(old(bc.buf), bc.buf, g.start, b);
      lh := GetHead(bc.buf[b].data);
      Release(b);
      GivenBack(old(bc.buf), bc.buf, b);
      RestedFacts(old(bc.buf), bc.buf, g, []);
      QuietFacts(bc.buf, g, lh);
      ghost var before := bc.buf;
      InstallTrans();
      RestedFacts(before, bc.buf, g, []);
      QuietFacts(bc.buf, g, []);
      lh := [];
      before := bc.buf;
      WriteHead();
      RestedFacts(before, bc.buf, g, []);
      HeaderFacts(g, bc.disk, bc.buf, pins, view);
      RecoveredIsClean(g, old(bc.disk));
      base, logged := bc.disk, [];
      NothingLogged(g, base);
    }

    /** commit(): from the view to the disk, through the block writes of `CommitCrash`.
        Readers may hold any buffers but those of the log and of the logged blocks, if they
        leave one to recycle. */
    method Commit()
      requires Ready() && Apart(bc.buf, g, lh) && |lh| + Held(bc.buf) < NBUF
      modifies `lh, `view, `pins, bc
      ensures Ready() && Rested(old(bc.buf), bc.buf) && lh == []
      ensures SameHome(g, view, old(view)) && SameHome(g, bc.disk, view)
      ensures bc.writes == old(bc.writes) + CommitDisks(g, old(bc.disk), old(lh), Contents(old(view), old(lh)))
    {
      hide Bcache.Valid, Coherent, Apart, Rested, Held, GoodEntries, Logged, Installed, PutHead, SameHome, CommitDisks;
      hide Replays, Table;
      HeaderFacts(g, bc.disk, bc.buf, pins, view);
      CacheFacts(bc);
      RestedSame(bc.buf);
      if |lh| > 0 {
        ghost var es, cs := lh, Contents(view, lh);
        WriteLog();
        ghost var v1, buf1 := view, bc.buf;
        RestedFacts(old(bc.buf), buf1, g, es);
        ApartFrom(buf1, g, es, []);
        WriteHead();
        RestedTwice(old(bc.buf), buf1, bc.buf);
        RestedFacts(old(bc.buf), bc.buf, g, es);
        SameHomeChain(g, view, v1, old(view));
        SameHomeFlip(g, view, old(view));
        CommittedFacts(g, old(bc.disk), es, cs, old(view), view);
        ghost var buf2 := bc.buf;
        InstallTrans();
        RestedTwice(old(bc.buf), buf2, bc.buf);
        ghost var v2, buf3 := view, bc.buf;
        RestedFacts(old(bc.buf), buf3, g, es);
        ApartFrom(buf3, g, es, []);
        lh := [];
        WriteHead();
        RestedTwice(old(bc.buf), buf3, bc.buf);
        SameHomeChain(g, view, v2, old(view));
        CommitDone(g, old(bc.disk), es, cs, old(bc.writes));
      } else {
        SameHomeSelf(g, view);
        NoCommit(g, bc.disk);
      }
      HeaderFacts(g, bc.disk, bc.buf, pins, view);
      ReplaySameHome(g, base, logged, old(view), view);
    }

    /** One pass of the loop in begin_op(): admitted, or told to sleep. */
    method BeginOp() returns (admitted: bool)
      modifies `outstanding
      ensures admitted <==> !committing && |lh| + (old(outstanding) + 1) * MAXOPBLOCKS <= LOGSIZE
      ensures outstanding == if admitted then old(outstanding) + 1 else old(outstanding)
    {
      if committing {
        admitted := false;
      } else if |lh| + (outstanding + 1) * MAXOPBLOCKS > LOGSIZE {
        admitted := false;
      } else {
        outstanding := outstanding + 1;
        admitted := true;
      }
    }

    /** end_op(): the last operation out commits, and then all that was logged so far
        is on the disk. */
    method EndOp()
      requires Ready() && outstanding >= 1 && !committing
      requires outstanding == 1 ==> Apart(bc.buf, g, lh) && |lh| + Held(bc.buf) < NBUF
      modifies `outstanding, `committing, `lh, `view, `pins, bc
      ensures Ready() && outstanding == old(outstanding) - 1 && !committing
      ensures SameHome(g, view, old(view))
      ensures outstanding == 0 ==> lh == [] && SameHome(g, bc.disk, view) && Rested(old(bc.buf), bc.buf)
      ensures outstanding == 0 ==>
                bc.writes == old(bc.writes) + CommitDisks(g, old(bc.disk), old(lh), Contents(old(view), old(lh)))
      ensures outstanding > 0 ==>
                bc.disk == old(bc.disk) && bc.writes == old(bc.writes) && bc.buf == old(bc.buf) && lh == old(lh)
    {
      outstanding := outstanding - 1;
      if outstanding == 0 {
        committing := true;
        Commit();
        committing := false;
      }
    }

    /** One write of an operation: bread(), the change, log_write(), brelse(). */
    method WriteBlock(k: int, x: Block)
      requires Ready() && outstanding >= 1 && 0 <= k < |bc.disk| && !InLog(g, k)
      requires Unused(bc.buf, k) && |lh| + Held(bc.buf) < NBUF && |lh| < LOGSIZE && |lh| < g.size - 1
      modifies this, bc
      ensures Ready() && Rested(old(bc.buf), bc.buf) && outstanding == old(outstanding) && committing == old(committing)
      ensures |old(view)| == |bc.disk| && view == old(view)[k := x] && lh == Absorb(old(lh), k)
      ensures base == old(base) && logged == old(logged) + [(k, x)]
      ensures bc.disk == old(bc.disk) && bc.writes == old(bc.writes)
    {
      hide Bcache.Valid, Coherent, Took, Gettable, Unheld, GoodLog, Replays, Table, Unused, Rested, Held;
      CacheFacts(bc);
      HeaderFacts(g, bc.disk, bc.buf, pins, view);
      AnyBuffer(g, bc.disk, bc.buf, pins, view, k);
      UnusedFree(bc.buf, k);
      var b := Bread(k);
      OneTaken(old(bc.buf), bc.buf, k, b);
      HeaderFacts(g, bc.disk, bc.buf, pins, view);
      Modify(b, x);
      LogWrite(b);
      HeaderFacts(g, bc.disk, bc.buf, pins, view);
      Release(b);
      GivenBack(old(bc.buf), bc.buf, b);
    }

    /** The writes of an operation that has begun, one after the other. */
    method WriteAll(ks: seq<int>, xs: seq<Block>)
      requires Ready() && lh == [] && outstanding == 1 && view == bc.disk && g.size > MAXOPBLOCKS
      requires |ks| == |xs| <= MAXOPBLOCKS && forall t :: 0 <= t < |ks| ==> 0 <= ks[t] < |bc.disk| && !InLog(g, ks[t])
      requires Apart(bc.buf, g, ks) && |ks| + Held(bc.buf) < NBUF
      modifies this, bc
      ensures Ready() && Rested(old(bc.buf), bc.buf) && outstanding == 1 && committing == old(committing)
      ensures |lh| <= |ks| && (forall t :: 0 <= t < |lh| ==> lh[t] in ks) && view == Applied(old(bc.disk), ks, xs)
      ensures bc.disk == old(bc.disk) && bc.writes == old(bc.writes)
    {
      hide Bcache.Valid, Coherent, Apart, Rested, Held, Unused, GoodLog, GoodEntries, Replays, Table, UniqueKeys;
      CacheFacts(bc);
      RestedSame(bc.buf);
      var i := 0;
      while i < |ks|
        invariant 0 <= i <= |ks| && Ready() && Rested(old(bc.buf), bc.buf) && outstanding == 1 && |lh| <= i
        invariant committing == old(committing) && forall t :: 0 <= t < |lh| ==> lh[t] in ks
        invariant bc.disk == old(bc.disk) && bc.writes == old(bc.writes) && view == Stored(old(bc.disk), ks, xs, i)
      {
        RestedFacts(old(bc.buf), bc.buf, g, ks);
        ApartFacts(bc.buf, g, ks, ks[i]);
        ghost var before := bc.buf;
        WriteBlock(ks[i], xs[i]);
        RestedTwice(old(bc.buf), before, bc.buf);
        i := i + 1;
      }
    }

    /** A whole operation of a single process on an idle log, with readers of other blocks.
        The writes to the disk are such that a crash after any of them and a recovery shows
        none of the operation, or all of it. */
    method Operation(ks: seq<int>, xs: seq<Block>)
      requires Ready() && lh == [] && outstanding == 0 && !committing && g.size > MAXOPBLOCKS
      requires |ks| == |xs| <= MAXOPBLOCKS && forall t :: 0 <= t < |ks| ==> 0 <= ks[t] < |bc.disk| && !InLog(g, ks[t])
      requires Apart(bc.buf, g, ks) && |ks| + Held(bc.buf) < NBUF
      modifies this, bc
      ensures Ready() && Rested(old(bc.buf), bc.buf) && lh == [] && outstanding == 0 && !committing
      ensures SameHome(g, bc.disk, Applied(old(bc.disk), ks, xs))
      ensures |old(bc.writes)| <= |bc.writes| && bc.writes[..|old(bc.writes)|] == old(bc.writes)
      ensures forall j :: |old(bc.writes)| <= j < |bc.writes| ==>
                NoneOrAll(g, bc.writes[j], old(bc.disk), Applied(old(bc.disk), ks, xs))
    {
      hide Bcache.Valid, Coherent, Apart, Rested, Held, GoodLog, GoodEntries, Replays, SameHome, CommitDisks, NoneOrAll;
      hide Stored;
      ghost var d := bc.disk;
      HeaderFacts(g, bc.disk, bc.buf, pins, view);
      var admitted := BeginOp();
      assert admitted;
      WriteAll(ks, xs);
      ghost var es, v, before := lh, view, bc.buf;
      HeaderFacts(g, bc.disk, bc.buf, pins, view);
      AppliedIsView(g, d, bc.buf, lh, view);
      RestedFacts(old(bc.buf), bc.buf, g, ks);
      ApartFrom(bc.buf, g, ks, lh);
      EndOp();
      RestedTwice(old(bc.buf), before, bc.buf);
      SameHomeChain(g, bc.disk, view, v);
      WritesAreSafe(g, d, es, Contents(v, es), v, old(bc.writes), bc.writes);
    }
  }
}
