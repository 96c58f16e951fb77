/** The file system on the log, with power failures: each call of writei() or itrunc() is one
transaction of the blocks that it passes to log_write(). Whenever the machine stops and
however often recovery is interrupted, the file system that comes up is sound, and it is the
one before the call or the one after it. */
module FsCrash {

  import opened Basics
  import L = LogDisk
  import opened DiskLayout
  import opened Fs
  import opened FsImage

  datatype Cmd =
    | Write(f: nat, off: nat, src: seq<int>)
    | Truncate(f: nat)

  /** One call; `stop` is the block write of commit() before which the power fails, if there
      are so many, and each number in `tries` is where a recovery is cut short. */
  datatype Call = Call(cmd: Cmd, stop: nat, tries: seq<nat>)

  /** What became of a call: whether it took effect, and the `n` blocks of its transaction. */
  datatype Outcome =
    | Committed(n: nat)
    | Crashed(n: nat, kept: bool)
    | Panicked(n: nat)          // no free block, or too big a transaction

  predicate TookEffect(o: Outcome) {
    o.Committed? || (o.Crashed? && o.kept)
  }

  predicate CmdOk(l: Layout, c: Cmd) {
    c.f < l.ninodes && (c.Write? ==> c.off < WORD && |c.src| < WORD && AreBytes(c.src))
  }

  /** What a call makes of the file `f` with contents `x`. */
  ghost function Effect(c: Cmd, f: nat, x: seq<int>): seq<int> {
    if f != c.f then x
    else if c.Truncate? then []
    else if Fs.Writable(|x|, c.off, |c.src|) then Splice(x, c.off, c.src)
    else x
  }

  /** A power failure keeps the call exactly from the header write on. */
  predicate Fair(c: Call, o: Outcome) {
    var all := if o.n == 0 then 0 else 2 * o.n + 2;
    match o
    case Committed(_) => c.stop >= all
    case Crashed(n, kept) => c.stop < all && (kept <==> c.stop > n)
    case Panicked(_) => true
  }

  // ------------------------------------------------------------ what a call comes to

  /** The free blocks that a call takes. */
  function Needs(inodes: seq<Inode>, c: Cmd): int {
    if c.Write? && c.f < |inodes| && Fs.Writable(inodes[c.f].size, c.off, |c.src|)
    then Allocates(inodes[c.f].size, c.off, |c.src|)
    else 0
  }

  predicate Fitting(l: Layout, s: State) {
    SuperOk(l.sb) && DiskOk(s.disk, l.sb) && |s.inodes| == l.ninodes
  }

  /** The blocks that a call logs, counted from the file system before it. */
  ghost function Logs(l: Layout, s: State, c: Cmd): nat
    requires Fitting(l, s) && c.f < l.ninodes
  {
    match c
    case Write(f, off, src) =>
      if Fs.Writable(s.inodes[f].size, off, |src|)
      then WriteCount(s, l.sb, f, off, |src|) + (if off + |src| > s.inodes[f].size then 1 else 0)
      else 0
    case Truncate(f) => |Maps(l.sb, FileBlocks(s, f))| + 1
  }

  ghost predicate NoSpace(l: Layout, s: State, c: Cmd)
    requires Fitting(l, s)
  {
    Needs(s.inodes, c) > FreeFrom(s.disk, l.sb, l.sb.datastart)
  }

  /** The kernel panics: balloc() finds no block, or log_write() no room. */
  ghost predicate PanicsOn(l: Layout, g: L.Geometry, s: State, c: Cmd)
    requires Fitting(l, s) && c.f < l.ninodes
  {
    NoSpace(l, s, c) || Logs(l, s, c) > L.LOGSIZE || Logs(l, s, c) >= g.size
  }

  ghost predicate SameImage(l: Layout, s: State, t: State) {
    && t.inodes == s.inodes && |t.disk| == |s.disk|
    && forall y :: l.sb.bmapstart <= y < |s.disk| ==> t.disk[y] == s.disk[y]
  }

  /** Free blocks hold what they held. */
  ghost predicate FreeKept(l: Layout, s: State, t: State) {
    |t.disk| == |s.disk| == l.sb.size
    && forall y :: l.sb.datastart <= y < l.sb.size && !Bit(t.disk, l.sb, y) ==> t.disk[y] == s.disk[y]
  }

  /** Every block has one owner, the bitmap says so, and no file has a hole. */
  ghost predicate Sound(s: State, sb: Super, owner: Owner) {
    Own(s, sb, owner) && forall f :: 0 <= f < |s.inodes| ==> FileOk(s, f)
  }

  /** A call, from the file system `s` to `t`. */
  ghost predicate Happens(l: Layout, g: L.Geometry, s: State, c: Call, o: Outcome, t: State) {
    && Fitting(l, s) && |t.inodes| == l.ninodes && c.cmd.f < l.ninodes
    && (o.Panicked? <==> PanicsOn(l, g, s, c.cmd))
    && (!NoSpace(l, s, c.cmd) ==> o.n == Logs(l, s, c.cmd)) && Fair(c, o)
    && (exists owner :: Sound(t, l.sb, owner))
    && FreeKept(l, s, t) && (!TookEffect(o) ==> SameImage(l, s, t))
    && forall f :: 0 <= f < l.ninodes ==>
         Contents(t, f) == if TookEffect(o) then Effect(c.cmd, f, Contents(s, f)) else Contents(s, f)
  }

  /** What filewrite() counts on: a write logs its data blocks, the indirect block, the inode and
      bitmap blocks, and a truncation bitmap blocks and the inode. */
  lemma LogsBound(l: Layout, s: State, owner: Owner, c: Cmd)
    requires Own(s, l.sb, owner) && |s.inodes| == l.ninodes && c.f < l.ninodes
    ensures var maps := l.sb.size / BPB + 1;
            Logs(l, s, c) <= if c.Write? then (|c.src| + BSIZE - 2) / BSIZE + 1 + 2 + maps else 1 + maps
  {
    hide Maps;
    OwnParts(s, l.sb, owner);
    match c
    case Write(f, off, src) =>
      if Fs.Writable(s.inodes[f].size, off, |src|) { WriteBound(s, l.sb, f, off, |src|); }
    case Truncate(f) =>
      HeldIsFile(s, l.sb, owner, f);
      MapsBelow(l.sb, FileBlocks(s, f));
  }

  /** Every chunk of filewrite() logs more than MAXOPBLOCKS blocks. With one bitmap block, as on
      the disk of mkfs, it logs at most 17, and fits into the log by itself. */
  lemma ChunkLogs(l: Layout, s: State, c: Cmd)
    requires Fitting(l, s) && c.f < l.ninodes && c.Write? && |c.src| == CHUNK
    requires Fs.Writable(s.inodes[c.f].size, c.off, CHUNK)
    ensures L.MAXOPBLOCKS < 13 <= Logs(l, s, c) <= 16 + (l.sb.size / BPB + 1)
  {
    WriteBound(s, l.sb, c.f, c.off, CHUNK);
  }

  /** The contents of `f` after the first `n` calls. */
  ghost function Replay(calls: seq<Call>, outs: seq<Outcome>, n: nat, f: nat, x: seq<int>): seq<int>
    requires n <= |calls| == |outs|
  {
    if n == 0 then x
    else if TookEffect(outs[n - 1]) then Effect(calls[n - 1].cmd, f, Replay(calls, outs, n - 1, f, x))
    else Replay(calls, outs, n - 1, f, x)
  }

  lemma {:induction false} ReplaySame(calls: seq<Call>, outs: seq<Outcome>, calls': seq<Call>, outs': seq<Outcome>,
                                      n: nat, f: nat, x: seq<int>)
    requires n <= |calls| == |outs| && n <= |calls'| == |outs'| && calls[..n] == calls'[..n] && outs[..n] == outs'[..n]
    ensures Replay(calls, outs, n, f, x) == Replay(calls', outs', n, f, x)
  {
    if n > 0 {
      assert calls[n - 1] == calls[..n][n - 1] && outs[n - 1] == outs[..n][n - 1];
      assert calls[..n - 1] == calls[..n][..n - 1] && outs[..n - 1] == outs[..n][..n - 1];
      ReplaySame(calls, outs, calls', outs', n - 1, f, x);
    }
  }

  // ------------------------------------------------------------ the transaction of a call

  /** The disk is one that iupdate() can write to. */
  ghost predicate Readable(d: L.Disk, l: Layout) {
    |d| == l.sb.size && forall k :: l.inodestart <= k < l.sb.bmapstart ==> k < |d| && |d[k].words| == L.BLOCK_WORDS
  }

  lemma CanEncode(d: L.Disk, l: Layout, g: L.Geometry, s: State, owner: Owner)
    requires Placed(l, g) && Readable(d, l) && Own(s, l.sb, owner) && |s.inodes| == l.ninodes
    ensures Encodable(d, l, s)
  {
  }

  /** A call in memory has changed only what it logged, and logged as much as was to be expected. */
  ghost predicate Ran(l: Layout, s: State, t: State, c: Cmd, logged: set<int>, updated: set<nat>)
    requires Fitting(l, s) && c.f < l.ninodes
  {
    && OnlyThese(l, s, t, logged, updated) && FreeKept(l, s, t) && updated <= {c.f}
    && (forall y :: y in logged ==> l.sb.bmapstart <= y < l.sb.size)
    && |logged| + |updated| == Logs(l, s, c)
    && (forall f :: 0 <= f < l.ninodes ==> Contents(t, f) == Effect(c, f, Contents(s, f)))
  }

  lemma WriteRan(l: Layout, s: State, t: State, o: Owner, p: Owner, c: Cmd, logged: set<int>, updated: set<nat>)
    requires Fitting(l, s) && c.Write? && c.f < l.ninodes == |t.inodes| && Own(s, l.sb, o) && Own(t, l.sb, p)
    requires FileOk(t, c.f) && Fs.Writable(s.inodes[c.f].size, c.off, |c.src|)
    requires t.inodes[c.f].size == Max(s.inodes[c.f].size, c.off + |c.src|)
    requires |p| == |o| + Allocates(s.inodes[c.f].size, c.off, |c.src|)
    requires WriteNoted(l.sb, s, t, o, p, {}, logged, c.f, c.off, |c.src|, s.inodes[c.f].size)
    requires updated == if c.off + |c.src| > s.inodes[c.f].size then {c.f} else {}
    requires forall g :: 0 <= g < l.ninodes && g !in updated ==> t.inodes[g] == s.inodes[g]
    requires forall f :: 0 <= f < l.ninodes ==> Contents(t, f) == Effect(c, f, Contents(s, f))
    ensures Ran(l, s, t, c, logged, updated)
  {
    hide Own, WriteNoted, Contents, Effect, Allocates, WriteCount, Bit, NBlocks;
    WriteCounted(s, t, l.sb, o, p, logged, c.f, c.off, |c.src|);
    WriteParts(s, t, l.sb, o, p, logged, c.f, c.off, |c.src|);
    OwnParts(t, l.sb, p);
    forall y | l.sb.datastart <= y < l.sb.size && !Bit(t.disk, l.sb, y) ensures t.disk[y] == s.disk[y] {
      BitIs(t, l.sb, p, y);
    }
  }

  lemma TruncateRan(l: Layout, s: State, t: State, o: Owner, p: Owner, c: Cmd, logged: set<int>, updated: set<nat>)
    requires Fitting(l, s) && c.Truncate? && c.f < l.ninodes == |t.inodes| && Own(s, l.sb, o) && Own(t, l.sb, p)
    requires logged == Maps(l.sb, HeldBy(o, c.f)) && Confined(s.disk, t.disk, logged) && updated == {c.f}
    requires forall g :: 0 <= g < l.ninodes && g != c.f ==> t.inodes[g] == s.inodes[g]
    requires forall f :: 0 <= f < l.ninodes ==> Contents(t, f) == Effect(c, f, Contents(s, f))
    ensures Ran(l, s, t, c, logged, updated)
  {
    hide Own, Maps, Contents, Effect, Bit, HeldBy, FileBlocks;
    HeldIsFile(s, l.sb, o, c.f);
    MapsBelow(l.sb, HeldBy(o, c.f));
    OwnParts(t, l.sb, p);
  }

  lemma NothingRan(l: Layout, s: State, c: Cmd)
    requires Fitting(l, s) && c.Write? && c.f < l.ninodes && !Fs.Writable(s.inodes[c.f].size, c.off, |c.src|)
    ensures Ran(l, s, s, c, {}, {})
  {
    forall f | 0 <= f < l.ninodes ensures |Contents(s, f)| == s.inodes[f].size {}
  }

  lemma OwnParts(s: State, sb: Super, owner: Owner)
    requires Own(s, sb, owner)
    ensures SuperOk(sb) && DiskOk(s.disk, sb)
  {
  }

  /** The set in some order. */
  method Listed(blocks: set<int>) returns (es: seq<int>)
    ensures |es| == |blocks| && forall k :: k in es <==> k in blocks
  {
    es := [];
    var left := blocks;
    while left != {}
      invariant left <= blocks && |es| + |left| == |blocks|
      invariant forall k :: k in es <==> k in blocks && k !in left
      decreases left
    {
      ghost var some := SomeMember(left);
      var k :| k in left;
      es, left := es + [k], left - {k};
    }
  }

  /** The blocks of a transaction: they are as many as the call logs, and none is the log's. */
  lemma BlocksLogged(l: Layout, g: L.Geometry, s: State, t: State, c: Cmd, logged: set<int>, updated: set<nat>)
    requires Placed(l, g) && Fitting(l, s) && c.f < l.ninodes && Ran(l, s, t, c, logged, updated)
    ensures |logged + InodeBlocks(l, updated)| == Logs(l, s, c)
    ensures forall k :: k in logged + InodeBlocks(l, updated) ==> l.inodestart <= k < l.sb.size && !L.InLog(g, k)
  {
    hide Logs, OnlyThese, FreeKept, Contents;
    var ib := InodeBlocks(l, updated);
    assert ib == if updated == {} then {} else {l.inodestart + c.f / IPB} by {
      if updated != {} { assert updated == {c.f}; }
    }
    assert logged !! ib;
  }

  /** The transaction of a call is one that the log takes, if it is not too big. */
  lemma GoodTransaction(d: L.Disk, l: Layout, g: L.Geometry, s: State, t: State, c: Cmd, es: seq<int>,
                        logged: set<int>, updated: set<nat>)
    requires Placed(l, g) && Fitting(l, s) && c.f < l.ninodes && Ran(l, s, t, c, logged, updated)
    requires Shows(d, l, s) && Readable(d, l) && Encodable(d, l, t)
    requires forall k :: k in es <==> k in logged + InodeBlocks(l, updated)
    ensures forall i :: 0 <= i < |es| ==> 0 <= es[i] < |d|
    ensures |es| <= L.LOGSIZE && |es| < g.size ==> L.GoodEntries(g, d, es)
    ensures var x := L.Applied(d, es, Picked(Encode(d, l, t), es)); |x| == |d| && Shows(x, l, t) && Readable(x, l)
  {
    hide Encode, Shows, Contents, Logs, L.Applied, Encodable, Picked;
    BlocksLogged(l, g, s, t, c, logged, updated);
    forall i | 0 <= i < |es| ensures 0 <= es[i] < |d| && !L.InLog(g, es[i]) { assert es[i] in es; }
    PatchShows(d, l, s, t, es, logged, updated);
  }

  /** What a disk with the same home blocks shows. */
  lemma SameShown(d: L.Disk, e: L.Disk, l: Layout, g: L.Geometry, s: State)
    requires L.SameHome(g, d, e) && Placed(l, g) && Shows(e, l, s) && Readable(e, l)
    ensures Shows(d, l, s) && Readable(d, l)
  {
    HomeDecides(d, e, l, g, s);
    hide Shows;
    forall k | l.inodestart <= k < l.sb.bmapstart ensures |d[k].words| == L.BLOCK_WORDS { assert !L.InLog(g, k); }
  }

  /** The end of a commit, stopped after `j` block writes. */
  lemma Stopped(d: L.Disk, e: L.Disk, l: Layout, g: L.Geometry, s: State, t: State, es: seq<int>, cs: seq<L.Block>,
                j: nat)
    requires L.Clean(g, d) && Placed(l, g) && Shows(d, l, s) && Readable(d, l) && Shows(e, l, t) && Readable(e, l)
    requires |e| == |d| && L.GoodEntries(g, d, es) && |cs| == |es| && j <= L.CommitWrites(es)
    requires L.Applied(d, es, cs) == e
    ensures var c := L.CommitCrash(g, d, es, cs, j);
            && L.GoodLog(g, c) && Readable(L.Recovered(g, c), l)
            && Shows(L.Recovered(g, c), l, if j > |es| then t else s)
            && (j == L.CommitWrites(es) ==> L.Clean(g, c) && Shows(c, l, t) && Readable(c, l))
  {
    hide L.CommitCrash, L.Recovered, Shows, Readable, L.GoodLog, L.Clean, L.Applied;
    CleanLog(g, d);
    L.CommitIsAtomic(g, d, es, cs, j);
    var c := L.CommitCrash(g, d, es, cs, j);
    SameShown(L.Recovered(g, c), if j > |es| then e else d, l, g, if j > |es| then t else s);
    if j == L.CommitWrites(es) {
      if |es| == 0 {
        NothingToCommit(g, d, e, es, cs);
        SameShown(d, d, l, g, s);
      } else {
        L.CommitEndsClean(g, d, es, cs);
        SameShown(c, e, l, g, t);
      }
    }
  }

  lemma CleanLog(g: L.Geometry, d: L.Disk)
    requires L.Clean(g, d)
    ensures L.GoodLog(g, d) && L.Entries(g, d) == [] && L.Fits(g, d) && |d[g.start].words| == L.BLOCK_WORDS
  {
  }

  lemma NothingToCommit(g: L.Geometry, d: L.Disk, e: L.Disk, es: seq<int>, cs: seq<L.Block>)
    requires L.GoodLog(g, d) && L.GoodEntries(g, d, es) && es == [] && |cs| == |es| && L.Applied(d, es, cs) == e
    ensures e == d && L.CommitCrash(g, d, es, cs, 0) == d
  {
  }

  lemma Unchanged(g: L.Geometry, d: L.Disk)
    requires L.Clean(g, d)
    ensures L.SameHome(g, L.Recovered(g, d), d)
  {
  }

  lemma ReadState(d: L.Disk, l: Layout, s: State, owner: Owner)
    requires Shows(d, l, s) && Sound(s, l.sb, owner) && |s.inodes| == l.ninodes
    ensures var s' := FsOf(d, l);
            && Sound(s', l.sb, owner) && |s'.inodes| == l.ninodes && Shows(d, l, s') && SameImage(l, s, s')
            && forall f :: 0 <= f < l.ninodes ==> Contents(s', f) == Contents(s, f)
  {
    forall b | 0 <= b < |d| ensures IsBlock(BytesOf(d[b])) { BytesAreBytes(d[b]); }
    ReadBack(d, l, s, owner);
  }

  /** Free blocks stay, through a call and a reboot. */
  lemma FreeStays(l: Layout, s: State, t: State, u: State, owner: Owner)
    requires SuperOk(l.sb) && FreeKept(l, s, t) && SameImage(l, t, u) && Own(t, l.sb, owner) && Own(u, l.sb, owner)
    ensures FreeKept(l, s, u)
  {
    hide Addr;
    forall y | l.sb.datastart <= y < l.sb.size && !Bit(u.disk, l.sb, y) ensures u.disk[y] == s.disk[y] {
      BitIs(u, l.sb, owner, y);
      BitIs(t, l.sb, owner, y);
    }
  }

  lemma SameFree(l: Layout, s: State, owner: Owner)
    requires Own(s, l.sb, owner)
    ensures FreeKept(l, s, s) && SameImage(l, s, s)
  {
  }

  lemma Lengths(l: Layout, s: State)
    requires |s.inodes| == l.ninodes
    ensures forall f :: 0 <= f < l.ninodes ==> |Contents(s, f)| == s.inodes[f].size
  {
  }

  lemma CmdParts(l: Layout, c: Cmd)
    requires CmdOk(l, c)
    ensures c.f < l.ninodes
  {
  }

  lemma RanParts(l: Layout, s: State, t: State, c: Cmd, logged: set<int>, updated: set<nat>)
    requires Fitting(l, s) && c.f < l.ninodes && Ran(l, s, t, c, logged, updated)
    ensures FreeKept(l, s, t) && |t.inodes| == l.ninodes
    ensures forall f :: 0 <= f < l.ninodes ==> Contents(t, f) == Effect(c, f, Contents(s, f))
  {
  }

  lemma HappensTo(l: Layout, g: L.Geometry, s: State, c: Call, o: Outcome, t: State, f: nat)
    requires Happens(l, g, s, c, o, t) && f < l.ninodes
    ensures f < |s.inodes| && f < |t.inodes|
    ensures Contents(t, f) == if TookEffect(o) then Effect(c.cmd, f, Contents(s, f)) else Contents(s, f)
  {
  }

  class Mount {
    const l: Layout
    const g: L.Geometry
    var fs: FileSystem      // in memory
    var disk: L.Disk

    ghost predicate Valid()
      reads this, fs
    {
      && Placed(l, g) && fs.Valid() && fs.sb == l.sb && |fs.inodes| == l.ninodes
      && L.Clean(g, disk) && Readable(disk, l) && Shows(disk, l, fs.St())
    }

    /** The disk that mkfs makes. */
    constructor (l: Layout, g: L.Geometry)
      requires Placed(l, g) && l.sb.size > 0
      ensures Valid() && this.l == l && this.g == g && fresh(fs) && fs.owner == map[]
      ensures forall f :: 0 <= f < l.ninodes ==> Contents(fs.St(), f) == []
      ensures forall b :: l.sb.datastart <= b < l.sb.size ==> fs.disk[b] == Zeros(BSIZE)
    {
      var x := new FileSystem(l.sb, l.ninodes);
      var blank := seq(l.sb.size, _ => L.Block(Zeros(L.BLOCK_WORDS)));
      CanEncode(blank, l, g, x.St(), x.owner);
      EncodeShows(blank, l, x.St());
      var d := Encode(blank, l, x.St());
      hide Encode, Shows;
      assert d[g.start] == blank[g.start] by { assert g.start < l.inodestart; }
      ZerosAt(L.BLOCK_WORDS, 0);
      assert L.GetHead(d[g.start]) == [];
      this.l, this.g, fs, disk := l, g, x, d;
    }

    /** Recovery, cut short at each of `tries` and then completed; `s` is what it brings up. */
    method Reboot(tries: seq<nat>, ghost s: State, ghost owner: Owner)
      requires Placed(l, g) && L.GoodLog(g, disk) && Readable(L.Recovered(g, disk), l)
      requires Shows(L.Recovered(g, disk), l, s)
      requires Sound(s, l.sb, owner) && |s.inodes| == l.ninodes
      modifies this`fs, this`disk
      ensures Valid() && fresh(fs) && fs.owner == owner && SameImage(l, s, fs.St())
      ensures forall f :: 0 <= f < l.ninodes ==> Contents(fs.St(), f) == Contents(s, f)
    {
      hide Shows, L.Recovered, L.GoodLog, Readable, Sound, Encode, L.RecoverCrash, L.Entries, Placed, FsOf, SameImage;
      ghost var goal := L.Recovered(g, disk);
      var i := 0;
      while i < |tries|
        invariant 0 <= i <= |tries| && L.GoodLog(g, disk) && L.Recovered(g, disk) == goal
      {
        var n := |L.Entries(g, disk)| + 1;
        var j := if tries[i] < n then tries[i] else n;
        L.RecoveryRestarts(g, disk, j);
        disk := L.RecoverCrash(g, disk, j);
        i := i + 1;
      }
      L.RecoveredIsClean(g, disk);
      disk := L.Recovered(g, disk);
      ReadState(disk, l, s, owner);
      fs := new FileSystem.Read(l.sb, FsOf(disk, l), owner);
    }

    /** The call in memory, from begin_op() on. */
    method Execute(c: Cmd)
      requires fs.Valid() && fs.sb == l.sb && |fs.inodes| == l.ninodes && CmdOk(l, c) && Fitting(l, fs.St())
      requires Fs.Room(fs.sb, fs.owner, Needs(fs.inodes, c))
      modifies fs
      ensures fs.Valid() && |fs.inodes| == l.ninodes && Ran(l, old(fs.St()), fs.St(), c, fs.logged, fs.updated)
    {
      hide Own, FileOk, Ran;
      fs.logged, fs.updated := {}, {};
      match c
      case Write(_, _, _) => ExecuteWrite(c);
      case Truncate(_) => ExecuteTruncate(c);
    }

    method ExecuteWrite(c: Cmd)
      requires fs.Valid() && fs.sb == l.sb && |fs.inodes| == l.ninodes && CmdOk(l, c) && Fitting(l, fs.St())
      requires c.Write? && Fs.Room(fs.sb, fs.owner, Needs(fs.inodes, c)) && fs.logged == {} == fs.updated
      modifies fs
      ensures fs.Valid() && |fs.inodes| == l.ninodes && Ran(l, old(fs.St()), fs.St(), c, fs.logged, fs.updated)
    {
      hide Own, FileOk, Splice, Ran, WriteNoted, Contents;
      ghost var s, o := fs.St(), fs.owner;
      Lengths(l, s);
      var r := fs.Writei(c.f, c.off, c.src);
      if r < 0 {
        NothingRan(l, s, c);
      } else {
        WriteRan(l, s, fs.St(), o, fs.owner, c, fs.logged, fs.updated);
      }
    }

    method ExecuteTruncate(c: Cmd)
      requires fs.Valid() && fs.sb == l.sb && |fs.inodes| == l.ninodes && CmdOk(l, c) && Fitting(l, fs.St())
      requires c.Truncate? && fs.logged == {} == fs.updated
      modifies fs
      ensures fs.Valid() && |fs.inodes| == l.ninodes && Ran(l, old(fs.St()), fs.St(), c, fs.logged, fs.updated)
    {
      hide Own, FileOk, Ran, Confined, Maps, Contents;
      ghost var s, o := fs.St(), fs.owner;
      fs.Itrunc(c.f);
      assert {} + Maps(l.sb, HeldBy(o, c.f)) == Maps(l.sb, HeldBy(o, c.f));
      TruncateRan(l, s, fs.St(), o, fs.owner, c, fs.logged, fs.updated);
    }

    /** One call: it runs in memory, and its blocks are committed. */
    method Do(c: Call) returns (o: Outcome)
      requires Valid() && CmdOk(l, c.cmd)
      modifies this`fs, this`disk, fs
      ensures Valid() && (fs == old(fs) || fresh(fs)) && Happens(l, g, old(fs.St()), c, o, fs.St())
    {
      hide Shows, Readable, Encode, Effect, L.Clean, L.GoodLog, L.Recovered, L.CommitCrash, L.Applied, Logs, Ran;
      hide L.GoodEntries, Encodable, Placed, Contents, FileOk, Own, Needs, CmdOk, Picked, Fs.Room, FreeKept, SameImage;
      ghost var s, p := fs.St(), fs.owner;
      OwnParts(s, l.sb, p);
      SameFree(l, s, p);
      assert Sound(s, l.sb, p);
      RoomCounted(s, l.sb, p, Needs(fs.inodes, c.cmd));
      CmdParts(l, c.cmd);
      if Needs(fs.inodes, c.cmd) > FreeFrom(fs.disk, l.sb, l.sb.datastart) { return Panicked(0); }
      Execute(c.cmd);
      ghost var t, q := fs.St(), fs.owner;
      assert Sound(t, l.sb, q);
      CanEncode(disk, l, g, t, q);
      RanParts(l, s, t, c.cmd, fs.logged, fs.updated);
      BlocksLogged(l, g, s, t, c.cmd, fs.logged, fs.updated);
      var es := Listed(fs.logged + InodeBlocks(l, fs.updated));
      GoodTransaction(disk, l, g, s, t, c.cmd, es, fs.logged, fs.updated);
      CleanLog(g, disk);
      if |es| > L.LOGSIZE || |es| >= g.size {
        Unchanged(g, disk);
        SameShown(L.Recovered(g, disk), disk, l, g, s);
        Reboot(c.tries, s, p);
        FreeStays(l, s, s, fs.St(), p);
        assert Sound(fs.St(), l.sb, fs.owner);
        return Panicked(|es|);
      }
      var cs, all := Picked(Encode(disk, l, fs.St()), es), L.CommitWrites(es);
      var j := if c.stop < all then c.stop else all;
      Stopped(disk, L.Applied(disk, es, cs), l, g, s, t, es, cs, j);
      disk := L.CommitCrash(g, disk, es, cs, j);
      if c.stop >= all { return Committed(|es|); }
      o := Crashed(|es|, j > |es|);
      if j > |es| {
        Reboot(c.tries, t, q);
        FreeStays(l, s, t, fs.St(), q);
        assert Sound(fs.St(), l.sb, fs.owner);
      } else {
        Reboot(c.tries, s, p);
        FreeStays(l, s, s, fs.St(), p);
        assert Sound(fs.St(), l.sb, fs.owner);
      }
    }

    /** Any number of calls, with power failures anywhere: a sound file system that has
        exactly the calls whose header was written. `trace` is the file system before the
        first call and after each. */
    method Life(calls: seq<Call>) returns (outs: seq<Outcome>, ghost trace: seq<State>)
      requires Valid() && forall i :: 0 <= i < |calls| ==> CmdOk(l, calls[i].cmd)
      modifies this`fs, this`disk, fs
      ensures Valid() && |outs| == |calls| && |trace| == |calls| + 1
      ensures trace[0] == old(fs.St()) && trace[|calls|] == fs.St()
      ensures forall i :: 0 <= i < |calls| ==> Happens(l, g, trace[i], calls[i], outs[i], trace[i + 1])
      ensures forall f :: 0 <= f < l.ninodes ==>
                Contents(fs.St(), f) == Replay(calls, outs, |calls|, f, old(Contents(fs.St(), f)))
    {
      hide Shows, Readable, L.Clean, Placed, Own, FileOk, Contents, Effect, CmdOk, Happens;
      outs, trace := [], [fs.St()];
      var i := 0;
      while i < |calls|
        invariant 0 <= i <= |calls| && |outs| == i && |trace| == i + 1 && Valid() && (fs == old(fs) || fresh(fs))
        invariant trace[0] == old(fs.St()) && trace[i] == fs.St()
        invariant forall k :: 0 <= k < i ==> Happens(l, g, trace[k], calls[k], outs[k], trace[k + 1])
        invariant forall f :: 0 <= f < l.ninodes ==>
                    Contents(fs.St(), f) == Replay(calls[..i], outs, i, f, old(Contents(fs.St(), f)))
      {
        ghost var s := fs.St();
        var o := Do(calls[i]);
        ghost var before := outs;
        outs, trace := outs + [o], trace + [fs.St()];
        forall f | 0 <= f < l.ninodes
          ensures Contents(fs.St(), f) == Replay(calls[..i + 1], outs, i + 1, f, old(Contents(fs.St(), f)))
        {
          HappensTo(l, g, s, calls[i], o, fs.St(), f);
          ReplaySame(calls[..i + 1], outs, calls[..i], before, i, f, old(Contents(fs.St(), f)));
        }
        i := i + 1;
      }
      assert calls[..|calls|] == calls;
    }
  }
}
