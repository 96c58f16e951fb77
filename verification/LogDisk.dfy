/** The on-disk redo log of log.c, as it looks between any two block writes.

A disk is a sequence of blocks and one block write is atomic. `CommitCrash` and
`RecoverCrash` give the disk after the first `j` block writes of commit() and of
recover_from_log(); a power failure leaves one of those disks behind. The theorems
say what a later, completed recovery makes of it. */
module LogDisk {

  const BLOCK_WORDS := 128   // BSIZE / sizeof(uint)
  const MAXOPBLOCKS := 10
  const LOGSIZE := 30        // MAXOPBLOCKS * 3

  /** One disk block, as the words it holds. */
  datatype Block = Block(words: seq<int>)
  type Disk = seq<Block>

  /** log.start and log.size: the header block and the blocks behind it. */
  datatype Geometry = Geometry(start: nat, size: nat)

  predicate InLog(g: Geometry, k: int) {
    g.start <= k < g.start + g.size
  }

  predicate Fits(g: Geometry, d: Disk) {
    0 < g.size && g.start + g.size <= |d| < 0x1_0000_0000
  }

  /** Two disks with the same file system: every block outside the log agrees. */
  ghost predicate SameHome(g: Geometry, d: Disk, e: Disk) {
    |d| == |e| && forall k :: 0 <= k < |d| && !InLog(g, k) ==> d[k] == e[k]
  }

  // ---------------------------------------------------------------- header

  /** What write_head() does to the header block: `n` and the first `n` entries
      are stored, the words behind them keep what they held. */
  function PutHead(b: Block, es: seq<int>): (r: Block)
    requires |b.words| == BLOCK_WORDS && |es| <= LOGSIZE
  {
    Block([|es|] + es + b.words[1 + |es|..])
  }

  predicate IsHead(b: Block) {
    |b.words| == BLOCK_WORDS && 0 <= b.words[0] <= LOGSIZE
  }

  /** The header as read_head() reads it back. */
  function GetHead(b: Block): (es: seq<int>)
    requires IsHead(b)
  {
    b.words[1..1 + b.words[0]]
  }

  lemma HeadRoundTrip(b: Block, es: seq<int>)
    requires |b.words| == BLOCK_WORDS && |es| <= LOGSIZE
    ensures IsHead(PutHead(b, es)) && GetHead(PutHead(b, es)) == es
    ensures PutHead(b, es).words[1 + |es|..] == b.words[1 + |es|..]
  {
    assert PutHead(b, es).words[1..1 + |es|] == es;
  }

  /** Entries a transaction may carry: home blocks, and no more than the log holds. */
  ghost predicate GoodEntries(g: Geometry, d: Disk, es: seq<int>) {
    && |es| <= LOGSIZE && |es| < g.size
    && forall t :: 0 <= t < |es| ==> 0 <= es[t] < |d| && !InLog(g, es[t])
  }

  ghost predicate GoodLog(g: Geometry, d: Disk) {
    && Fits(g, d) && IsHead(d[g.start])
    && GoodEntries(g, d, GetHead(d[g.start]))
  }

  function Entries(g: Geometry, d: Disk): (es: seq<int>)
    requires GoodLog(g, d)
  {
    GetHead(d[g.start])
  }

  // ------------------------------------------------------- install and recover

  /** The disk after install_trans() has copied its first `j` log blocks home. */
  function Installed(g: Geometry, d: Disk, es: seq<int>, j: nat): (r: Disk)
    requires Fits(g, d) && GoodEntries(g, d, es) && j <= |es|
    ensures |r| == |d| && r[g.start] == d[g.start]
  {
    if j == 0 then d
    else
      var p := Installed(g, d, es, j - 1);
      p[es[j - 1] := p[g.start + j]]
  }

  function Headed(g: Geometry, d: Disk, es: seq<int>): (r: Disk)
    requires Fits(g, d) && |d[g.start].words| == BLOCK_WORDS && |es| <= LOGSIZE
  {
    d[g.start := PutHead(d[g.start], es)]
  }

  /** The disk after the first `j` block writes of recover_from_log(). */
  function RecoverCrash(g: Geometry, d: Disk, j: nat): (r: Disk)
    requires GoodLog(g, d) && j <= |Entries(g, d)| + 1
  {
    var es := Entries(g, d);
    if j <= |es| then Installed(g, d, es, j)
    else Headed(g, Installed(g, d, es, |es|), [])
  }

  /** The disk a completed recover_from_log() leaves. */
  function Recovered(g: Geometry, d: Disk): (r: Disk)
    requires GoodLog(g, d)
  {
    RecoverCrash(g, d, |Entries(g, d)| + 1)
  }

  /** Installing touches the blocks of the header and nothing else. */
  lemma {:induction false} InstalledOutside(g: Geometry, d: Disk, es: seq<int>, j: nat, k: nat)
    requires Fits(g, d) && GoodEntries(g, d, es) && j <= |es| && k < |d|
    requires forall t :: 0 <= t < j ==> es[t] != k
    ensures Installed(g, d, es, j)[k] == d[k]
  {
    if j > 0 { InstalledOutside(g, d, es, j - 1, k); }
  }

  lemma InstalledKeepsLog(g: Geometry, d: Disk, es: seq<int>, j: nat)
    requires Fits(g, d) && GoodEntries(g, d, es) && j <= |es|
    ensures forall k :: InLog(g, k) ==> Installed(g, d, es, j)[k] == d[k]
  {
    forall k | InLog(g, k) ensures Installed(g, d, es, j)[k] == d[k] {
      InstalledOutside(g, d, es, j, k);
    }
  }

  /** What installing writes is decided by the log alone: two disks with the same
      log agree, after `j` copies, on a block copied or agreed on before. */
  lemma {:induction false} InstallFollowsLog(g: Geometry, d: Disk, e: Disk, es: seq<int>, j: nat, k: nat)
    requires |d| == |e| && Fits(g, d) && GoodEntries(g, d, es) && j <= |es| && k < |d|
    requires forall i :: InLog(g, i) ==> d[i] == e[i]
    requires d[k] == e[k] || exists t :: 0 <= t < j && es[t] == k
    ensures Installed(g, d, es, j)[k] == Installed(g, e, es, j)[k]
  {
    if j > 0 {
      if es[j - 1] == k {
        InstalledKeepsLog(g, d, es, j - 1);
        InstalledKeepsLog(g, e, es, j - 1);
        assert InLog(g, g.start + j);
      } else {
        InstallFollowsLog(g, d, e, es, j - 1, k);
      }
    }
  }

  /** An interrupted recovery loses nothing: recovering from any disk it may have
      stopped at ends on exactly the disk the uninterrupted one ends on. */
  lemma RecoveryRestarts(g: Geometry, d: Disk, j: nat)
    requires GoodLog(g, d) && j <= |Entries(g, d)| + 1
    ensures GoodLog(g, RecoverCrash(g, d, j))
    ensures Recovered(g, RecoverCrash(g, d, j)) == Recovered(g, d)
  {
    var es := Entries(g, d);
    var e := RecoverCrash(g, d, j);
    if j <= |es| {
      InstalledKeepsLog(g, d, es, j);
      forall k | 0 <= k < |d| ensures Installed(g, e, es, |es|)[k] == Installed(g, d, es, |es|)[k] {
        if forall t :: 0 <= t < |es| ==> es[t] != k { InstalledOutside(g, d, es, j, k); }
        InstallFollowsLog(g, d, e, es, |es|, k);
      }
      assert Installed(g, e, es, |es|) == Installed(g, d, es, |es|);
    } else {
      HeadRoundTrip(Installed(g, d, es, |es|)[g.start], []);
      assert Recovered(g, e) == e;
    }
  }

  // ---------------------------------------------------------------- commit

  /** The disk after write_log() has stored the first `j` cached blocks. */
  function Logged(g: Geometry, d: Disk, cs: seq<Block>, j: nat): (r: Disk)
    requires Fits(g, d) && |cs| < g.size && j <= |cs|
    ensures |r| == |d| && r[g.start] == d[g.start]
  {
    if j == 0 then d else Logged(g, d, cs, j - 1)[g.start + j := cs[j - 1]]
  }

  lemma {:induction false} LoggedAt(g: Geometry, d: Disk, cs: seq<Block>, j: nat, t: nat)
    requires Fits(g, d) && |cs| < g.size && t < j <= |cs|
    ensures Logged(g, d, cs, j)[g.start + 1 + t] == cs[t]
  {
    if t < j - 1 { LoggedAt(g, d, cs, j - 1, t); }
  }

  lemma {:induction false} LoggedOutside(g: Geometry, d: Disk, cs: seq<Block>, j: nat, k: nat)
    requires Fits(g, d) && |cs| < g.size && j <= |cs| && k < |d| && !(g.start < k <= g.start + j)
    ensures Logged(g, d, cs, j)[k] == d[k]
  {
    if j > 0 { LoggedOutside(g, d, cs, j - 1, k); }
  }

  lemma LoggedKeepsHome(g: Geometry, d: Disk, cs: seq<Block>, j: nat)
    requires Fits(g, d) && |cs| < g.size && j <= |cs|
    ensures SameHome(g, Logged(g, d, cs, j), d)
  {
    forall k | 0 <= k < |d| && !InLog(g, k) ensures Logged(g, d, cs, j)[k] == d[k] {
      LoggedOutside(g, d, cs, j, k);
    }
  }

  /** Number of block writes of one commit(): log, header, home, header. */
  function CommitWrites(es: seq<int>): nat {
    if |es| == 0 then 0 else 2 * |es| + 2
  }

  /** The disk after the first `j` block writes of commit(). */
  function CommitCrash(g: Geometry, d: Disk, es: seq<int>, cs: seq<Block>, j: nat): (r: Disk)
    requires Fits(g, d) && |d[g.start].words| == BLOCK_WORDS && GoodEntries(g, d, es) && |cs| == |es|
    requires j <= CommitWrites(es)
  {
    var n := |es|;
    if j <= n then Logged(g, d, cs, j)
    else
      var committed := Headed(g, Logged(g, d, cs, n), es);
      if j <= 2 * n + 1 then Installed(g, committed, es, j - n - 1)
      else Headed(g, Installed(g, committed, es, n), [])
  }

  /** The plain meaning of a transaction: store the first `j` blocks at their homes. */
  function Stored(d: Disk, es: seq<int>, cs: seq<Block>, j: nat): (r: Disk)
    requires |cs| == |es| && j <= |es| && forall t :: 0 <= t < |es| ==> 0 <= es[t] < |d|
    ensures |r| == |d|
  {
    if j == 0 then d else Stored(d, es, cs, j - 1)[es[j - 1] := cs[j - 1]]
  }

  function Applied(d: Disk, es: seq<int>, cs: seq<Block>): (r: Disk)
    requires |cs| == |es| && forall t :: 0 <= t < |es| ==> 0 <= es[t] < |d|
    ensures |r| == |d|
  {
    Stored(d, es, cs, |es|)
  }

  /** Copying the log home after the header write is the transaction itself. */
  lemma {:induction false} InstallIsApply(g: Geometry, d: Disk, h: Disk, es: seq<int>, cs: seq<Block>, j: nat)
    requires |h| == |d| && Fits(g, h) && GoodEntries(g, h, es) && |cs| == |es| && j <= |es|
    requires SameHome(g, d, h)
    requires forall t :: 0 <= t < |es| ==> h[g.start + 1 + t] == cs[t]
    ensures SameHome(g, Installed(g, h, es, j), Stored(d, es, cs, j))
  {
    if j > 0 {
      InstallIsApply(g, d, h, es, cs, j - 1);
      InstalledOutside(g, h, es, j - 1, g.start + j);
      assert h[g.start + 1 + (j - 1)] == cs[j - 1];
    }
  }

  /** Crash atomicity of one transaction: stopped before the header write, recovery
      restores the old file system and no home block was ever touched; stopped at or
      after it, recovery completes the transaction. */
  lemma CommitIsAtomic(g: Geometry, d: Disk, es: seq<int>, cs: seq<Block>, j: nat)
    requires GoodLog(g, d) && Entries(g, d) == []
    requires GoodEntries(g, d, es) && |cs| == |es| && j <= CommitWrites(es)
    ensures var c := CommitCrash(g, d, es, cs, j);
            && GoodLog(g, c)
            && (j <= |es| ==> SameHome(g, c, d) && SameHome(g, Recovered(g, c), d))
            && (j > |es| ==> SameHome(g, Recovered(g, c), Applied(d, es, cs)))
  {
    var n := |es|;
    var c := CommitCrash(g, d, es, cs, j);
    if j <= n {
      LoggedKeepsHome(g, d, cs, j);
      HeadRoundTrip(c[g.start], []);
    } else {
      CommittedRecovers(g, d, es, cs);
      var h := Headed(g, Logged(g, d, cs, n), es);
      if j <= 2 * n + 1 {
        assert c == RecoverCrash(g, h, j - n - 1);
        RecoveryRestarts(g, h, j - n - 1);
      } else {
        assert c == RecoverCrash(g, h, n + 1);
        RecoveryRestarts(g, h, n + 1);
      }
    }
  }

  lemma HeadedKeepsLog(g: Geometry, d: Disk, es: seq<int>, cs: seq<Block>)
    requires Fits(g, d) && |d[g.start].words| == BLOCK_WORDS && GoodEntries(g, d, es) && |cs| == |es|
    ensures forall t :: 0 <= t < |es| ==> Headed(g, Logged(g, d, cs, |es|), es)[g.start + 1 + t] == cs[t]
    ensures |Headed(g, Logged(g, d, cs, |es|), es)[g.start].words| == BLOCK_WORDS
  {
    hide Logged;
    HeadRoundTrip(d[g.start], es);
    forall t | 0 <= t < |es| ensures Headed(g, Logged(g, d, cs, |es|), es)[g.start + 1 + t] == cs[t] {
      LoggedAt(g, d, cs, |es|, t);
    }
  }

  lemma CommittedRecovers(g: Geometry, d: Disk, es: seq<int>, cs: seq<Block>)
    requires GoodLog(g, d) && GoodEntries(g, d, es) && |cs| == |es|
    ensures var h := Headed(g, Logged(g, d, cs, |es|), es);
            && GoodLog(g, h) && Entries(g, h) == es
            && SameHome(g, Recovered(g, h), Applied(d, es, cs))
  {
    var h := Headed(g, Logged(g, d, cs, |es|), es);
    LoggedKeepsHome(g, d, cs, |es|);
    HeadedKeepsLog(g, d, es, cs);
    HeadRoundTrip(d[g.start], es);
    InstallIsApply(g, d, h, es, cs, |es|);
  }

  // ------------------------------------------------- the writes of one call, in order

  ghost function LogDisks(g: Geometry, d: Disk, cs: seq<Block>, m: nat): (w: seq<Disk>)
    requires Fits(g, d) && |cs| < g.size && m <= |cs|
    ensures |w| == m
  {
    if m == 0 then [] else LogDisks(g, d, cs, m - 1) + [Logged(g, d, cs, m)]
  }

  ghost function InstallDisks(g: Geometry, d: Disk, es: seq<int>, m: nat): (w: seq<Disk>)
    requires Fits(g, d) && GoodEntries(g, d, es) && m <= |es|
    ensures |w| == m
  {
    if m == 0 then [] else InstallDisks(g, d, es, m - 1) + [Installed(g, d, es, m)]
  }

  /** The disks recover_from_log() goes through, one per block write. */
  ghost function RecoverDisks(g: Geometry, d: Disk): (w: seq<Disk>)
    requires GoodLog(g, d)
  {
    InstallDisks(g, d, Entries(g, d), |Entries(g, d)|) + [Recovered(g, d)]
  }

  /** The disks commit() goes through, one per block write. */
  ghost function CommitDisks(g: Geometry, d: Disk, es: seq<int>, cs: seq<Block>): (w: seq<Disk>)
    requires Fits(g, d) && |d[g.start].words| == BLOCK_WORDS && GoodEntries(g, d, es) && |cs| == |es|
  {
    if es == [] then [] else
    var h := Headed(g, Logged(g, d, cs, |es|), es);
    LogDisks(g, d, cs, |es|) + [h] + InstallDisks(g, h, es, |es|) + [CommitCrash(g, d, es, cs, CommitWrites(es))]
  }

  lemma {:induction false} LogDisksAt(g: Geometry, d: Disk, cs: seq<Block>, m: nat, j: nat)
    requires Fits(g, d) && |cs| < g.size && 1 <= j <= m <= |cs|
    ensures LogDisks(g, d, cs, m)[j - 1] == Logged(g, d, cs, j)
  {
    if j < m { LogDisksAt(g, d, cs, m - 1, j); }
  }

  lemma {:induction false} InstallDisksAt(g: Geometry, d: Disk, es: seq<int>, m: nat, j: nat)
    requires Fits(g, d) && GoodEntries(g, d, es) && 1 <= j <= m <= |es|
    ensures InstallDisks(g, d, es, m)[j - 1] == Installed(g, d, es, j)
  {
    if j < m { InstallDisksAt(g, d, es, m - 1, j); }
  }

  /** Write number `j` of a recovery leaves the disk `RecoverCrash` speaks of. */
  lemma RecoverDisksAt(g: Geometry, d: Disk, j: nat)
    requires GoodLog(g, d) && 1 <= j <= |RecoverDisks(g, d)|
    ensures |RecoverDisks(g, d)| == |Entries(g, d)| + 1
    ensures RecoverDisks(g, d)[j - 1] == RecoverCrash(g, d, j)
  {
    if j <= |Entries(g, d)| { InstallDisksAt(g, d, Entries(g, d), |Entries(g, d)|, j); }
  }

  /** Write number `j` of a commit leaves the disk `CommitCrash` speaks of. */
  lemma CommitDisksAt(g: Geometry, d: Disk, es: seq<int>, cs: seq<Block>, j: nat)
    requires Fits(g, d) && |d[g.start].words| == BLOCK_WORDS && GoodEntries(g, d, es) && |cs| == |es|
    requires 1 <= j <= |CommitDisks(g, d, es, cs)|
    ensures |CommitDisks(g, d, es, cs)| == CommitWrites(es)
    ensures CommitDisks(g, d, es, cs)[j - 1] == CommitCrash(g, d, es, cs, j)
  {
    var n, h := |es|, Headed(g, Logged(g, d, cs, |es|), es);
    if j <= n {
      LogDisksAt(g, d, cs, n, j);
    } else if n + 1 < j < 2 * n + 2 {
      InstallDisksAt(g, h, es, n, j - n - 1);
    }
  }

  /** Nothing but the old or the new file system, wherever the power fails: after any
      write `j` of a commit, and after any write `i` of a recovery begun there. */
  lemma CommitDisksRecover(g: Geometry, d: Disk, es: seq<int>, cs: seq<Block>, j: nat, i: nat)
    requires Clean(g, d) && GoodEntries(g, d, es) && |cs| == |es|
    requires 1 <= j <= |CommitDisks(g, d, es, cs)|
    ensures var c := CommitDisks(g, d, es, cs)[j - 1];
            && GoodLog(g, c)
            && SameHome(g, Recovered(g, c), if j <= |es| then d else Applied(d, es, cs))
            && (1 <= i <= |RecoverDisks(g, c)| ==>
                  var r := RecoverDisks(g, c)[i - 1];
                  GoodLog(g, r) && Recovered(g, r) == Recovered(g, c))
  {
    CommitDisksAt(g, d, es, cs, j);
    CommitIsAtomic(g, d, es, cs, j);
    var c := CommitDisks(g, d, es, cs)[j - 1];
    if 1 <= i <= |RecoverDisks(g, c)| {
      RecoverDisksAt(g, c, i);
      RecoveryRestarts(g, c, i);
    }
  }

  // ---------------------------------------------------------------- whole runs

  /** One stretch of the machine's life. `Commit` stops after `writes` block writes
      (all of them if it was not interrupted) and so does `Boot`, which runs
      recover_from_log(); `PowerCut` is a crash while nothing is being written. */
  datatype Event =
    | Commit(es: seq<int>, cs: seq<Block>, writes: nat)
    | Boot(writes: nat)
    | PowerCut

  /** `up` means recovery has completed since the last crash. */
  datatype Machine = Machine(disk: Disk, up: bool)

  /** What initlog() finds after mkfs, and what recovery restores. */
  ghost predicate Clean(g: Geometry, d: Disk) {
    GoodLog(g, d) && Entries(g, d) == []
  }

  ghost predicate Enabled(g: Geometry, m: Machine, e: Event) {
    match e
    case Commit(es, cs, j) => m.up && GoodEntries(g, m.disk, es) && |cs| == |es| && j <= CommitWrites(es)
    case Boot(j) => !m.up && (GoodLog(g, m.disk) ==> j <= |Entries(g, m.disk)| + 1)
    case PowerCut => true
  }

  ghost function Step(g: Geometry, m: Machine, e: Event): Machine
    requires Enabled(g, m, e)
  {
    if !GoodLog(g, m.disk) then m else
    match e
    case Commit(es, cs, j) => Machine(CommitCrash(g, m.disk, es, cs, j), j == CommitWrites(es))
    case Boot(j) => Machine(RecoverCrash(g, m.disk, j), j == |Entries(g, m.disk)| + 1)
    case PowerCut => m.(up := false)
  }

  ghost predicate Legal(g: Geometry, m: Machine, run: seq<Event>)
    decreases |run|
  {
    run != [] ==> Enabled(g, m, run[0]) && Legal(g, Step(g, m, run[0]), run[1..])
  }

  ghost function After(g: Geometry, m: Machine, run: seq<Event>): Machine
    requires Legal(g, m, run)
    decreases |run|
  {
    if run == [] then m else After(g, Step(g, m, run[0]), run[1..])
  }

  /** A transaction counts from its header write on. */
  ghost function DurableStep(fs: Disk, e: Event): (r: Disk)
    ensures |r| == |fs|
  {
    if e.Commit? && e.writes > |e.es| && |e.cs| == |e.es| && (forall t :: 0 <= t < |e.es| ==> 0 <= e.es[t] < |fs|)
    then Applied(fs, e.es, e.cs) else fs
  }

  /** The file system a user is entitled to: the transactions whose header write
      happened, in order, and nothing else. */
  ghost function Durable(fs: Disk, run: seq<Event>): (r: Disk)
    ensures |r| == |fs|
    decreases |run|
  {
    if run == [] then fs else Durable(DurableStep(fs, run[0]), run[1..])
  }

  ghost predicate Holds(g: Geometry, m: Machine, fs: Disk) {
    && GoodLog(g, m.disk)
    && SameHome(g, Recovered(g, m.disk), fs)
    && (m.up ==> Clean(g, m.disk) && SameHome(g, m.disk, fs))
  }

  lemma {:induction false} StoreSameHome(g: Geometry, d: Disk, e: Disk, es: seq<int>, cs: seq<Block>, j: nat)
    requires |cs| == |es| && j <= |es| && SameHome(g, d, e)
    requires forall t :: 0 <= t < |es| ==> 0 <= es[t] < |d|
    ensures SameHome(g, Stored(d, es, cs, j), Stored(e, es, cs, j))
  {
    if j > 0 { StoreSameHome(g, d, e, es, cs, j - 1); }
  }

  lemma RecoveredIsClean(g: Geometry, d: Disk)
    requires GoodLog(g, d)
    ensures Clean(g, Recovered(g, d))
  {
    RecoveryRestarts(g, d, |Entries(g, d)| + 1);
    HeadRoundTrip(Installed(g, d, Entries(g, d), |Entries(g, d)|)[g.start], []);
  }

  lemma StepHolds(g: Geometry, m: Machine, e: Event, fs: Disk)
    requires Holds(g, m, fs) && Enabled(g, m, e)
    ensures Holds(g, Step(g, m, e), DurableStep(fs, e))
  {
    match e
    case Commit(es, cs, j) =>
      CommitIsAtomic(g, m.disk, es, cs, j);
      StoreSameHome(g, m.disk, fs, es, cs, |es|);
      if j == CommitWrites(es) && |es| > 0 { CommitEndsClean(g, m.disk, es, cs); }
    case Boot(j) =>
      RecoveryRestarts(g, m.disk, j);
      RecoveredIsClean(g, m.disk);
    case PowerCut =>
  }

  /** A commit that was not interrupted leaves the disk a recovery would leave. */
  lemma CommitEndsClean(g: Geometry, d: Disk, es: seq<int>, cs: seq<Block>)
    requires Clean(g, d) && GoodEntries(g, d, es) && |cs| == |es| > 0
    ensures Clean(g, CommitCrash(g, d, es, cs, CommitWrites(es)))
    ensures SameHome(g, CommitCrash(g, d, es, cs, CommitWrites(es)), Applied(d, es, cs))
  {
    var h := Headed(g, Logged(g, d, cs, |es|), es);
    CommittedRecovers(g, d, es, cs);
    RecoveredIsClean(g, h);
    assert CommitCrash(g, d, es, cs, CommitWrites(es)) == Recovered(g, h);
  }

  lemma {:induction false} RunHolds(g: Geometry, m: Machine, fs: Disk, run: seq<Event>)
    requires Holds(g, m, fs) && Legal(g, m, run)
    ensures Holds(g, After(g, m, run), Durable(fs, run))
    decreases |run|
  {
    if run != [] {
      StepHolds(g, m, run[0], fs);
      RunHolds(g, Step(g, m, run[0]), DurableStep(fs, run[0]), run[1..]);
    }
  }

  /** The promise of log.c over a whole life of the machine: from a clean disk, after
      any number of transactions, crashes and interrupted recoveries, a completed
      recovery shows exactly the transactions that reached their header write; and a
      machine that is up already shows them on the disk. */
  lemma CrashSafety(g: Geometry, d: Disk, run: seq<Event>)
    requires Clean(g, d) && Legal(g, Machine(d, true), run)
    ensures var m := After(g, Machine(d, true), run);
            && GoodLog(g, m.disk)
            && SameHome(g, Recovered(g, m.disk), Durable(d, run))
            && (m.up ==> SameHome(g, m.disk, Durable(d, run)))
  {
    RunHolds(g, Machine(d, true), d, run);
  }
}
