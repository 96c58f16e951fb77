/** begin_op(), log_write() and end_op() of log.c, interleaved by any number of
processes.

The test for "too big a transaction" runs before log.lock is taken, so it is a step of its
own (`Check`), and other processes may get in before the entry is stored (`Insert`). How
often one operation calls log_write() is a parameter: begin_op() reserves MAXOPBLOCKS blocks
for each, and filewrite() does not keep to that (`FsCrash.ChunkLogs`). */
module LogAdmission {
  import opened LogDisk
  import BufferCache
  import Log

  /** Calls of log_write() per operation, at most, and blocks of the log with its header. */
  datatype Config = Config(calls: nat, size: nat)

  datatype Op =
    | Outside
    | InOp(calls: nat)      // between begin_op() and end_op(), after `calls` log_write()s
    | Passed(calls: nat)    // inside log_write(), past the size test
    | Committing            // last one out, running commit()
    | Cleared               // commit() has set log.lh.n = 0

  datatype State = State(procs: seq<Op>, outstanding: int, committing: bool, lh: seq<int>, panicked: bool)

  datatype Event =
    | Begin(p: nat)
    | Check(p: nat)
    | Insert(p: nat, block: int)
    | End(p: nat)
    | Clear(p: nat)
    | Finish(p: nat)

  ghost predicate Init(s: State) {
    && s.outstanding == 0 && !s.committing && s.lh == [] && !s.panicked
    && forall p :: 0 <= p < |s.procs| ==> s.procs[p] == Outside
  }

  /** begin_op() lets an operation in. */
  predicate Admits(s: State) {
    !s.committing && |s.lh| + (s.outstanding + 1) * MAXOPBLOCKS <= LOGSIZE
  }

  predicate Enabled(f: Config, s: State, e: Event) {
    && !s.panicked
    && e.p < |s.procs|
    && match e
       case Begin(p) => s.procs[p].Outside? && Admits(s)
       case Check(p) => s.procs[p].InOp? && s.procs[p].calls < f.calls
       case Insert(p, b) => s.procs[p].Passed?
       case End(p) => s.procs[p].InOp?
       case Clear(p) => s.procs[p].Committing?
       case Finish(p) => s.procs[p].Cleared?
  }

  function Next(f: Config, s: State, e: Event): State
    requires Enabled(f, s, e)
  {
    match e
    case Begin(p) => s.(procs := s.procs[p := InOp(0)], outstanding := s.outstanding + 1)
    case Check(p) =>
      if |s.lh| >= LOGSIZE || |s.lh| >= f.size - 1 || s.outstanding < 1 then s.(panicked := true)
      else s.(procs := s.procs[p := Passed(s.procs[p].calls)])
    case Insert(p, b) =>
      s.(procs := s.procs[p := InOp(s.procs[p].calls + 1)], lh := Log.Absorb(s.lh, b))
    case End(p) =>
      if s.committing then s.(panicked := true)
      else if s.outstanding == 1 then
        s.(procs := s.procs[p := Committing], outstanding := 0, committing := true)
      else s.(procs := s.procs[p := Outside], outstanding := s.outstanding - 1)
    case Clear(p) => s.(procs := s.procs[p := Cleared], lh := [])
    case Finish(p) => s.(procs := s.procs[p := Outside], committing := false)
  }

  ghost predicate Legal(f: Config, s: State, run: seq<Event>)
    decreases |run|
  {
    run != [] ==> Enabled(f, s, run[0]) && Legal(f, Next(f, s, run[0]), run[1..])
  }

  ghost function After(f: Config, s: State, run: seq<Event>): State
    requires Legal(f, s, run)
    decreases |run|
  {
    if run == [] then s else After(f, Next(f, s, run[0]), run[1..])
  }

  // ------------------------------------------------------------ the invariant

  predicate Active(o: Op) { o.InOp? || o.Passed? }

  predicate Ending(o: Op) { o.Committing? || o.Cleared? }

  function Reserve(c: nat, o: Op): int {
    if Active(o) then c - o.calls else 0
  }

  /** Calls that the operations still running may make. */
  function Reserved(c: nat, procs: seq<Op>): int {
    if procs == [] then 0 else Reserved(c, procs[..|procs| - 1]) + Reserve(c, procs[|procs| - 1])
  }

  function Running(procs: seq<Op>): (n: nat) {
    if procs == [] then 0 else Running(procs[..|procs| - 1]) + if Active(procs[|procs| - 1]) then 1 else 0
  }

  function Passing(procs: seq<Op>): (n: nat) {
    if procs == [] then 0 else Passing(procs[..|procs| - 1]) + if procs[|procs| - 1].Passed? then 1 else 0
  }

  /** What holds of each process on its own. */
  predicate ProcOk(c: nat, o: Op, committing: bool, lh: seq<int>) {
    && (o.InOp? ==> o.calls <= c)
    && (o.Passed? ==> o.calls < c)
    && (Ending(o) ==> committing)
    && (o.Cleared? ==> lh == [])
  }

  /** The most blocks that are ever logged: an operation waits while others fill MAXOPBLOCKS
      blocks, one more gets in, and both make all their calls. With too many calls the test
      in log_write() is what stops them, three at a time. */
  function Most(c: nat): nat {
    if c <= MAXOPBLOCKS then MAXOPBLOCKS + 2 * c else LOGSIZE + 2
  }

  ghost predicate Inv(f: Config, s: State) {
    && s.outstanding == Running(s.procs) <= 3
    && (f.calls <= MAXOPBLOCKS ==> |s.lh| + Reserved(f.calls, s.procs) <= Most(f.calls))
    && |s.lh| + Passing(s.procs) <= LOGSIZE + 2
    && (forall p :: 0 <= p < |s.procs| ==> ProcOk(f.calls, s.procs[p], s.committing, s.lh))
    && (forall p, q :: 0 <= p < q < |s.procs| && Ending(s.procs[p]) ==> !Ending(s.procs[q]))
    && (s.committing ==> s.outstanding == 0)
    && (s.outstanding == 0 && !s.committing ==> s.lh == [])
  }

  ghost predicate Bounded(c: nat, procs: seq<Op>) {
    forall q :: 0 <= q < |procs| && Active(procs[q]) ==> procs[q].calls <= c
  }

  lemma {:induction false} Replaced(c: nat, procs: seq<Op>, p: nat, o: Op)
    requires p < |procs|
    ensures Reserved(c, procs[p := o]) == Reserved(c, procs) - Reserve(c, procs[p]) + Reserve(c, o)
    ensures Running(procs[p := o]) ==
              Running(procs) - (if Active(procs[p]) then 1 else 0) + (if Active(o) then 1 else 0)
    ensures Passing(procs[p := o]) ==
              Passing(procs) - (if procs[p].Passed? then 1 else 0) + (if o.Passed? then 1 else 0)
  {
    var n := |procs| - 1;
    if p < n {
      Replaced(c, procs[..n], p, o);
      assert procs[p := o][..n] == procs[..n][p := o];
    } else {
      assert procs[p := o][..n] == procs[..n];
    }
  }

  /** What an active operation adds to the sums. */
  lemma {:induction false} SumBounds(c: nat, procs: seq<Op>, p: nat)
    requires p < |procs| && Active(procs[p])
    requires Bounded(c, procs)
    ensures Running(procs) >= 1 && Reserved(c, procs) >= Reserve(c, procs[p])
    ensures procs[p].InOp? ==> Passing(procs) < Running(procs)
  {
    var n := |procs| - 1;
    if p < n {
      SumBounds(c, procs[..n], p);
    } else {
      Sums(c, procs[..n]);
    }
  }

  lemma {:induction false} Sums(c: nat, procs: seq<Op>)
    requires Bounded(c, procs)
    ensures 0 <= Reserved(c, procs) <= c * Running(procs) && Passing(procs) <= Running(procs)
  {
    if procs != [] { Sums(c, procs[..|procs| - 1]); }
  }

  lemma {:induction false} AllOutside(c: nat, procs: seq<Op>)
    requires forall p :: 0 <= p < |procs| ==> procs[p] == Outside
    ensures Reserved(c, procs) == 0 && Running(procs) == 0 && Passing(procs) == 0
  {
    if procs != [] { AllOutside(c, procs[..|procs| - 1]); }
  }

  /** What begin_op() leaves room for. */
  lemma Room(c: nat, lh: nat, running: nat, reserved: int)
    requires lh + (running + 1) * MAXOPBLOCKS <= LOGSIZE && reserved <= c * running && (running == 0 ==> lh == 0)
    ensures running <= 2 && (c <= MAXOPBLOCKS ==> lh + reserved + c <= Most(c))
  {
    assert running == 0 || running == 1 || running == 2;
  }

  lemma BeginKeepsInv(f: Config, s: State, p: nat)
    requires Inv(f, s) && Enabled(f, s, Begin(p))
    ensures Inv(f, Next(f, s, Begin(p)))
  {
    Replaced(f.calls, s.procs, p, InOp(0));
    Sums(f.calls, s.procs);
    Room(f.calls, |s.lh|, s.outstanding, Reserved(f.calls, s.procs));
  }

  /** The reservation made at begin_op() pays for this call. */
  lemma CheckHasRoom(f: Config, s: State, p: nat)
    requires Inv(f, s) && Enabled(f, s, Check(p))
    ensures s.outstanding >= 1 && (f.calls <= MAXOPBLOCKS ==> |s.lh| < Most(f.calls) <= LOGSIZE)
  {
    SumBounds(f.calls, s.procs, p);
  }

  lemma CheckKeepsInv(f: Config, s: State, p: nat)
    requires Inv(f, s) && Enabled(f, s, Check(p))
    ensures Inv(f, Next(f, s, Check(p)))
  {
    SumBounds(f.calls, s.procs, p);
    Replaced(f.calls, s.procs, p, Passed(s.procs[p].calls));
  }

  lemma InsertKeepsInv(f: Config, s: State, p: nat, b: int)
    requires Inv(f, s) && Enabled(f, s, Insert(p, b))
    ensures Inv(f, Next(f, s, Insert(p, b)))
  {
    SumBounds(f.calls, s.procs, p);
    Replaced(f.calls, s.procs, p, InOp(s.procs[p].calls + 1));
  }

  lemma EndKeepsInv(f: Config, s: State, p: nat)
    requires Inv(f, s) && Enabled(f, s, End(p))
    ensures Inv(f, Next(f, s, End(p))) && !Next(f, s, End(p)).panicked
  {
    SumBounds(f.calls, s.procs, p);
    Replaced(f.calls, s.procs, p, Outside);
    Replaced(f.calls, s.procs, p, Committing);
  }

  lemma LastKeepsInv(f: Config, s: State, e: Event)
    requires Inv(f, s) && Enabled(f, s, e) && (e.Clear? || e.Finish?)
    ensures Inv(f, Next(f, s, e))
  {
    Replaced(f.calls, s.procs, e.p, if e.Clear? then Cleared else Outside);
  }

  /** No call of log_write() can find the log full. */
  predicate Suffices(f: Config) {
    f.calls == 0 || (f.calls <= MAXOPBLOCKS && f.size > Most(f.calls))
  }

  lemma StepKeepsInv(f: Config, s: State, e: Event)
    requires Inv(f, s) && Enabled(f, s, e)
    ensures Inv(f, Next(f, s, e))
    ensures Suffices(f) ==> !Next(f, s, e).panicked
  {
    hide Inv;
    match e
    case Begin(p) => BeginKeepsInv(f, s, p);
    case Check(p) => CheckHasRoom(f, s, p); CheckKeepsInv(f, s, p);
    case Insert(p, b) => InsertKeepsInv(f, s, p, b);
    case End(p) => EndKeepsInv(f, s, p);
    case Clear(_) => LastKeepsInv(f, s, e);
    case Finish(_) => LastKeepsInv(f, s, e);
  }

  lemma {:induction false} RunKeepsInv(f: Config, s: State, run: seq<Event>)
    requires Inv(f, s) && Legal(f, s, run)
    ensures Inv(f, After(f, s, run))
    ensures Suffices(f) && !s.panicked ==> !After(f, s, run).panicked
    decreases |run|
  {
    hide Inv;
    if run != [] {
      StepKeepsInv(f, s, run[0]);
      RunKeepsInv(f, Next(f, s, run[0]), run[1..]);
    }
  }

  lemma InitInv(f: Config, s: State)
    requires Init(s)
    ensures Inv(f, s)
  {
    AllOutside(f.calls, s.procs);
  }

  /** In every interleaving: a commit runs with no operation outstanding, nothing is logged
      between transactions, and then a new operation is admitted at once. */
  lemma CommitsAlone(f: Config, s: State, run: seq<Event>)
    requires Init(s) && Legal(f, s, run)
    ensures var t := After(f, s, run);
            && (t.committing ==> t.outstanding == 0 && forall p :: 0 <= p < |t.procs| ==> !Active(t.procs[p]))
            && (t.outstanding == 0 && !t.committing ==> t.lh == [] && Admits(t))
            && |t.lh| <= Most(f.calls)
  {
    InitInv(f, s);
    RunKeepsInv(f, s, run);
    var t := After(f, s, run);
    Sums(f.calls, t.procs);
    if p :| 0 <= p < |t.procs| && Active(t.procs[p]) { SumBounds(f.calls, t.procs, p); }
  }

  // ------------------------------------------------------------ runs

  ghost predicate Reaches(f: Config, s: State, t: State) {
    exists run :: Legal(f, s, run) && After(f, s, run) == t
  }

  lemma {:induction false} Joined(f: Config, s: State, a: seq<Event>, b: seq<Event>)
    requires Legal(f, s, a) && Legal(f, After(f, s, a), b)
    ensures Legal(f, s, a + b) && After(f, s, a + b) == After(f, After(f, s, a), b)
    decreases |a|
  {
    hide Enabled, Next;
    if a == [] {
      assert a + b == b;
    } else {
      Joined(f, Next(f, s, a[0]), a[1..], b);
      assert (a + b)[1..] == a[1..] + b;
    }
  }

  lemma Onward(f: Config, s: State, t: State, u: State)
    requires Reaches(f, s, t) && Reaches(f, t, u)
    ensures Reaches(f, s, u)
  {
    var a :| Legal(f, s, a) && After(f, s, a) == t;
    var b :| Legal(f, t, b) && After(f, t, b) == u;
    Joined(f, s, a, b);
  }

  lemma OneStep(f: Config, s: State, e: Event)
    requires Enabled(f, s, e)
    ensures Reaches(f, s, Next(f, s, e))
  {
    hide Next, Enabled;
    assert [e][1..] == [];
    assert Legal(f, s, [e]) && After(f, s, [e]) == Next(f, s, e);
  }

  /** After a run to `s`, one step more. */
  lemma StepOn(f: Config, s0: State, s: State, e: Event)
    requires Reaches(f, s0, s) && Enabled(f, s, e)
    ensures Reaches(f, s0, Next(f, s, e))
  {
    hide Reaches, Next, Enabled;
    OneStep(f, s, e);
    Onward(f, s0, s, Next(f, s, e));
  }

  function Blocks(k: nat): (r: seq<int>)
    ensures |r| == k
  {
    seq(k, i => i)
  }

  lemma NewBlock(k: nat)
    ensures Log.Absorb(Blocks(k), k) == Blocks(k + 1)
  {
    assert k !in Blocks(k);
    assert Blocks(k) + [k] == Blocks(k + 1);
  }

  /** Process `p` logs the blocks up to `m`. */
  ghost function Logged(s: State, p: nat, m: nat): State
    requires p < |s.procs| && Active(s.procs[p])
  {
    s.(procs := s.procs[p := InOp(s.procs[p].calls + Abs(m - |s.lh|))], lh := Blocks(m))
  }

  function Abs(n: int): nat {
    if n < 0 then -n else n
  }

  lemma {:induction false} LogBlocks(f: Config, s0: State, s: State, p: nat, m: nat)
    requires Reaches(f, s0, s) && p < |s.procs| && s.procs[p].InOp? && !s.panicked && s.outstanding >= 1
    requires s.lh == Blocks(|s.lh|) && |s.lh| <= m <= LOGSIZE && m <= Top(f)
    requires s.procs[p].calls + (m - |s.lh|) <= f.calls
    ensures Reaches(f, s0, Logged(s, p, m))
    decreases m - |s.lh|
  {
    hide Reaches, Blocks;
    var k := |s.lh|;
    if k == m {
      assert Logged(s, p, m) == s;
    } else {
      StepOn(f, s0, s, Check(p));
      var s1 := Next(f, s, Check(p));
      StepOn(f, s0, s1, Insert(p, k));
      var s2 := Next(f, s1, Insert(p, k));
      NewBlock(k);
      LogBlocks(f, s0, s2, p, m);
      assert Logged(s2, p, m) == Logged(s, p, m);
    }
  }

  /** The entries that log_write() lets into the log. */
  function Top(f: Config): nat {
    if f.size == 0 then 0 else f.size - 1
  }

  const EMPTY := State([Outside, Outside, Outside], 0, false, [], false)

  /** One operation has made no call; others have come and gone. */
  function Alone(k: nat): State {
    State([InOp(0), Outside, Outside], 1, false, Blocks(k), false)
  }

  lemma {:induction false} ReachAlone(f: Config, k: nat)
    requires k <= MAXOPBLOCKS && k <= Top(f) && f.calls > 0
    ensures Reaches(f, EMPTY, Alone(k))
  {
    hide Reaches, Blocks;
    if k == 0 {
      OneStep(f, EMPTY, Begin(0));
      assert Blocks(0) == [];
      assert Next(f, EMPTY, Begin(0)) == Alone(0);
    } else {
      ReachAlone(f, k - 1);
      var s := Alone(k - 1);
      StepOn(f, EMPTY, s, Begin(1));
      var s1 := Next(f, s, Begin(1));
      LogBlocks(f, EMPTY, s1, 1, k);
      var s2 := Logged(s1, 1, k);
      StepOn(f, EMPTY, s2, End(1));
      assert Next(f, s2, End(1)) == Alone(k);
    }
  }

  /** Two operations run; of the `m` blocks logged at most `a` are the first one's. */
  function Two(j: nat, a: nat, m: nat): State
    requires j <= m
  {
    var x := if m - j <= a then m - j else a;
    State([InOp(x), InOp(m - j - x), Outside], 2, false, Blocks(m), false)
  }

  lemma ReachTwo(f: Config, j: nat, a: nat, m: nat)
    requires j <= MAXOPBLOCKS && j <= m <= Top(f) && m <= LOGSIZE && a <= f.calls && m - j - a <= f.calls && f.calls > 0
    ensures Reaches(f, EMPTY, Two(j, a, m))
  {
    hide Reaches, Blocks;
    ReachAlone(f, j);
    StepOn(f, EMPTY, Alone(j), Begin(1));
    var s1 := Next(f, Alone(j), Begin(1));
    var mid := if m - j <= a then m else j + a;
    LogBlocks(f, EMPTY, s1, 0, mid);
    var s2 := Logged(s1, 0, mid);
    LogBlocks(f, EMPTY, s2, 1, m);
    assert Logged(s2, 1, m) == Two(j, a, m);
  }

  // ------------------------------------------------------------ the size of the log

  /** Where the log does not suffice, at most two operations within their calls panic. */
  lemma SmallLogPanics(f: Config) returns (run: seq<Event>)
    requires !Suffices(f)
    ensures Legal(f, EMPTY, run) && After(f, EMPTY, run).panicked
  {
    var m := if Top(f) < LOGSIZE then Top(f) else LOGSIZE;
    var j := if m < MAXOPBLOCKS then m else MAXOPBLOCKS;
    var a := if f.calls < MAXOPBLOCKS then f.calls else MAXOPBLOCKS;
    ReachTwo(f, j, a, m);
    var p := if m - j < a then 0 else 1;
    StepOn(f, EMPTY, Two(j, a, m), Check(p));
    var t := Next(f, Two(j, a, m), Check(p));
    run :| Legal(f, EMPTY, run) && After(f, EMPTY, run) == t;
  }

  /** "Too big a transaction" is out of reach exactly when operations make at most MAXOPBLOCKS
      calls and the log has more than MAXOPBLOCKS + 2 * calls blocks. At MAXOPBLOCKS calls
      that is more than LOGSIZE, and mkfs gives it LOGSIZE. */
  lemma PanicFreeIff(f: Config)
    ensures (forall s, run :: Init(s) && Legal(f, s, run) ==> !After(f, s, run).panicked)
            <==> f.calls == 0 || (f.calls <= MAXOPBLOCKS && f.size > MAXOPBLOCKS + 2 * f.calls)
  {
    if Suffices(f) {
      forall s, run | Init(s) && Legal(f, s, run) ensures !After(f, s, run).panicked {
        InitInv(f, s);
        RunKeepsInv(f, s, run);
      }
    } else {
      var run := SmallLogPanics(f);
    }
  }

  /** A panic, or a commit that finds no buffer for the log (`Log.CommitNeedsBuffer`). */
  predicate Bad(t: State) {
    t.panicked || (t.committing && |t.lh| >= BufferCache.NBUF)
  }

  /** Two operations of MAXOPBLOCKS calls on top of MAXOPBLOCKS blocks, then the commit. */
  lemma FullCommit(f: Config) returns (run: seq<Event>)
    requires f.calls >= MAXOPBLOCKS && f.size > LOGSIZE
    ensures Legal(f, EMPTY, run)
    ensures var t := After(f, EMPTY, run); !t.panicked && t.committing && |t.lh| >= BufferCache.NBUF
  {
    hide Blocks;
    var s := Two(MAXOPBLOCKS, MAXOPBLOCKS, LOGSIZE);
    ReachTwo(f, MAXOPBLOCKS, MAXOPBLOCKS, LOGSIZE);
    StepOn(f, EMPTY, s, End(0));
    var s1 := Next(f, s, End(0));
    StepOn(f, EMPTY, s1, End(1));
    var t := Next(f, s1, End(1));
    run :| Legal(f, EMPTY, run) && After(f, EMPTY, run) == t;
  }

  /** No size of the log avoids both panics, unless operations make fewer than MAXOPBLOCKS
      calls: a larger log lets NBUF blocks be pinned. */
  lemma SafeIff(f: Config)
    ensures (forall s, run :: Init(s) && Legal(f, s, run) ==> !Bad(After(f, s, run)))
            <==> f.calls == 0 || (f.calls < MAXOPBLOCKS && f.size > MAXOPBLOCKS + 2 * f.calls)
  {
    if f.calls < MAXOPBLOCKS && Suffices(f) {
      forall s, run | Init(s) && Legal(f, s, run) ensures !Bad(After(f, s, run)) {
        PanicFreeIff(f);
        CommitsAlone(f, s, run);
      }
    } else if !Suffices(f) {
      var run := SmallLogPanics(f);
      assert Bad(After(f, EMPTY, run));
    } else {
      var run := FullCommit(f);
    }
  }

  // ------------------------------------------------------------ overflow

  /** The logged blocks fit behind the header. */
  predicate Fits(f: Config, lh: seq<int>) {
    lh == [] || |lh| <= f.size - 1
  }

  /** Two processes pass the size test before either stores its entry. */
  lemma TwoOverflow(f: Config, j: nat, a: nat, m: nat)
    requires j <= MAXOPBLOCKS && j <= m == f.size - 2 && m < LOGSIZE && a < f.calls && m - j - a < f.calls
    ensures exists t :: Reaches(f, EMPTY, t) && !t.panicked && |t.lh| == f.size
  {
    hide Reaches, Blocks;
    ReachTwo(f, j, a, m);
    var s := Two(j, a, m);
    StepOn(f, EMPTY, s, Check(0));
    var s1 := Next(f, s, Check(0));
    StepOn(f, EMPTY, s1, Check(1));
    var s2 := Next(f, s1, Check(1));
    StepOn(f, EMPTY, s2, Insert(0, m));
    var s3 := Next(f, s2, Insert(0, m));
    StepOn(f, EMPTY, s3, Insert(1, m + 1));
    NewBlock(m);
    NewBlock(m + 1);
  }

  /** Three processes pass the test for LOGSIZE together. */
  lemma ThreeOverflow(f: Config)
    requires f.calls > MAXOPBLOCKS && f.size == LOGSIZE + 2
    ensures exists t :: Reaches(f, EMPTY, t) && !t.panicked && |t.lh| == f.size
  {
    hide Reaches, Blocks;
    var s := ThreeLoaded(f);
    StepOn(f, EMPTY, s, Check(0));
    var s1 := Next(f, s, Check(0));
    StepOn(f, EMPTY, s1, Check(1));
    var s2 := Next(f, s1, Check(1));
    StepOn(f, EMPTY, s2, Check(2));
    var s3 := Next(f, s2, Check(2));
    StepOn(f, EMPTY, s3, Insert(0, 29));
    var s4 := Next(f, s3, Insert(0, 29));
    StepOn(f, EMPTY, s4, Insert(1, 30));
    var s5 := Next(f, s4, Insert(1, 30));
    StepOn(f, EMPTY, s5, Insert(2, 31));
    NewBlock(29);
    NewBlock(30);
    NewBlock(31);
  }

  lemma ThreeLoaded(f: Config) returns (s: State)
    requires f.calls > MAXOPBLOCKS && f.size == LOGSIZE + 2
    ensures s == State([InOp(10), InOp(10), InOp(9)], 3, false, Blocks(29), false) && Reaches(f, EMPTY, s)
  {
    hide Reaches, Blocks;
    assert Blocks(0) == [];
    OneStep(f, EMPTY, Begin(0));
    s := Next(f, EMPTY, Begin(0));
    StepOn(f, EMPTY, s, Begin(1));
    s := Next(f, s, Begin(1));
    StepOn(f, EMPTY, s, Begin(2));
    s := Next(f, s, Begin(2));
    LogBlocks(f, EMPTY, s, 0, 10);
    s := Logged(s, 0, 10);
    LogBlocks(f, EMPTY, s, 1, 20);
    s := Logged(s, 1, 20);
    LogBlocks(f, EMPTY, s, 2, 29);
    s := Logged(s, 2, 29);
  }

  /** A run without panic that logs a block more than the log holds. */
  lemma LogOverflows(f: Config) returns (run: seq<Event>)
    requires f.calls > 0 && 2 <= f.size <= Most(f.calls)
    ensures Legal(f, EMPTY, run)
    ensures var t := After(f, EMPTY, run); !t.panicked && |t.lh| == f.size
  {
    if f.size == LOGSIZE + 2 {
      ThreeOverflow(f);
    } else {
      var m := f.size - 2;
      var j := if m < MAXOPBLOCKS then m else MAXOPBLOCKS;
      TwoOverflow(f, j, if f.calls <= MAXOPBLOCKS then f.calls - 1 else MAXOPBLOCKS, m);
    }
    var t :| Reaches(f, EMPTY, t) && !t.panicked && |t.lh| == f.size;
    run :| Legal(f, EMPTY, run) && After(f, EMPTY, run) == t;
  }

  ghost predicate NonePassed(s: State) {
    s.lh == [] && forall p :: 0 <= p < |s.procs| ==> !s.procs[p].Passed?
  }

  lemma {:induction false} NothingLogged(f: Config, s: State, run: seq<Event>)
    requires (f.size <= 1 || f.calls == 0) && NonePassed(s) && Legal(f, s, run)
    ensures NonePassed(After(f, s, run))
    decreases |run|
  {
    if run != [] { NothingLogged(f, Next(f, s, run[0]), run[1..]); }
  }

  /** The logged blocks always fit into the log exactly when no block can be logged at all or
      the log has more blocks than are ever logged. Otherwise commit() may write behind the
      log. */
  lemma LogFitsIff(f: Config)
    ensures (forall s, run :: Init(s) && Legal(f, s, run) ==> Fits(f, After(f, s, run).lh))
            <==> f.calls == 0 || f.size <= 1 || f.size > Most(f.calls)
  {
    if f.calls == 0 || f.size <= 1 {
      forall s, run | Init(s) && Legal(f, s, run) ensures Fits(f, After(f, s, run).lh) { NothingLogged(f, s, run); }
    } else if f.size > Most(f.calls) {
      forall s, run | Init(s) && Legal(f, s, run) ensures Fits(f, After(f, s, run).lh) { CommitsAlone(f, s, run); }
    } else {
      var run := LogOverflows(f);
    }
  }
}
