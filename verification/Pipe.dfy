/** pipe.c as a client of sleep() and wakeup(), byte by byte, with 32-bit counters. */
module Pipe {
  import opened Basics
  import opened Monitor

  const PIPESIZE := 512
  const UINT := 0x1_0000_0000

  const NREAD := 0    // the channels &p->nread and &p->nwrite
  const NWRITE := 1

  /** struct pipe, and the bytes ever stored and ever taken out. */
  datatype Pipe = Pipe(data: seq<int>, nread: nat, nwrite: nat, readopen: bool, writeopen: bool,
                       written: seq<int>, got: seq<int>)

  datatype Frame =
    | Write(buf: seq<int>, i: nat)       // pipewrite(), before byte i
    | WriteFull(buf: seq<int>, i: nat)   // full, readers woken, before sleep(&p->nwrite)
    | WriteEnd
    | Read(n: nat)                       // piperead(), at the while test
    | Copy(n: nat, buf: seq<int>)        // in the copy loop
    | ReadEnd(buf: seq<int>)
    | Close(writable: bool)              // pipeclose()
    | CloseWake(c: int)
    | Closed

  predicate Empty(s: Pipe) { s.nread == s.nwrite }

  predicate Full(s: Pipe) { s.nwrite == (s.nread + PIPESIZE) % UINT }

  function Put(s: Pipe, b: int): Pipe
    requires |s.data| == PIPESIZE
  {
    s.(data := s.data[s.nwrite % PIPESIZE := b], nwrite := (s.nwrite + 1) % UINT, written := s.written + [b])
  }

  function Taken(s: Pipe): int
    requires |s.data| == PIPESIZE
  {
    s.data[s.nread % PIPESIZE]
  }

  function Take(s: Pipe): Pipe
    requires |s.data| == PIPESIZE
  {
    s.(nread := (s.nread + 1) % UINT, got := s.got + [Taken(s)])
  }

  /** One action under p->lock; `killed` is myproc()->killed. */
  function Step(s: Pipe, f: Frame, killed: bool): Action<Pipe, Frame> {
    if |s.data| != PIPESIZE then Leave(s) else
    match f
    case Write(buf, i) =>
      if i >= |buf| then Wake(NREAD, WriteEnd)
      else if Full(s) then
        if !s.readopen || killed then Leave(s) else Wake(NREAD, WriteFull(buf, i))
      else Go(Put(s, buf[i]), Write(buf, i + 1))
    case WriteFull(buf, i) => Sleep(NWRITE, Write(buf, i))
    case WriteEnd => Leave(s)
    case Read(n) =>
      if Empty(s) && s.writeopen then
        if killed then Leave(s) else Sleep(NREAD, f)
      else Go(s, Copy(n, []))
    case Copy(n, buf) =>
      if |buf| >= n || Empty(s) then Wake(NWRITE, ReadEnd(buf))
      else Go(Take(s), Copy(n, buf + [Taken(s)]))
    case ReadEnd(_) => Leave(s)
    case Close(w) =>
      if w then Go(s.(writeopen := false), CloseWake(NREAD))
      else Go(s.(readopen := false), CloseWake(NWRITE))
    case CloseWake(c) => Wake(c, Closed)
    case Closed => Leave(s)
  }

  /** The ring buffer and its wrapping counters represent a queue: what was got is a
      prefix of what was written, and the rest is in the buffer, in order. */
  ghost predicate Fifo(s: Pipe) {
    && |s.data| == PIPESIZE
    && s.got <= s.written && |s.written| - |s.got| <= PIPESIZE
    && s.nread == |s.got| % UINT && s.nwrite == |s.written| % UINT
    && forall k :: |s.got| <= k < |s.written| ==> s.data[k % PIPESIZE] == s.written[k]
  }

  /** What the code keeps for a sleeper: a reader's reason is an empty pipe someone may
      still write to, a writer's a full one someone may still read. With the read end
      closed nothing is kept for readers: there are none. */
  predicate Reason(c: int, s: Pipe) {
    || (c == NREAD && ((Empty(s) && s.writeopen) || !s.readopen))
    || (c == NWRITE && Full(s) && s.readopen)
  }

  predicate OwesWakeup(f: Frame, c: int) {
    match f
    case Write(_, _) => c == NREAD
    case Copy(_, _) => c == NWRITE
    case CloseWake(d) => c == d
    case _ => false
  }

  predicate IsEntry(f: Frame) { f.Write? || f.Read? || f.Close? }

  predicate FrameFits(s: Pipe, f: Frame) {
    f.WriteFull? ==> Full(s) && s.readopen
  }

  /** The killed flag as pipewrite() and piperead() see it; without `writers` pipewrite()
      never sees it set. */
  predicate Seen(writers: bool, f: Frame, killed: bool) {
    killed && (writers || !f.Write?)
  }

  /** The pipe code; whether writers may be killed is the parameter, readers may. */
  ghost function PipeClient(writers: bool): Client<Pipe, Frame> {
    Client((s: Pipe, f: Frame, k: bool) => Step(s, f, Seen(writers, f, k)), Reason, OwesWakeup,
           (s: Pipe) => Fifo(s), FrameFits, IsEntry)
  }

  // ------------------------------------------------------------ the queue

  lemma Index(k: nat)
    ensures (k % UINT) % PIPESIZE == k % PIPESIZE
    ensures ((k % UINT) + 1) % UINT == (k + 1) % UINT
  {
  }

  /** Full and empty mean what they should although the counters wrap around. */
  lemma Counters(s: Pipe)
    requires Fifo(s)
    ensures Empty(s) <==> |s.written| == |s.got|
    ensures Full(s) <==> |s.written| == |s.got| + PIPESIZE
  {
  }

  lemma PutFifo(s: Pipe, b: int)
    requires Fifo(s) && !Full(s)
    ensures Fifo(Put(s, b))
  {
    Counters(s);
    Index(|s.written|);
    var n := |s.written|;
    forall k | |s.got| <= k < n ensures k % PIPESIZE != n % PIPESIZE { OtherSlot(k, n); }
  }

  lemma OtherSlot(k: nat, n: nat)
    requires k < n < k + PIPESIZE
    ensures k % PIPESIZE != n % PIPESIZE
  {
  }

  lemma TakeFifo(s: Pipe)
    requires Fifo(s) && !Empty(s)
    ensures Taken(s) == s.written[|s.got|] && Fifo(Take(s))
  {
    Counters(s);
    Index(|s.got|);
  }

  lemma ClientIsSafe(writers: bool)
    ensures Safe(PipeClient(writers))
  {
    var cl := PipeClient(writers);
    forall s, f, k | cl.inv(s) && cl.ok(s, f) ensures SafeAct(cl, s, cl.act(s, f, k)) {
      ActIsSafe(s, f, Seen(writers, f, k));
    }
  }

  lemma ActIsSafe(s: Pipe, f: Frame, k: bool)
    requires Fifo(s) && FrameFits(s, f)
    ensures match Step(s, f, k)
            case Go(s', f') => Fifo(s') && FrameFits(s', f')
            case Sleep(c, f') => IsEntry(f')
            case Wake(c, f') => FrameFits(s, f')
            case Leave(s') => Fifo(s')
  {
    if f.Write? && f.i < |f.buf| && !Full(s) { PutFifo(s, f.buf[f.i]); }
    if f.Copy? && !Empty(s) { TakeFifo(s); }
  }

  /** A pipe is a queue: in every interleaving of any number of writers and readers,
      killed or not, the bytes read are a prefix of the bytes written, at most
      PIPESIZE are in between, and the wrapping counters measure just that. */
  lemma PipeIsFifo(writers: bool, t: State<Pipe, Frame>, run: seq<Event<Frame>>)
    requires Init(PipeClient(writers), t) && Legal(PipeClient(writers), t, run)
    ensures var s := After(PipeClient(writers), t, run).s;
            && s.got <= s.written
            && |s.written| - |s.got| == (s.nwrite - s.nread) % UINT <= PIPESIZE
  {
    hide Fifo, Init, Legal, After;
    ClientIsSafe(writers);
    SharedInvariant(PipeClient(writers), t, run);
    Distance(After(PipeClient(writers), t, run).s);
  }

  lemma Distance(s: Pipe)
    requires Fifo(s)
    ensures s.got <= s.written
    ensures |s.written| - |s.got| == (s.nwrite - s.nread) % UINT <= PIPESIZE
  {
  }

  // ------------------------------------------------------------ sleepers

  lemma ActIsFair(s: Pipe, f: Frame, k: bool)
    requires Fifo(s) && FrameFits(s, f) && (k ==> !f.Write?)
    ensures FairAct(PipeClient(false), s, f, Step(s, f, k))
  {
    Counters(s);
    if f.Write? && f.i < |f.buf| && !Full(s) { PutFifo(s, f.buf[f.i]); Counters(Put(s, f.buf[f.i])); }
    if f.Copy? && !Empty(s) { TakeFifo(s); Counters(Take(s)); }
  }

  lemma ClientIsFair()
    ensures Fair(PipeClient(false))
  {
    var cl := PipeClient(false);
    forall s, f, k | cl.inv(s) && cl.ok(s, f) ensures FairAct(cl, s, f, cl.act(s, f, k)) {
      ActIsFair(s, f, Seen(false, f, k));
    }
  }

  lemma FairSleepers(t: State<Pipe, Frame>, run: seq<Event<Frame>>, p: nat, c: int)
    requires Init(PipeClient(false), t) && Legal(PipeClient(false), t, run)
    requires var u := After(PipeClient(false), t, run); u.lk.None? && p < |u.procs| && Waiter(u.procs[p], c)
    ensures Reason(c, After(PipeClient(false), t, run).s)
  {
    hide Init, Legal, After;
    ClientIsSafe(false);
    ClientIsFair();
    NoLostWakeup(PipeClient(false), t, run);
    assert PipeClient(false).wait(c, After(PipeClient(false), t, run).s);
  }

  // ------------------------------------------------------------ readers keep the read end open

  predicate InRead(pc: Pc<Frame>) {
    !pc.Outside? && (pc.f.Read? || pc.f.Copy? || pc.f.ReadEnd?)
  }

  /** A process in piperead() holds the read end open: it is closed only when there is none,
      and a process that calls piperead() has it open. */
  ghost predicate Disciplined(t: State<Pipe, Frame>, e: Event<Frame>) {
    && (e.Call? && e.f.Read? ==> t.s.readopen)
    && (e.Act? && e.p < |t.procs| && t.procs[e.p] == Running(Close(false)) ==>
          forall q :: 0 <= q < |t.procs| ==> !InRead(t.procs[q]))
  }

  ghost predicate DisciplinedRun(cl: Client<Pipe, Frame>, t: State<Pipe, Frame>, run: seq<Event<Frame>>)
    decreases |run|
  {
    run != [] ==> Enabled(cl, t, run[0]) && Disciplined(t, run[0]) && DisciplinedRun(cl, Next(cl, t, run[0]), run[1..])
  }

  ghost predicate ReadersInside(t: State<Pipe, Frame>) {
    && (!t.s.readopen ==> forall p :: 0 <= p < |t.procs| ==> !InRead(t.procs[p]))
    && (forall p :: 0 <= p < |t.procs| && Waiter(t.procs[p], NREAD) ==> InRead(t.procs[p]))
  }

  lemma ActInside(writers: bool, t: State<Pipe, Frame>, p: nat, k: bool, q: nat)
    requires Enabled(PipeClient(writers), t, Act(p, k)) && q < |t.procs| && |t.s.data| == PIPESIZE
    ensures var u := Next(PipeClient(writers), t, Act(p, k));
            && |u.procs| == |t.procs|
            && (InRead(u.procs[q]) ==> InRead(t.procs[q]))
            && (q != p ==> u.procs[q] == t.procs[q])
            && (Waiter(u.procs[p], NREAD) ==> InRead(u.procs[p]))
            && (u.s.readopen == (t.s.readopen && t.procs[p] != Running(Close(false))))
  {
    ActIsStep(writers, t.s, t.procs[p].f, k);
  }

  lemma OtherInside(writers: bool, t: State<Pipe, Frame>, e: Event<Frame>, q: nat)
    requires Enabled(PipeClient(writers), t, e) && !e.Act? && q < |t.procs|
    ensures var u := Next(PipeClient(writers), t, e);
            && |u.procs| == |t.procs| && u.s == t.s
            && (InRead(u.procs[q]) <==> InRead(t.procs[q]) || (e.Call? && e.p == q && e.f.Read?))
            && (Waiter(u.procs[q], NREAD) ==> Waiter(t.procs[q], NREAD))
  {
  }

  lemma StepInside(writers: bool, t: State<Pipe, Frame>, e: Event<Frame>)
    requires ReadersInside(t) && Enabled(PipeClient(writers), t, e) && Disciplined(t, e) && |t.s.data| == PIPESIZE
    ensures ReadersInside(Next(PipeClient(writers), t, e))
  {
    hide Next;
    var u := Next(PipeClient(writers), t, e);
    if e.Act? {
      ActInside(writers, t, e.p, e.killed, e.p);
      forall q: nat | q < |u.procs|
        ensures (InRead(u.procs[q]) ==> InRead(t.procs[q])) && (q != e.p ==> u.procs[q] == t.procs[q])
      {
        ActInside(writers, t, e.p, e.killed, q);
      }
    } else {
      StepLength(PipeClient(writers), t, e);
      forall q: nat | q < |u.procs|
        ensures u.s == t.s && (InRead(u.procs[q]) <==> InRead(t.procs[q]) || (e.Call? && e.p == q && e.f.Read?))
        ensures Waiter(u.procs[q], NREAD) ==> Waiter(t.procs[q], NREAD)
      {
        OtherInside(writers, t, e, q);
      }
    }
  }

  lemma StepLength(cl: Client<Pipe, Frame>, t: State<Pipe, Frame>, e: Event<Frame>)
    requires Enabled(cl, t, e)
    ensures |Next(cl, t, e).procs| == |t.procs| && (!e.Act? ==> Next(cl, t, e).s == t.s)
  {
  }

  lemma {:induction false} RunInside(writers: bool, t: State<Pipe, Frame>, run: seq<Event<Frame>>)
    requires ReadersInside(t) && Locks(t) && Frames(PipeClient(writers), t)
    requires DisciplinedRun(PipeClient(writers), t, run)
    ensures Legal(PipeClient(writers), t, run) && ReadersInside(After(PipeClient(writers), t, run))
    decreases |run|
  {
    hide ReadersInside, Next, Enabled, Disciplined, Locks, Frames;
    if run != [] {
      var cl := PipeClient(writers);
      ClientIsSafe(writers);
      DataLength(writers, t);
      StepInside(writers, t, run[0]);
      StepLocks(cl, t, run[0]);
      StepFrames(cl, t, run[0]);
      RunInside(writers, Next(cl, t, run[0]), run[1..]);
    }
  }

  lemma DataLength(writers: bool, t: State<Pipe, Frame>)
    requires Frames(PipeClient(writers), t)
    ensures |t.s.data| == PIPESIZE
  {
  }

  /** A sleeper has reason to sleep: on nread that the pipe is empty and someone may write,
      on nwrite that it is full and someone may read. */
  ghost predicate SleepersJustified(u: State<Pipe, Frame>) {
    u.lk.None? ==> forall p :: 0 <= p < |u.procs| ==>
      && (Waiter(u.procs[p], NREAD) ==> |u.s.written| == |u.s.got| && u.s.writeopen)
      && (Waiter(u.procs[p], NWRITE) ==> |u.s.written| == |u.s.got| + PIPESIZE && u.s.readopen)
  }

  /** In every interleaving in which no writer is killed, readers killed or not, sleepers
      have reason to sleep. */
  lemma SleepersMean(t: State<Pipe, Frame>, run: seq<Event<Frame>>)
    requires Init(PipeClient(false), t) && DisciplinedRun(PipeClient(false), t, run)
    ensures Legal(PipeClient(false), t, run) && SleepersJustified(After(PipeClient(false), t, run))
  {
    var cl := PipeClient(false);
    assert Locks(t) && Frames(cl, t);
    hide Init, Legal, After, Fifo, DisciplinedRun, Locks, Frames;
    RunInside(false, t, run);
    ClientIsSafe(false);
    SharedInvariant(cl, t, run);
    var u := After(cl, t, run);
    Counters(u.s);
    forall p | 0 <= p < |u.procs| && u.lk.None?
      ensures Waiter(u.procs[p], NREAD) ==> |u.s.written| == |u.s.got| && u.s.writeopen
      ensures Waiter(u.procs[p], NWRITE) ==> |u.s.written| == |u.s.got| + PIPESIZE && u.s.readopen
    {
      if Waiter(u.procs[p], NREAD) { FairSleepers(t, run, p, NREAD); }
      if Waiter(u.procs[p], NWRITE) { FairSleepers(t, run, p, NWRITE); }
    }
  }

  // ------------------------------------------------------------ killed writers

  /** A killed writer is found at a full pipe that someone may still read. */
  ghost predicate KilledAtFull(t: State<Pipe, Frame>, e: Event<Frame>) {
    && e.Act? && e.killed && e.p < |t.procs| && t.procs[e.p].Running? && t.procs[e.p].f.Write?
    && t.procs[e.p].f.i < |t.procs[e.p].f.buf| && Full(t.s) && t.s.readopen
  }

  ghost predicate NoneKilledAtFull(t: State<Pipe, Frame>, run: seq<Event<Frame>>)
    requires Legal(PipeClient(true), t, run)
    decreases |run|
  {
    run != [] ==> !KilledAtFull(t, run[0]) && NoneKilledAtFull(Next(PipeClient(true), t, run[0]), run[1..])
  }

  lemma SameStep(t: State<Pipe, Frame>, e: Event<Frame>)
    requires Enabled(PipeClient(true), t, e) && !KilledAtFull(t, e)
    ensures Enabled(PipeClient(false), t, e) && Next(PipeClient(false), t, e) == Next(PipeClient(true), t, e)
  {
    if e.Act? {
      ActIsStep(true, t.s, t.procs[e.p].f, e.killed);
      ActIsStep(false, t.s, t.procs[e.p].f, e.killed);
    }
  }

  lemma {:induction false} SameRun(t: State<Pipe, Frame>, run: seq<Event<Frame>>)
    requires DisciplinedRun(PipeClient(true), t, run) && Legal(PipeClient(true), t, run) && NoneKilledAtFull(t, run)
    ensures DisciplinedRun(PipeClient(false), t, run) && Legal(PipeClient(false), t, run)
    ensures After(PipeClient(false), t, run) == After(PipeClient(true), t, run)
    decreases |run|
  {
    hide Next, Enabled, KilledAtFull, Disciplined;
    if run != [] {
      SameStep(t, run[0]);
      SameRun(Next(PipeClient(true), t, run[0]), run[1..]);
    }
  }

  /** Every single run with kills: sleepers have reason to sleep unless a killed writer was
      found at a full pipe. */
  lemma SleepersOfRun(t: State<Pipe, Frame>, run: seq<Event<Frame>>)
    requires Init(PipeClient(true), t) && DisciplinedRun(PipeClient(true), t, run)
    requires Legal(PipeClient(true), t, run) && NoneKilledAtFull(t, run)
    ensures SleepersJustified(After(PipeClient(true), t, run))
  {
    hide Legal, After, DisciplinedRun, NoneKilledAtFull, SleepersJustified;
    SameRun(t, run);
    SleepersMean(t, run);
  }

  // A reader asleep, a writer killed when the pipe is full.

  const SLEEPER: Pc<Frame> := Asleep(NREAD, Read(1))

  function Filled(k: nat): Pipe {
    Pipe(Zeros(PIPESIZE), 0, k, true, true, Zeros(k), [])
  }

  function Writing(k: nat): State<Pipe, Frame> {
    State(Filled(k), Some(1), None, [SLEEPER, Running(Write(Zeros(PIPESIZE + 1), k))])
  }

  ghost function FillRun(k: nat): seq<Event<Frame>>
    requires k <= PIPESIZE
    decreases PIPESIZE - k
  {
    if k == PIPESIZE then [Act(1, true)] else [Act(1, false)] + FillRun(k + 1)
  }

  lemma ActIsStep(writers: bool, s: Pipe, f: Frame, k: bool)
    ensures PipeClient(writers).act(s, f, k) == Step(s, f, Seen(writers, f, k))
  {
  }

  lemma PutZero(k: nat)
    requires k < PIPESIZE
    ensures Put(Filled(k), 0) == Filled(k + 1)
  {
    ZerosAt(PIPESIZE, k);
    assert Zeros(PIPESIZE)[k % PIPESIZE := 0] == Zeros(PIPESIZE);
  }

  lemma WriteOne(k: nat)
    requires k < PIPESIZE
    ensures Enabled(PipeClient(true), Writing(k), Act(1, false))
    ensures Next(PipeClient(true), Writing(k), Act(1, false)) == Writing(k + 1)
  {
    hide Zeros, Put;
    ActIsStep(true, Filled(k), Write(Zeros(PIPESIZE + 1), k), false);
    ZerosAt(PIPESIZE + 1, k);
    PutZero(k);
  }

  lemma KilledWhenFull()
    ensures Legal(PipeClient(true), Writing(PIPESIZE), [Act(1, true)])
    ensures DisciplinedRun(PipeClient(true), Writing(PIPESIZE), [Act(1, true)])
    ensures After(PipeClient(true), Writing(PIPESIZE), [Act(1, true)]) ==
              State(Filled(PIPESIZE), None, None, [SLEEPER, Outside])
  {
    var cl, t := PipeClient(true), Writing(PIPESIZE);
    ActIsStep(true, Filled(PIPESIZE), Write(Zeros(PIPESIZE + 1), PIPESIZE), true);
    assert Next(cl, t, Act(1, true)) == State(Filled(PIPESIZE), None, None, [SLEEPER, Outside]);
    var last: Event<Frame> := Act(1, true);
    assert [last] == [last] + [];
    Then(cl, t, last, State(Filled(PIPESIZE), None, None, [SLEEPER, Outside]), []);
  }

  lemma {:induction false} FillRunEnds(k: nat)
    requires k <= PIPESIZE
    ensures Legal(PipeClient(true), Writing(k), FillRun(k)) && DisciplinedRun(PipeClient(true), Writing(k), FillRun(k))
    ensures After(PipeClient(true), Writing(k), FillRun(k)) == State(Filled(PIPESIZE), None, None, [SLEEPER, Outside])
    decreases PIPESIZE - k
  {
    hide Next, Enabled;
    if k == PIPESIZE {
      KilledWhenFull();
    } else {
      FillRunEnds(k + 1);
      WriteOne(k);
      Then(PipeClient(true), Writing(k), Act(1, false), Writing(k + 1), FillRun(k + 1));
    }
  }

  /** The state of the example at an empty pipe with the reader at `pc`. */
  function Idle(lk: Option<nat>, pt: Option<Holder>, pc: Pc<Frame>): State<Pipe, Frame> {
    State(Filled(0), lk, pt, [pc, Outside])
  }

  /** The reader finds the pipe empty and falls asleep. */
  lemma ReaderFallsAsleep(rest: seq<Event<Frame>>) returns (run: seq<Event<Frame>>)
    requires Legal(PipeClient(true), Idle(None, None, SLEEPER), rest)
    requires DisciplinedRun(PipeClient(true), Idle(None, None, SLEEPER), rest)
    ensures Legal(PipeClient(true), Idle(None, None, Outside), run)
    ensures DisciplinedRun(PipeClient(true), Idle(None, None, Outside), run)
    ensures After(PipeClient(true), Idle(None, None, Outside), run) ==
              After(PipeClient(true), Idle(None, None, SLEEPER), rest)
  {
    hide Legal, After, DisciplinedRun;
    var cl, f := PipeClient(true), Read(1);
    ActIsStep(true, Filled(0), f, false);
    run := rest;
    Then(cl, Idle(None, Some(Scheduler), SLEEPER), SchedUnlock, Idle(None, None, SLEEPER), run);
    run := [SchedUnlock] + run;
    Then(cl, Idle(None, Some(Proc(0)), Sleep3(NREAD, f)), FallAsleep(0), Idle(None, Some(Scheduler), SLEEPER), run);
    run := [FallAsleep(0)] + run;
    Then(cl, Idle(Some(0), Some(Proc(0)), Sleep2(NREAD, f)), ReleaseLk(0),
         Idle(None, Some(Proc(0)), Sleep3(NREAD, f)), run);
    run := [ReleaseLk(0)] + run;
    Then(cl, Idle(Some(0), None, Sleep1(NREAD, f)), LockTable(0), Idle(Some(0), Some(Proc(0)), Sleep2(NREAD, f)), run);
    run := [LockTable(0)] + run;
    Then(cl, Idle(Some(0), None, Running(f)), Act(0, false), Idle(Some(0), None, Sleep1(NREAD, f)), run);
    run := [Act(0, false)] + run;
    Then(cl, Idle(None, None, Entering(f)), Acquire(0), Idle(Some(0), None, Running(f)), run);
    run := [Acquire(0)] + run;
    Then(cl, Idle(None, None, Outside), Call(0, f), Idle(None, None, Entering(f)), run);
    run := [Call(0, f)] + run;
  }

  lemma Then(cl: Client<Pipe, Frame>, t: State<Pipe, Frame>, e: Event<Frame>, t': State<Pipe, Frame>,
             rest: seq<Event<Frame>>)
    requires Enabled(cl, t, e) && Disciplined(t, e) && Next(cl, t, e) == t' && Legal(cl, t', rest)
    requires DisciplinedRun(cl, t', rest)
    ensures Legal(cl, t, [e] + rest) && DisciplinedRun(cl, t, [e] + rest)
    ensures After(cl, t, [e] + rest) == After(cl, t', rest)
  {
    hide Enabled, Next, Disciplined;
    Cons(cl, t, e, rest);
    assert ([e] + rest)[1..] == rest;
  }

  /** A writer killed while the pipe is full returns without waking a reader that went to
      sleep when it was empty. */
  lemma KilledWriterLosesWakeup() returns (t: State<Pipe, Frame>, run: seq<Event<Frame>>)
    ensures Init(PipeClient(true), t) && DisciplinedRun(PipeClient(true), t, run) && Legal(PipeClient(true), t, run)
    ensures !SleepersJustified(After(PipeClient(true), t, run))
  {
    hide Legal, After, DisciplinedRun;
    var cl, f := PipeClient(true), Write(Zeros(PIPESIZE + 1), 0);
    t := Idle(None, None, Outside);
    FilledFifo();
    FillRunEnds(0);
    run := FillRun(0);
    Then(cl, State(Filled(0), None, None, [SLEEPER, Entering(f)]), Acquire(1), Writing(0), run);
    run := [Acquire(1)] + run;
    Then(cl, Idle(None, None, SLEEPER), Call(1, f), State(Filled(0), None, None, [SLEEPER, Entering(f)]), run);
    run := [Call(1, f)] + run;
    run := ReaderFallsAsleep(run);
    var u := After(cl, t, run);
    assert Waiter(u.procs[0], NREAD) && u.s == Filled(PIPESIZE);
  }

  lemma FilledFifo()
    ensures Fifo(Filled(0))
  {
  }

  /** While p->lock is free, the sleepers on a pipe have reason to sleep in every
      interleaving if and only if no writer is ever killed. Killed readers do no harm. */
  lemma SleepersJustifiedIff(writers: bool)
    ensures var c := PipeClient(writers);
            (forall t, run :: Init(c, t) && DisciplinedRun(c, t, run) && Legal(c, t, run) ==>
               SleepersJustified(After(c, t, run)))
            <==> !writers
  {
    hide Init, Legal, After, DisciplinedRun, SleepersJustified;
    if writers {
      var t, run := KilledWriterLosesWakeup();
    } else {
      forall t, run | Init(PipeClient(false), t) && DisciplinedRun(PipeClient(false), t, run)
          && Legal(PipeClient(false), t, run)
        ensures SleepersJustified(After(PipeClient(false), t, run))
      {
        SleepersMean(t, run);
      }
    }
  }
}
