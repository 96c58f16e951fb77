/** sleeplock.c as a client of sleep() and wakeup(). */
module SleepLock {
  import opened Basics
  import opened Monitor

  const CHAN := 0   // the sleep-lock's own address

  /** lk->locked and lk->pid. */
  datatype Lock = Lock(locked: bool, pid: int)

  datatype Frame =
    | Acquiring(pid: int)   // acquiresleep(), at the while test
    | Releasing             // releasesleep(), before lk->locked = 0
    | Waking                // before wakeup(lk)
    | Released              // before release(&lk->lk)

  function Step(s: Lock, f: Frame, killed: bool): Action<Lock, Frame> {
    match f
    case Acquiring(pid) => if s.locked then Sleep(CHAN, f) else Leave(Lock(true, pid))
    case Releasing => Go(Lock(false, 0), Waking)
    case Waking => Wake(CHAN, Released)
    case Released => Leave(s)
  }

  predicate Reason(c: int, s: Lock) { c == CHAN && s.locked }

  predicate OwesWakeup(f: Frame, c: int) { c == CHAN && f.Waking? }

  predicate IsEntry(f: Frame) { f.Acquiring? || f.Releasing? }

  function SleepLockClient(): Client<Lock, Frame> {
    Client(Step, Reason, OwesWakeup, (s: Lock) => true, (s: Lock, f: Frame) => true, IsEntry)
  }

  lemma ClientIsFair()
    ensures Safe(SleepLockClient()) && Fair(SleepLockClient())
  {
  }

  /** In every interleaving: while the inner spin-lock is free and the sleep-lock is not
      taken, no process is asleep on it or committed to sleeping on it. */
  lemma NobodySleepsOnAFreeLock(t: State<Lock, Frame>, run: seq<Event<Frame>>)
    requires Init(SleepLockClient(), t) && Legal(SleepLockClient(), t, run)
    ensures var u := After(SleepLockClient(), t, run);
            u.lk.None? && !u.s.locked ==> forall p, c :: 0 <= p < |u.procs| ==> !Waiter(u.procs[p], c)
  {
    ClientIsFair();
    NoLostWakeup(SleepLockClient(), t, run);
    var u := After(SleepLockClient(), t, run);
    forall p, c | 0 <= p < |u.procs| && Waiter(u.procs[p], c) && u.lk.None? ensures u.s.locked {
      assert SleepLockClient().wait(c, u.s);
    }
  }

  // ------------------------------------------------------------ mutual exclusion

  /** The processes between the end of acquiresleep() and the store that frees the lock
      in releasesleep(), updated by one event. */
  ghost function Holders(h: set<nat>, t: State<Lock, Frame>, e: Event<Frame>): set<nat> {
    if e.Act? && e.p < |t.procs| && t.procs[e.p].Running? then
      match t.procs[e.p].f
      case Acquiring(_) => if t.s.locked then h else h + {e.p}
      case Releasing => h - {e.p}
      case _ => h
    else h
  }

  /** Only a holder calls releasesleep(), and it does not acquire the lock again. */
  ghost predicate Disciplined(h: set<nat>, e: Event<Frame>) {
    e.Call? ==> (e.f.Releasing? <==> e.p in h)
  }

  ghost predicate DisciplinedRun(h: set<nat>, t: State<Lock, Frame>, run: seq<Event<Frame>>)
    decreases |run|
  {
    run != [] ==>
      && Enabled(SleepLockClient(), t, run[0]) && Disciplined(h, run[0])
      && DisciplinedRun(Holders(h, t, run[0]), Next(SleepLockClient(), t, run[0]), run[1..])
  }

  ghost function HoldersAfter(h: set<nat>, t: State<Lock, Frame>, run: seq<Event<Frame>>)
    : (set<nat>, State<Lock, Frame>)
    requires DisciplinedRun(h, t, run)
    decreases |run|
  {
    if run == [] then (h, t)
    else HoldersAfter(Holders(h, t, run[0]), Next(SleepLockClient(), t, run[0]), run[1..])
  }

  predicate AtRelease(pc: Pc<Frame>) {
    (pc.Entering? || pc.Running?) && pc.f.Releasing?
  }

  predicate InAcquire(pc: Pc<Frame>) {
    !pc.Outside? && pc.f.Acquiring?
  }

  ghost predicate Exclusive(h: set<nat>, t: State<Lock, Frame>) {
    && (t.s.locked <==> h != {})
    && (forall p, q :: p in h && q in h ==> p == q)
    && (forall p :: 0 <= p < |t.procs| && AtRelease(t.procs[p]) ==> p in h)
    && (forall p :: 0 <= p < |t.procs| && InAcquire(t.procs[p]) ==> p !in h)
    && (forall p :: 0 <= p < |t.procs| && !t.procs[p].Outside? && t.procs[p].f.Releasing? ==> AtRelease(t.procs[p]))
  }

  lemma ActExclusive(h: set<nat>, t: State<Lock, Frame>, p: nat, k: bool)
    requires Exclusive(h, t) && Enabled(SleepLockClient(), t, Act(p, k))
    ensures Exclusive(Holders(h, t, Act(p, k)), Next(SleepLockClient(), t, Act(p, k)))
  {
    if t.procs[p].f.Releasing? { assert h == {p}; }
    assert SleepLockClient().act(t.s, t.procs[p].f, k) == Step(t.s, t.procs[p].f, k);
  }

  lemma CallExclusive(h: set<nat>, t: State<Lock, Frame>, p: nat, f: Frame)
    requires Exclusive(h, t) && Enabled(SleepLockClient(), t, Call(p, f)) && Disciplined(h, Call(p, f))
    ensures Exclusive(h, Next(SleepLockClient(), t, Call(p, f)))
  {
  }

  /** The steps inside sleep(), wakeup() and the scheduler leave every frame alone. */
  lemma OtherStepKeepsFrames(t: State<Lock, Frame>, e: Event<Frame>)
    requires Enabled(SleepLockClient(), t, e) && !e.Act? && !e.Call?
    ensures var t' := Next(SleepLockClient(), t, e);
            && |t'.procs| == |t.procs| && t'.s == t.s
            && forall q :: 0 <= q < |t.procs| ==> SameFrame(t.procs[q], t'.procs[q])
  {
  }

  predicate SameFrame(a: Pc<Frame>, b: Pc<Frame>) {
    && a.Outside? == b.Outside?
    && (!a.Outside? ==> a.f == b.f)
    && (AtRelease(a) ==> AtRelease(b))
  }

  lemma StepExclusive(h: set<nat>, t: State<Lock, Frame>, e: Event<Frame>)
    requires Exclusive(h, t) && Enabled(SleepLockClient(), t, e) && Disciplined(h, e)
    ensures Exclusive(Holders(h, t, e), Next(SleepLockClient(), t, e))
  {
    hide Next, Enabled;
    match e
    case Act(p, k) => ActExclusive(h, t, p, k);
    case Call(p, f) => CallExclusive(h, t, p, f);
    case _ => OtherStepKeepsFrames(t, e);
  }

  lemma {:induction false} RunExclusive(h: set<nat>, t: State<Lock, Frame>, run: seq<Event<Frame>>)
    requires Exclusive(h, t) && DisciplinedRun(h, t, run)
    ensures Exclusive(HoldersAfter(h, t, run).0, HoldersAfter(h, t, run).1)
    decreases |run|
  {
    hide Exclusive, Next, Enabled, Holders, Disciplined;
    if run != [] {
      StepExclusive(h, t, run[0]);
      RunExclusive(Holders(h, t, run[0]), Next(SleepLockClient(), t, run[0]), run[1..]);
    }
  }

  /** In every disciplined interleaving at most one process holds the sleep-lock, and
      lk->locked says whether one does. */
  lemma MutualExclusion(t: State<Lock, Frame>, run: seq<Event<Frame>>)
    requires Init(SleepLockClient(), t) && !t.s.locked && DisciplinedRun({}, t, run)
    ensures var (h, u) := HoldersAfter({}, t, run);
            (forall p, q :: p in h && q in h ==> p == q) && (u.s.locked <==> h != {})
  {
    RunExclusive({}, t, run);
  }
}
