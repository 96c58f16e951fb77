/** sleep() and wakeup() of proc.c, for any code that uses them under a spin-lock.

The machine interleaves any number of processes over one spin-lock `lk`, the state it
protects, and ptable.lock. sleep() takes ptable.lock, releases `lk`, marks the process
SLEEPING and hands ptable.lock to the scheduler; wakeup() takes ptable.lock while `lk`
is held. What a process does under `lk` is given by a client: a function from the
shared state and the process's own frame to the next action. */
module Monitor {

  import opened Basics

  /** One action of the process that holds the lock. */
  datatype Action<S, F> =
    | Go(s: S, f: F)        // change the shared state and go on
    | Sleep(c: int, f: F)   // sleep(c, lk); on waking go on at f
    | Wake(c: int, f: F)    // wakeup(c); go on at f
    | Leave(s: S)           // release(lk) and return

  /** Where a process is. The comments say which locks it holds. */
  datatype Pc<F> =
    | Outside
    | Entering(f: F)          // none, about to acquire lk
    | Running(f: F)           // lk
    | Sleep1(c: int, f: F)    // lk; in sleep(), about to acquire ptable.lock
    | Sleep2(c: int, f: F)    // lk and ptable.lock; about to release lk
    | Sleep3(c: int, f: F)    // ptable.lock; about to become SLEEPING
    | Asleep(c: int, f: F)    // none; SLEEPING on c
    | Runnable(f: F)          // none; woken, not yet scheduled
    | Resumed(f: F)           // ptable.lock, from the scheduler; about to release it
    | Wake1(c: int, f: F)     // lk; in wakeup(), about to acquire ptable.lock
    | Wake2(c: int, f: F)     // lk and ptable.lock; about to run wakeup1()
    | Wake3(f: F)             // lk and ptable.lock; about to release ptable.lock

  datatype Holder = Proc(p: nat) | Scheduler

  datatype State<S, F> = State(s: S, lk: Option<nat>, pt: Option<Holder>, procs: seq<Pc<F>>)

  /** A client: what it does (the bool is p->killed at that moment), when a sleeper on a
      channel has reason to sleep, which wakeups a frame still owes, and its invariants:
      of the shared state, of a frame while the lock is held, and of the frames at
      which the lock is taken. */
  datatype Client<!S, !F> = Client(
    act: (S, F, bool) -> Action<S, F>,
    wait: (int, S) -> bool,
    owes: (F, int) -> bool,
    inv: S -> bool,
    ok: (S, F) -> bool,
    entry: F -> bool)

  /** The action keeps the client's own invariants. */
  ghost predicate SafeAct<S(!new), F(!new)>(cl: Client<S, F>, s: S, a: Action<S, F>) {
    match a
    case Go(s', f') => cl.inv(s') && cl.ok(s', f')
    case Sleep(c, f') => cl.entry(f')
    case Wake(c, f') => cl.ok(s, f')
    case Leave(s') => cl.inv(s')
  }

  ghost predicate Safe<S(!new), F(!new)>(cl: Client<S, F>) {
    && (forall s, f :: cl.inv(s) && cl.entry(f) ==> cl.ok(s, f))
    && (forall s, f, k :: cl.inv(s) && cl.ok(s, f) ==> SafeAct(cl, s, cl.act(s, f, k)))
  }

  /** The client's side of the bargain: it sleeps only with reason, and a reason it takes
      away from others it repays with a wakeup before it lets go of the lock. */
  ghost predicate FairAct<S(!new), F(!new)>(cl: Client<S, F>, s: S, f: F, a: Action<S, F>) {
    match a
    case Go(s', f') => forall c :: cl.owes(f, c) || cl.wait(c, s) ==> cl.owes(f', c) || cl.wait(c, s')
    case Sleep(c, f') => cl.wait(c, s) && forall d :: cl.owes(f, d) ==> cl.wait(d, s)
    case Wake(c, f') => forall d :: cl.owes(f, d) && d != c ==> cl.owes(f', d) || cl.wait(d, s)
    case Leave(s') => forall d :: cl.owes(f, d) || cl.wait(d, s) ==> cl.wait(d, s')
  }

  ghost predicate Fair<S(!new), F(!new)>(cl: Client<S, F>) {
    forall s, f, k :: cl.inv(s) && cl.ok(s, f) ==> FairAct(cl, s, f, cl.act(s, f, k))
  }

  // ------------------------------------------------------------ steps

  datatype Event<F> =
    | Call(p: nat, f: F)
    | Acquire(p: nat)
    | Act(p: nat, killed: bool)
    | LockTable(p: nat)      // in sleep() or wakeup(): acquire(&ptable.lock)
    | ReleaseLk(p: nat)      // in sleep(): release(lk)
    | FallAsleep(p: nat)     // p->chan, p->state = SLEEPING, sched()
    | Rouse(p: nat)          // in wakeup(): wakeup1(chan)
    | UnlockTable(p: nat)    // release(&ptable.lock) after wakeup1() or after sched()
    | Kill(p: nat)           // kill() makes a sleeper RUNNABLE
    | SchedLock
    | SchedUnlock
    | Dispatch(p: nat)       // the scheduler switches to a RUNNABLE process

  predicate Enabled<S(!new), F(!new)>(cl: Client<S, F>, t: State<S, F>, e: Event<F>) {
    match e
    case SchedLock => t.pt.None?
    case SchedUnlock => t.pt == Some(Scheduler)
    case Call(p, f) => p < |t.procs| && t.procs[p].Outside? && cl.entry(f)
    case Acquire(p) => p < |t.procs| && t.procs[p].Entering? && t.lk.None?
    case Act(p, _) => p < |t.procs| && t.procs[p].Running?
    case LockTable(p) => p < |t.procs| && (t.procs[p].Sleep1? || t.procs[p].Wake1?) && t.pt.None?
    case ReleaseLk(p) => p < |t.procs| && t.procs[p].Sleep2?
    case FallAsleep(p) => p < |t.procs| && t.procs[p].Sleep3?
    case Rouse(p) => p < |t.procs| && t.procs[p].Wake2?
    case UnlockTable(p) => p < |t.procs| && (t.procs[p].Wake3? || t.procs[p].Resumed?)
    case Kill(p) => p < |t.procs| && t.procs[p].Asleep? && t.pt.None?
    case Dispatch(p) => p < |t.procs| && t.procs[p].Runnable? && t.pt == Some(Scheduler)
  }

  /** wakeup1(): every process SLEEPING on `c` becomes RUNNABLE. */
  function Woken<F(!new)>(procs: seq<Pc<F>>, c: int): (r: seq<Pc<F>>)
    ensures |r| == |procs|
    ensures forall i :: 0 <= i < |procs| ==>
              r[i] == if procs[i].Asleep? && procs[i].c == c then Runnable(procs[i].f) else procs[i]
  {
    seq(|procs|, i requires 0 <= i < |procs| =>
      if procs[i].Asleep? && procs[i].c == c then Runnable(procs[i].f) else procs[i])
  }

  function Next<S(!new), F(!new)>(cl: Client<S, F>, t: State<S, F>, e: Event<F>): State<S, F>
    requires Enabled(cl, t, e)
  {
    match e
    case SchedLock => t.(pt := Some(Scheduler))
    case SchedUnlock => t.(pt := None)
    case Call(p, f) => t.(procs := t.procs[p := Entering(f)])
    case Acquire(p) => t.(procs := t.procs[p := Running(t.procs[p].f)], lk := Some(p))
    case Act(p, killed) =>
      (match cl.act(t.s, t.procs[p].f, killed)
       case Go(s, f) => t.(s := s, procs := t.procs[p := Running(f)])
       case Sleep(c, f) => t.(procs := t.procs[p := Sleep1(c, f)])
       case Wake(c, f) => t.(procs := t.procs[p := Wake1(c, f)])
       case Leave(s) => t.(s := s, procs := t.procs[p := Outside], lk := None))
    case LockTable(p) =>
      t.(pt := Some(Proc(p)),
         procs := t.procs[p := if t.procs[p].Sleep1? then Sleep2(t.procs[p].c, t.procs[p].f)
                               else Wake2(t.procs[p].c, t.procs[p].f)])
    case ReleaseLk(p) => t.(lk := None, procs := t.procs[p := Sleep3(t.procs[p].c, t.procs[p].f)])
    case FallAsleep(p) =>
      t.(pt := Some(Scheduler), procs := t.procs[p := Asleep(t.procs[p].c, t.procs[p].f)])
    case Rouse(p) => t.(procs := Woken(t.procs, t.procs[p].c)[p := Wake3(t.procs[p].f)])
    case UnlockTable(p) =>
      t.(pt := None, procs := t.procs[p := if t.procs[p].Wake3? then Running(t.procs[p].f)
                                           else Entering(t.procs[p].f)])
    case Kill(p) => t.(procs := t.procs[p := Runnable(t.procs[p].f)])
    case Dispatch(p) => t.(pt := Some(Proc(p)), procs := t.procs[p := Resumed(t.procs[p].f)])
  }

  ghost predicate Legal<S(!new), F(!new)>(cl: Client<S, F>, t: State<S, F>, run: seq<Event<F>>)
    decreases |run|
  {
    run != [] ==> Enabled(cl, t, run[0]) && Legal(cl, Next(cl, t, run[0]), run[1..])
  }

  ghost function After<S(!new), F(!new)>(cl: Client<S, F>, t: State<S, F>, run: seq<Event<F>>): State<S, F>
    requires Legal(cl, t, run)
    decreases |run|
  {
    if run == [] then t else After(cl, Next(cl, t, run[0]), run[1..])
  }

  // ------------------------------------------------------------ the invariant

  predicate HasLk<F(!new)>(pc: Pc<F>) {
    pc.Running? || pc.Sleep1? || pc.Sleep2? || pc.Wake1? || pc.Wake2? || pc.Wake3?
  }

  predicate HasPt<F(!new)>(pc: Pc<F>) {
    pc.Sleep2? || pc.Sleep3? || pc.Resumed? || pc.Wake2? || pc.Wake3?
  }

  /** Asleep on `c`, or committed to sleeping on it. */
  predicate Waiter<F(!new)>(pc: Pc<F>, c: int) {
    (pc.Sleep1? || pc.Sleep2? || pc.Sleep3? || pc.Asleep?) && pc.c == c
  }

  /** The wakeups a process at `pc` has still to do before it releases the lock. */
  predicate Owed<S(!new), F(!new)>(cl: Client<S, F>, pc: Pc<F>, c: int) {
    match pc
    case Running(f) => cl.owes(f, c)
    case Wake1(d, f) => c == d || cl.owes(f, c)
    case Wake2(d, f) => c == d || cl.owes(f, c)
    case Wake3(f) => cl.owes(f, c)
    case _ => false
  }

  predicate FrameOk<S(!new), F(!new)>(cl: Client<S, F>, s: S, pc: Pc<F>) {
    match pc
    case Outside => true
    case Running(f) => cl.ok(s, f)
    case Wake1(_, f) => cl.ok(s, f)
    case Wake2(_, f) => cl.ok(s, f)
    case Wake3(f) => cl.ok(s, f)
    case _ => cl.entry(pc.f)
  }

  ghost predicate Locks<S(!new), F(!new)>(t: State<S, F>) {
    && (forall p :: 0 <= p < |t.procs| ==> (HasLk(t.procs[p]) <==> t.lk == Some(p)))
    && (forall p :: 0 <= p < |t.procs| ==> (HasPt(t.procs[p]) <==> t.pt == Some(Proc(p))))
    && (t.lk.Some? ==> t.lk.value < |t.procs|)
  }

  ghost predicate Frames<S(!new), F(!new)>(cl: Client<S, F>, t: State<S, F>) {
    cl.inv(t.s) && forall p :: 0 <= p < |t.procs| ==> FrameOk(cl, t.s, t.procs[p])
  }

  /** Whoever waits on a channel has reason to, or the holder of the lock owes it a wakeup. */
  ghost predicate Debts<S(!new), F(!new)>(cl: Client<S, F>, t: State<S, F>) {
    forall p, c :: 0 <= p < |t.procs| && Waiter(t.procs[p], c) ==> Justified(cl, t, c)
  }

  predicate Justified<S(!new), F(!new)>(cl: Client<S, F>, t: State<S, F>, c: int) {
    cl.wait(c, t.s) || (t.lk.Some? && t.lk.value < |t.procs| && Owed(cl, t.procs[t.lk.value], c))
  }

  ghost predicate Inv<S(!new), F(!new)>(cl: Client<S, F>, t: State<S, F>) {
    Locks(t) && Frames(cl, t) && Debts(cl, t)
  }

  lemma StepLocks<S(!new), F(!new)>(cl: Client<S, F>, t: State<S, F>, e: Event<F>)
    requires Locks(t) && Enabled(cl, t, e)
    ensures Locks(Next(cl, t, e))
  {
    hide Next, Enabled;
    NextProcs(cl, t, e);
    forall q | 0 <= q < |t.procs|
      ensures HasLk(Next(cl, t, e).procs[q]) <==> Next(cl, t, e).lk == Some(q)
      ensures HasPt(Next(cl, t, e).procs[q]) <==> Next(cl, t, e).pt == Some(Proc(q))
    {
      NextLk(cl, t, e, q);
      NextPt(cl, t, e, q);
    }
  }

  lemma NextProcs<S(!new), F(!new)>(cl: Client<S, F>, t: State<S, F>, e: Event<F>)
    requires Locks(t) && Enabled(cl, t, e)
    ensures |Next(cl, t, e).procs| == |t.procs|
    ensures Next(cl, t, e).lk.Some? ==> Next(cl, t, e).lk.value < |t.procs|
  {
  }

  lemma NextLk<S(!new), F(!new)>(cl: Client<S, F>, t: State<S, F>, e: Event<F>, q: nat)
    requires Locks(t) && Enabled(cl, t, e) && q < |t.procs| == |Next(cl, t, e).procs|
    ensures HasLk(Next(cl, t, e).procs[q]) <==> Next(cl, t, e).lk == Some(q)
  {
    assert HasLk(t.procs[q]) <==> t.lk == Some(q);
    if !e.SchedLock? && !e.SchedUnlock? { assert HasLk(t.procs[e.p]) <==> t.lk == Some(e.p); }
  }

  lemma NextPt<S(!new), F(!new)>(cl: Client<S, F>, t: State<S, F>, e: Event<F>, q: nat)
    requires Locks(t) && Enabled(cl, t, e) && q < |t.procs| == |Next(cl, t, e).procs|
    ensures HasPt(Next(cl, t, e).procs[q]) <==> Next(cl, t, e).pt == Some(Proc(q))
  {
    assert HasPt(t.procs[q]) <==> t.pt == Some(Proc(q));
    if !e.SchedLock? && !e.SchedUnlock? { assert HasPt(t.procs[e.p]) <==> t.pt == Some(Proc(e.p)); }
  }

  lemma StepFrames<S(!new), F(!new)>(cl: Client<S, F>, t: State<S, F>, e: Event<F>)
    requires Safe(cl) && Locks(t) && Frames(cl, t) && Enabled(cl, t, e)
    ensures Frames(cl, Next(cl, t, e))
  {
    match e
    case Act(p, killed) =>
      assert FrameOk(cl, t.s, t.procs[p]);
      assert SafeAct(cl, t.s, cl.act(t.s, t.procs[p].f, killed));
    case _ =>
  }

  /** A waiter after the step waited before it, or has just decided to. */
  lemma WaitersBefore<S(!new), F(!new)>(cl: Client<S, F>, t: State<S, F>, e: Event<F>, q: nat, c: int)
    requires Enabled(cl, t, e) && q < |Next(cl, t, e).procs| && Waiter(Next(cl, t, e).procs[q], c)
    ensures q < |t.procs|
    ensures Waiter(t.procs[q], c) || (e.Act? && e.p == q)
  {
  }

  lemma ActDebts<S(!new), F(!new)>(cl: Client<S, F>, t: State<S, F>, p: nat, killed: bool, q: nat, c: int)
    requires Fair(cl) && Inv(cl, t) && Enabled(cl, t, Act(p, killed))
    requires q < |t.procs| && Waiter(Next(cl, t, Act(p, killed)).procs[q], c)
    ensures Justified(cl, Next(cl, t, Act(p, killed)), c)
  {
    assert FrameOk(cl, t.s, t.procs[p]);
    assert FairAct(cl, t.s, t.procs[p].f, cl.act(t.s, t.procs[p].f, killed));
    if Waiter(t.procs[q], c) { assert Justified(cl, t, c); }
  }

  lemma StepDebts<S(!new), F(!new)>(cl: Client<S, F>, t: State<S, F>, e: Event<F>)
    requires Fair(cl) && Inv(cl, t) && Enabled(cl, t, e)
    ensures Debts(cl, Next(cl, t, e))
  {
    hide Fair, Frames;
    var t' := Next(cl, t, e);
    forall q, c | 0 <= q < |t'.procs| && Waiter(t'.procs[q], c) ensures Justified(cl, t', c) {
      if e.Act? {
        ActDebts(cl, t, e.p, e.killed, q, c);
      } else {
        WaitersBefore(cl, t, e, q, c);
        assert Justified(cl, t, c);
        if e.Rouse? { assert q == e.p || !HasPt(t.procs[q]); }
      }
    }
  }

  ghost predicate Init<S(!new), F(!new)>(cl: Client<S, F>, t: State<S, F>) {
    cl.inv(t.s) && t.lk.None? && t.pt.None? && forall p :: 0 <= p < |t.procs| ==> t.procs[p].Outside?
  }

  lemma {:induction false} RunSafe<S(!new), F(!new)>(cl: Client<S, F>, t: State<S, F>, run: seq<Event<F>>)
    requires Safe(cl) && Locks(t) && Frames(cl, t) && Legal(cl, t, run)
    ensures Locks(After(cl, t, run)) && Frames(cl, After(cl, t, run))
    decreases |run|
  {
    hide Locks, Frames, Safe, Enabled, Next;
    if run != [] {
      StepLocks(cl, t, run[0]);
      StepFrames(cl, t, run[0]);
      RunSafe(cl, Next(cl, t, run[0]), run[1..]);
    }
  }

  lemma {:induction false} RunInv<S(!new), F(!new)>(cl: Client<S, F>, t: State<S, F>, run: seq<Event<F>>)
    requires Safe(cl) && Fair(cl) && Inv(cl, t) && Legal(cl, t, run)
    ensures Inv(cl, After(cl, t, run))
    decreases |run|
  {
    hide Locks, Frames, Debts, Safe, Fair, Enabled, Next;
    if run != [] {
      StepLocks(cl, t, run[0]);
      StepFrames(cl, t, run[0]);
      StepDebts(cl, t, run[0]);
      RunInv(cl, Next(cl, t, run[0]), run[1..]);
    }
  }

  /** The shared invariant holds in every interleaving. */
  lemma SharedInvariant<S(!new), F(!new)>(cl: Client<S, F>, t: State<S, F>, run: seq<Event<F>>)
    requires Safe(cl) && Init(cl, t) && Legal(cl, t, run)
    ensures cl.inv(After(cl, t, run).s)
  {
    RunSafe(cl, t, run);
  }

  /** No lost wakeup, for every fair client and every interleaving: while the lock is
      free, whoever sleeps on a channel or is committed to sleeping on it has reason to. */
  lemma NoLostWakeup<S(!new), F(!new)>(cl: Client<S, F>, t: State<S, F>, run: seq<Event<F>>)
    requires Safe(cl) && Fair(cl) && Init(cl, t) && Legal(cl, t, run)
    ensures var u := After(cl, t, run);
            u.lk.None? ==> forall p, c :: 0 <= p < |u.procs| && Waiter(u.procs[p], c) ==> cl.wait(c, u.s)
  {
    assert Inv(cl, t);
    RunInv(cl, t, run);
    var u := After(cl, t, run);
    forall p, c | 0 <= p < |u.procs| && Waiter(u.procs[p], c) && u.lk.None? ensures cl.wait(c, u.s) {
      assert Justified(cl, u, c);
    }
  }

  /** A run that starts with `e` and continues as `rest`. */
  lemma Cons<S(!new), F(!new)>(cl: Client<S, F>, t: State<S, F>, e: Event<F>, rest: seq<Event<F>>)
    requires Enabled(cl, t, e) && Legal(cl, Next(cl, t, e), rest)
    ensures Legal(cl, t, [e] + rest) && After(cl, t, [e] + rest) == After(cl, Next(cl, t, e), rest)
  {
    assert ([e] + rest)[1..] == rest;
  }
}
