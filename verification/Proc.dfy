/** The process table of proc.c: scheduling, fork(), exit() and wait() on any number of
CPUs, with ptable.lock handed from thread to thread across swtch().

A CPU runs either its scheduler thread or the kernel thread of a process, on that
process's kernel stack. Each event is one step of the thread the CPU is running. */
module Proc {

  import opened Basics

  datatype RunState = UNUSED | EMBRYO | SLEEPING | RUNNABLE | RUNNING | ZOMBIE

  /** A process sleeping in wait() sleeps on its own table entry. */
  datatype Chan = NoChan | Other(c: int) | Entry(p: nat)

  /** Where an interrupt can find a process: in ordinary code, or in fork() while it fills
      in the EMBRYO np, before and after np->parent is set. */
  datatype Spot = Ordinary | Filling(np: nat) | Parented(np: nat)

  /** Why a thread called sched(), that is, what it does when it is switched to again. */
  datatype Why = Yielded(spot: Spot) | Slept | Waited | Fresh | Dead

  datatype Pc =
    | Run                    // ptable.lock not held
    | YieldLocked(spot: Spot)            // lock held, in yield(), from a timer interrupt
    | SleepLocked(c: Chan)   // lock held, in sleep()
    | ExitLocked             // lock held, in exit()
    | ExitAdopted            // lock held, parent woken, children given to init
    | WaitLocked             // lock held, in the scan of wait()
    | AllocLocked            // lock held, in allocproc()
    | Building(np: nat)      // lock not held, fork() fills in the EMBRYO np
    | Adopting(np: nat)      // as before, np->parent is set
    | ForkLocked(np: nat)    // lock held, about to make np RUNNABLE
    | WakeLocked(c: Chan, spot: Spot)    // lock held, in wakeup(), called or from an interrupt
    | KillLocked(q: nat)     // lock held, in kill()
    | Leaving(why: Why)      // lock held, state changed, about to swtch() out
    | Parked(why: Why)       // switched out
    | Returned(why: Why)     // lock held, just switched to

  datatype Process = Process(state: RunState, pid: nat, parent: Option<nat>, chan: Chan, kstack: bool, pc: Pc)

  /** What the CPU is doing: its scheduler (without the lock, in wakeup() in an interrupt
      handler, with the lock, with a process chosen, marked RUNNING, or just back from
      it), or a process. */
  datatype At = Idle | Interrupt(ch: Chan) | Scan | Picked(p: nat) | Ran(p: nat) | Back(p: nat) | In(p: nat)

  datatype Cpu = Cpu(proc: Option<nat>, at: At)

  /** A return from wait(): the child's pid, and the pid of the process that got it. */
  datatype Receipt = Receipt(pid: nat, receiver: nat)

  /** `reaped` are the returns from wait(), `exited` the pids that became ZOMBIE, and `forker`
      says which pid forked which. */
  datatype State = State(lock: Option<nat>, cpus: seq<Cpu>, procs: seq<Process>, nextpid: nat,
                         reaped: seq<Receipt>, exited: set<nat>, forker: map<nat, nat>)

  const INIT := 0   // initproc
  const INIT_PID := 1

  /** Steps of scheduler(), and of an interrupt handler that finds it idle. */
  datatype SchedOp =
    | SchedLock | Pick(p: nat) | MarkRunning | SwitchTo | Forget | SchedUnlock
    | IntrLock(ch: Chan) | IntrWake

  /** Steps of a process; `Lock` is acquire(&ptable.lock) on the way into yield, sleep,
      exit, wait, allocproc, wakeup or kill. */
  datatype ProcOp =
    | Lock(pc: Pc)
    | SetRunnable | SetSleeping | Adopt | SetZombie | SwitchOut | Resume
    | Reap(p: nat) | WaitSleep | WaitFail
    | AllocSlot(np: nat) | AllocFail | BuildFail | SetParent | ForkLock | ForkRun
    | WakeAll | KillOne

  /** A step of the thread that CPU `c` is running. */
  datatype Event = OnSched(c: nat, s: SchedOp) | OnProc(c: nat, o: ProcOp)

  predicate Critical(pc: Pc) {
    !pc.Run? && !pc.Building? && !pc.Adopting? && !pc.Parked?
  }

  /** The position of a process that no interrupt handler holds up. */
  function PcOf(spot: Spot): Pc {
    match spot
    case Ordinary => Run
    case Filling(np) => Building(np)
    case Parented(np) => Adopting(np)
  }

  /** Where acquire() may lead process `p` from `here`: by a call from ordinary code, init
      not exiting, or by an interrupt. */
  predicate LockTarget(pc: Pc, here: Pc, p: nat) {
    || (pc.YieldLocked? && here == PcOf(pc.spot)) || (pc.WakeLocked? && pc.c.Other? && here == PcOf(pc.spot))
    || (here.Run? && ((pc.SleepLocked? && pc.c.Other?) || (pc.ExitLocked? && p != INIT)
                      || pc.WaitLocked? || pc.AllocLocked? || pc.KillLocked?))
  }

  predicate ZombieChild(t: State, q: nat, p: nat) {
    p < |t.procs| && t.procs[p].parent == Some(q) && t.procs[p].state.ZOMBIE?
  }

  predicate SchedEnabled(t: State, c: nat, s: SchedOp) {
    c < |t.cpus| &&
    var at := t.cpus[c].at;
    match s
    case SchedLock => at.Idle? && t.lock.None?
    case Pick(p) => at.Scan? && p < |t.procs| && t.procs[p].state.RUNNABLE?
    case MarkRunning => at.Picked? && at.p < |t.procs|
    case SwitchTo => at.Ran? && at.p < |t.procs| && t.procs[at.p].pc.Parked?
    case Forget => at.Back?
    case SchedUnlock => at.Scan?
    case IntrLock(ch) => at.Idle? && t.lock.None? && ch.Other?
    case IntrWake => at.Interrupt?
  }

  predicate ProcEnabled(t: State, c: nat, o: ProcOp) {
    c < |t.cpus| && t.cpus[c].at.In? && t.cpus[c].at.p < |t.procs| &&
    var q := t.cpus[c].at.p;
    var pc := t.procs[q].pc;
    match o
    case Lock(target) => t.lock.None? && LockTarget(target, pc, q)
    case SetRunnable => pc.YieldLocked?
    case SetSleeping => pc.SleepLocked?
    case Adopt => pc.ExitLocked?
    case SetZombie => pc.ExitAdopted?
    case SwitchOut => pc.Leaving?
    case Resume => pc.Returned?
    case Reap(p) => pc.WaitLocked? && ZombieChild(t, q, p)
    case WaitSleep => pc.WaitLocked? && forall p :: 0 <= p < |t.procs| ==> !ZombieChild(t, q, p)
    case WaitFail => pc.WaitLocked?
    case AllocSlot(np) => pc.AllocLocked? && np < |t.procs| && t.procs[np].state.UNUSED?
    case AllocFail => pc.AllocLocked?
    case BuildFail => pc.Building? && pc.np < |t.procs|
    case SetParent => pc.Building? && pc.np < |t.procs|
    case ForkLock => pc.Adopting? && t.lock.None?
    case ForkRun => pc.ForkLocked? && pc.np < |t.procs|
    case WakeAll => pc.WakeLocked?
    case KillOne => pc.KillLocked?
  }

  predicate Enabled(t: State, e: Event) {
    match e
    case OnSched(c, s) => SchedEnabled(t, c, s)
    case OnProc(c, o) => ProcEnabled(t, c, o)
  }

  /** wakeup1(). */
  function Woken(procs: seq<Process>, ch: Chan): (r: seq<Process>)
    ensures |r| == |procs|
    ensures forall i :: 0 <= i < |procs| ==>
              r[i] == if procs[i].state.SLEEPING? && procs[i].chan == ch then procs[i].(state := RUNNABLE) else procs[i]
  {
    seq(|procs|, i requires 0 <= i < |procs| =>
      if procs[i].state.SLEEPING? && procs[i].chan == ch then procs[i].(state := RUNNABLE) else procs[i])
  }

  /** The children of `q` become children of init. */
  function Adopted(procs: seq<Process>, q: nat): (r: seq<Process>)
    ensures |r| == |procs|
    ensures forall i :: 0 <= i < |procs| ==>
              r[i] == if procs[i].parent == Some(q) then procs[i].(parent := Some(INIT)) else procs[i]
  {
    seq(|procs|, i requires 0 <= i < |procs| =>
      if procs[i].parent == Some(q) then procs[i].(parent := Some(INIT)) else procs[i])
  }

  /** exit(): wake the parent, hand over the children, and wake init if one of them is
      a zombie. */
  function ExitUpdate(procs: seq<Process>, q: nat): (r: seq<Process>)
    requires q < |procs|
    ensures |r| == |procs|
  {
    var w := match procs[q].parent case Some(pa) => Woken(procs, Entry(pa)) case None => procs;
    var zombies := exists i :: 0 <= i < |procs| && procs[i].parent == Some(q) && procs[i].state.ZOMBIE?;
    var a := Adopted(w, q);
    if zombies then Woken(a, Entry(INIT)) else a
  }

  function SetPc(procs: seq<Process>, q: nat, pc: Pc): seq<Process>
    requires q < |procs|
  {
    procs[q := procs[q].(pc := pc)]
  }

  function SetState(procs: seq<Process>, q: nat, s: RunState, pc: Pc): seq<Process>
    requires q < |procs|
  {
    procs[q := procs[q].(state := s, pc := pc)]
  }

  function SchedNext(t: State, c: nat, s: SchedOp): State
    requires SchedEnabled(t, c, s)
  {
    var cpu := t.cpus[c];
    match s
    case SchedLock => t.(lock := Some(c), cpus := t.cpus[c := cpu.(at := Scan)])
    case Pick(p) => t.(cpus := t.cpus[c := Cpu(Some(p), Picked(p))])
    case MarkRunning =>
      t.(cpus := t.cpus[c := cpu.(at := Ran(cpu.at.p))],
         procs := t.procs[cpu.at.p := t.procs[cpu.at.p].(state := RUNNING)])
    case SwitchTo =>
      t.(cpus := t.cpus[c := cpu.(at := In(cpu.at.p))],
         procs := SetPc(t.procs, cpu.at.p, Returned(t.procs[cpu.at.p].pc.why)))
    case Forget => t.(cpus := t.cpus[c := Cpu(None, Scan)])
    case SchedUnlock => t.(lock := None, cpus := t.cpus[c := cpu.(at := Idle)])
    case IntrLock(ch) => t.(lock := Some(c), cpus := t.cpus[c := cpu.(at := Interrupt(ch))])
    case IntrWake => t.(lock := None, cpus := t.cpus[c := cpu.(at := Idle)], procs := Woken(t.procs, cpu.at.ch))
  }

  function ProcNext(t: State, c: nat, o: ProcOp): State
    requires ProcEnabled(t, c, o)
  {
    var q := t.cpus[c].at.p;
    var me := t.procs[q];
    match o
    case Lock(pc) => t.(lock := Some(c), procs := SetPc(t.procs, q, pc))
    case SetRunnable => t.(procs := SetState(t.procs, q, RUNNABLE, Leaving(Yielded(me.pc.spot))))
    case SetSleeping => t.(procs := t.procs[q := me.(state := SLEEPING, chan := me.pc.c, pc := Leaving(Slept))])
    case Adopt => t.(procs := SetPc(ExitUpdate(t.procs, q), q, ExitAdopted))
    case SetZombie => t.(procs := SetState(t.procs, q, ZOMBIE, Leaving(Dead)), exited := t.exited + {me.pid})
    case SwitchOut =>
      t.(cpus := t.cpus[c := t.cpus[c].(at := Back(q))], procs := SetPc(t.procs, q, Parked(me.pc.why)))
    case Resume =>
      if me.pc.why.Waited? then t.(procs := t.procs[q := me.(chan := NoChan, pc := WaitLocked)])
      else
        var pc := if me.pc.why.Yielded? then PcOf(me.pc.why.spot) else Run;
        t.(lock := None, procs := t.procs[q := me.(chan := NoChan, pc := pc)])
    case Reap(p) =>
      t.(lock := None, reaped := t.reaped + [Receipt(t.procs[p].pid, me.pid)],
         procs := SetPc(t.procs[p := Process(UNUSED, 0, None, t.procs[p].chan, false, t.procs[p].pc)], q, Run))
    case WaitSleep => t.(procs := t.procs[q := me.(state := SLEEPING, chan := Entry(q), pc := Leaving(Waited))])
    case WaitFail => t.(lock := None, procs := SetPc(t.procs, q, Run))
    case AllocSlot(np) =>
      t.(lock := None, nextpid := t.nextpid + 1,
         procs := SetPc(t.procs[np := t.procs[np].(state := EMBRYO, pid := t.nextpid)], q, Building(np)))
    case AllocFail => t.(lock := None, procs := SetPc(t.procs, q, Run))
    case BuildFail =>
      t.(procs := SetPc(t.procs[me.pc.np := t.procs[me.pc.np].(state := UNUSED, kstack := false)], q, Run))
    case SetParent =>
      t.(forker := t.forker[t.procs[me.pc.np].pid := me.pid],
         procs := SetPc(t.procs[me.pc.np := t.procs[me.pc.np].(parent := Some(q), kstack := true, pc := Parked(Fresh))],
                        q, Adopting(me.pc.np)))
    case ForkLock => t.(lock := Some(c), procs := SetPc(t.procs, q, ForkLocked(me.pc.np)))
    case ForkRun =>
      t.(lock := None, procs := SetPc(t.procs[me.pc.np := t.procs[me.pc.np].(state := RUNNABLE)], q, Run))
    case WakeAll => t.(lock := None, procs := SetPc(Woken(t.procs, me.pc.c), q, PcOf(me.pc.spot)))
    case KillOne =>
      var k := me.pc.q;
      t.(lock := None,
         procs := SetPc(if k < |t.procs| && t.procs[k].state.SLEEPING? then t.procs[k := t.procs[k].(state := RUNNABLE)]
                        else t.procs, q, Run))
  }

  function Next(t: State, e: Event): State
    requires Enabled(t, e)
  {
    match e
    case OnSched(c, s) => SchedNext(t, c, s)
    case OnProc(c, o) => ProcNext(t, c, o)
  }

  // ------------------------------------------------------------ each process by itself

  /** How state, position and the other fields of one entry go together. */
  predicate ProcOk(r: Process) {
    match r.state
    case UNUSED => r.pc.Parked? && (r.pc.why.Fresh? || r.pc.why.Dead?) && r.parent.None? && !r.kstack
    case EMBRYO => r.pc.Parked? && (r.pc.why.Fresh? || r.pc.why.Dead?)
    case ZOMBIE => (r.pc == Leaving(Dead) || r.pc == Parked(Dead)) && r.kstack
    case RUNNABLE => ((r.pc.Leaving? && r.pc.why.Yielded?) || (r.pc.Parked? && !r.pc.why.Dead?)) && r.kstack
    case SLEEPING =>
      && (r.pc.Leaving? || r.pc.Parked?) && r.kstack
      && (if r.chan.Entry? then r.pc.why.Waited? else r.pc.why.Slept?)
    case RUNNING =>
      && !r.pc.Leaving? && (r.pc.Parked? || r.pc.Returned? ==> !r.pc.why.Dead?) && r.kstack
      && (r.pc.SleepLocked? || r.pc.WakeLocked? ==> r.pc.c.Other?)
  }

  /** How far a fork() is, also while the process is held up by an interrupt or switched out. */
  function Work(pc: Pc): Spot {
    match pc
    case Building(np) => Filling(np)
    case Adopting(np) => Parented(np)
    case ForkLocked(np) => Parented(np)
    case YieldLocked(spot) => spot
    case WakeLocked(_, spot) => spot
    case Leaving(why) => if why.Yielded? then why.spot else Ordinary
    case Parked(why) => if why.Yielded? then why.spot else Ordinary
    case Returned(why) => if why.Yielded? then why.spot else Ordinary
    case _ => Ordinary
  }

  /** The entry a fork() in progress is filling in. */
  function Target(pc: Pc): Option<nat> {
    match Work(pc)
    case Ordinary => None
    case Filling(np) => Some(np)
    case Parented(np) => Some(np)
  }

  predicate BuildOk(procs: seq<Process>, q: nat)
    requires q < |procs|
  {
    match Work(procs[q].pc)
    case Ordinary => true
    case Filling(np) => np < |procs| && procs[np].state.EMBRYO? && procs[np].parent.None?
    case Parented(np) =>
      np < |procs| && procs[np].state.EMBRYO? && procs[np].parent == Some(q) && procs[np].pc == Parked(Fresh)
          && procs[np].kstack
  }

  ghost predicate TableInv(t: State) {
    && INIT < |t.procs|
    && (forall p :: 0 <= p < |t.procs| ==> ProcOk(t.procs[p]))
    && (forall q :: 0 <= q < |t.procs| ==> BuildOk(t.procs, q))
    && (forall q, r :: 0 <= q < r < |t.procs| && Target(t.procs[q].pc).Some? ==>
          Target(t.procs[q].pc) != Target(t.procs[r].pc))
  }

  /** What one process's step may do to another: never start or stop it running, nor
      take a RUNNABLE one away. */
  predicate Mild(a: Process, b: Process) {
    && a.state.RUNNING? == b.state.RUNNING?
    && (a.state.RUNNABLE? ==> b.state.RUNNABLE?)
    && (a.pc == b.pc || (a.pc.Parked? && b.pc.Parked? && Work(a.pc).Ordinary? && Work(b.pc).Ordinary?))
  }

  /** exit() changes at most the parent of an entry, and wakes it if it was asleep. */
  lemma ExitEffect(procs: seq<Process>, q: nat, i: nat)
    requires q < |procs| && i < |procs|
    ensures var a, b := procs[i], ExitUpdate(procs, q)[i];
            && b == a.(state := b.state, parent := b.parent)
            && (b.state == a.state || (a.state.SLEEPING? && b.state.RUNNABLE?))
            && b.parent == if a.parent == Some(q) then Some(INIT) else a.parent
  {
  }

  lemma TableAt(t: State, i: nat)
    requires TableInv(t) && i < |t.procs|
    ensures ProcOk(t.procs[i]) && BuildOk(t.procs, i)
  {
  }

  lemma OtherEntries(t: State, c: nat, o: ProcOp, i: nat)
    requires TableInv(t) && ProcEnabled(t, c, o) && i < |t.procs| && i != t.cpus[c].at.p
    requires Critical(t.procs[t.cpus[c].at.p].pc) ==> !Critical(t.procs[i].pc)
    ensures |ProcNext(t, c, o).procs| == |t.procs|
    ensures Mild(t.procs[i], ProcNext(t, c, o).procs[i]) && ProcOk(ProcNext(t, c, o).procs[i])
  {
    hide ExitUpdate, TableInv;
    TableAt(t, i);
    TableAt(t, t.cpus[c].at.p);
    if o.Adopt? { ExitEffect(t.procs, t.cpus[c].at.p, i); }
  }

  lemma OwnEntry(t: State, c: nat, o: ProcOp)
    requires TableInv(t) && ProcEnabled(t, c, o)
    requires t.procs[t.cpus[c].at.p].state.RUNNING? <==> !t.procs[t.cpus[c].at.p].pc.Leaving?
    requires !t.procs[t.cpus[c].at.p].pc.Parked?
    ensures var q := t.cpus[c].at.p;
            var r := ProcNext(t, c, o).procs;
            && |r| == |t.procs| && ProcOk(r[q])
            && (r[q].pc.Parked? <==> o.SwitchOut?)
            && (!o.SwitchOut? ==> (r[q].state.RUNNING? <==> !r[q].pc.Leaving?))
            && (o.SwitchOut? ==> !r[q].state.RUNNING?)
  {
    hide ExitUpdate, TableInv;
    var q := t.cpus[c].at.p;
    TableAt(t, q);
    if o.Adopt? { ExitEffect(t.procs, q, q); }
  }

  // ------------------------------------------------------------ the lock and the CPUs

  predicate Holds(cpu: Cpu, procs: seq<Process>) {
    match cpu.at
    case Idle => false
    case In(p) => p < |procs| && Critical(procs[p].pc)
    case _ => true
  }

  ghost predicate LockInv(t: State) {
    && (forall c :: 0 <= c < |t.cpus| ==> (t.lock == Some(c) <==> Holds(t.cpus[c], t.procs)))
    && (t.lock.Some? ==> t.lock.value < |t.cpus|)
  }

  /** What a CPU's position says about its process. */
  predicate CpuOk(cpu: Cpu, procs: seq<Process>) {
    match cpu.at
    case Idle => cpu.proc.None?
    case Interrupt(ch) => cpu.proc.None? && ch.Other?
    case Scan => cpu.proc.None?
    case Picked(p) => cpu.proc == Some(p) && p < |procs| && procs[p].state.RUNNABLE? && procs[p].pc.Parked?
    case Ran(p) => cpu.proc == Some(p) && p < |procs| && procs[p].state.RUNNING? && procs[p].pc.Parked?
    case Back(p) => cpu.proc == Some(p) && p < |procs| && !procs[p].state.RUNNING? && procs[p].pc.Parked?
    case In(p) =>
      && cpu.proc == Some(p) && p < |procs| && !procs[p].pc.Parked?
      && (procs[p].state.RUNNING? <==> !procs[p].pc.Leaving?)
  }

  ghost predicate OnCpu(t: State, p: nat) {
    exists c :: 0 <= c < |t.cpus| && t.cpus[c].proc == Some(p)
  }

  ghost predicate Apart(cpus: seq<Cpu>) {
    forall c, d :: 0 <= c < d < |cpus| && cpus[c].proc.Some? ==> cpus[c].proc != cpus[d].proc
  }

  ghost predicate CpuInv(t: State) {
    && (forall c :: 0 <= c < |t.cpus| ==> CpuOk(t.cpus[c], t.procs))
    && Apart(t.cpus)
    && (forall p :: 0 <= p < |t.procs| && (t.procs[p].state.RUNNING? || !t.procs[p].pc.Parked?) ==> OnCpu(t, p))
  }

  lemma CpuAt(t: State, c: nat)
    requires CpuInv(t) && c < |t.cpus|
    ensures CpuOk(t.cpus[c], t.procs)
  {
  }

  lemma CriticalHolds(t: State, p: nat) returns (c: nat)
    requires LockInv(t) && CpuInv(t) && p < |t.procs| && Critical(t.procs[p].pc)
    ensures c < |t.cpus| && t.cpus[c].proc == Some(p) && t.lock == Some(c)
  {
    assert OnCpu(t, p);
    c :| 0 <= c < |t.cpus| && t.cpus[c].proc == Some(p);
    assert CpuOk(t.cpus[c], t.procs);
    assert Holds(t.cpus[c], t.procs);
  }

  /** Only one process is inside a critical section. */
  lemma OneCritical(t: State, p: nat, q: nat)
    requires LockInv(t) && CpuInv(t) && p < |t.procs| && q < |t.procs| && p != q && Critical(t.procs[p].pc)
    ensures !Critical(t.procs[q].pc)
  {
    var c := CriticalHolds(t, p);
    if Critical(t.procs[q].pc) {
      var d := CriticalHolds(t, q);
    }
  }

  lemma Others(t: State, c: nat, o: ProcOp)
    requires TableInv(t) && LockInv(t) && CpuInv(t) && ProcEnabled(t, c, o)
    ensures var q, r := t.cpus[c].at.p, ProcNext(t, c, o).procs;
            && |r| == |t.procs|
            && (forall i :: 0 <= i < |r| ==> ProcOk(r[i]))
            && (forall i :: 0 <= i < |r| && i != q ==> Mild(t.procs[i], r[i]))
            && (r[q].pc.Parked? <==> o.SwitchOut?)
            && (!o.SwitchOut? ==> (r[q].state.RUNNING? <==> !r[q].pc.Leaving?))
            && (o.SwitchOut? ==> !r[q].state.RUNNING?)
  {
    hide ProcNext, ProcEnabled, LockInv;
    EnabledIsHere(t, c, o);
    var q := t.cpus[c].at.p;
    assert CpuOk(t.cpus[c], t.procs);
    OwnEntry(t, c, o);
    forall i | 0 <= i < |t.procs| && i != q
      ensures Mild(t.procs[i], ProcNext(t, c, o).procs[i]) && ProcOk(ProcNext(t, c, o).procs[i])
    {
      if Critical(t.procs[q].pc) { OneCritical(t, q, i); }
      OtherEntries(t, c, o, i);
    }
  }

  lemma EnabledIsHere(t: State, c: nat, o: ProcOp)
    requires ProcEnabled(t, c, o)
    ensures c < |t.cpus| && t.cpus[c].at.In? && t.cpus[c].at.p < |t.procs|
  {
  }

  /** What a step does to the lock and to the CPU that takes it. */
  lemma LockEffect(t: State, c: nat, o: ProcOp)
    requires ProcEnabled(t, c, o) && (t.lock == Some(c) <==> Critical(t.procs[t.cpus[c].at.p].pc))
    ensures var t' := ProcNext(t, c, o);
            var q := t.cpus[c].at.p;
            && t'.cpus == (if o.SwitchOut? then t.cpus[c := t.cpus[c].(at := Back(q))] else t.cpus)
            && |t'.procs| == |t.procs|
            && (t'.lock == t.lock || t'.lock == Some(c) || t'.lock.None?)
            && (t'.lock == t.lock && !o.SwitchOut? ==> Critical(t'.procs[q].pc) == Critical(t.procs[q].pc))
            && (t'.lock != t.lock && t'.lock.Some? ==> t.lock.None? && Critical(t'.procs[q].pc))
            && (t'.lock != t.lock && t'.lock.None? ==> Critical(t.procs[q].pc) && !Critical(t'.procs[q].pc))
            && (o.SwitchOut? ==> t'.lock == t.lock && Critical(t.procs[q].pc))
  {
  }

  lemma ProcKeepsLock(t: State, c: nat, o: ProcOp)
    requires TableInv(t) && LockInv(t) && CpuInv(t) && ProcEnabled(t, c, o)
    ensures LockInv(ProcNext(t, c, o))
  {
    hide ProcNext, ProcEnabled, TableInv;
    EnabledIsHere(t, c, o);
    assert t.lock == Some(c) <==> Holds(t.cpus[c], t.procs);
    LockEffect(t, c, o);
    Others(t, c, o);
    var t' := ProcNext(t, c, o);
    assert CpuOk(t.cpus[c], t.procs);
    forall d | 0 <= d < |t'.cpus| ensures t'.lock == Some(d) <==> Holds(t'.cpus[d], t'.procs) {
      assert CpuOk(t.cpus[d], t.procs);
      assert t.lock == Some(d) <==> Holds(t.cpus[d], t.procs);
      assert t.lock == Some(c) <==> Holds(t.cpus[c], t.procs);
      if d != c { CpusApart(t, c, d); }
    }
  }

  lemma CpusApart(t: State, c: nat, d: nat)
    requires CpuInv(t) && c < |t.cpus| && d < |t.cpus| && c != d && t.cpus[c].proc.Some?
    ensures t.cpus[d].proc != t.cpus[c].proc
  {
  }

  lemma ProcKeepsCpus(t: State, c: nat, o: ProcOp)
    requires TableInv(t) && LockInv(t) && CpuInv(t) && ProcEnabled(t, c, o)
    ensures CpuInv(ProcNext(t, c, o))
  {
    hide ProcNext, ProcEnabled, TableInv;
    EnabledIsHere(t, c, o);
    assert t.lock == Some(c) <==> Holds(t.cpus[c], t.procs);
    LockEffect(t, c, o);
    Others(t, c, o);
    var t', q := ProcNext(t, c, o), t.cpus[c].at.p;
    assert CpuOk(t.cpus[c], t.procs);
    forall d | 0 <= d < |t'.cpus| ensures CpuOk(t'.cpus[d], t'.procs) {
      assert CpuOk(t.cpus[d], t.procs);
      if d != c { CpusApart(t, c, d); }
    }
    forall p | 0 <= p < |t'.procs| && (t'.procs[p].state.RUNNING? || !t'.procs[p].pc.Parked?) ensures OnCpu(t', p) {
      assert OnCpu(t, p);
      var d :| 0 <= d < |t.cpus| && t.cpus[d].proc == Some(p);
      assert t'.cpus[d].proc == Some(p);
    }
  }

  lemma SchedKeepsLock(t: State, c: nat, s: SchedOp)
    requires LockInv(t) && CpuInv(t) && SchedEnabled(t, c, s)
    ensures LockInv(SchedNext(t, c, s))
  {
    var t' := SchedNext(t, c, s);
    assert CpuOk(t.cpus[c], t.procs);
    assert t.lock == Some(c) <==> Holds(t.cpus[c], t.procs);
    forall d | 0 <= d < |t'.cpus| ensures t'.lock == Some(d) <==> Holds(t'.cpus[d], t'.procs) {
      assert CpuOk(t.cpus[d], t.procs);
      assert t.lock == Some(d) <==> Holds(t.cpus[d], t.procs);
      if d != c && t.cpus[c].proc.Some? { CpusApart(t, c, d); }
    }
  }

  /** A RUNNABLE process that is switched out is on no CPU. */
  lemma RunnableIsFree(t: State, c: nat, p: nat, d: nat)
    requires LockInv(t) && CpuInv(t) && c < |t.cpus| && d < |t.cpus| && p < |t.procs|
    requires t.cpus[c].at.Scan? && t.procs[p].state.RUNNABLE?
    ensures t.cpus[d].proc != Some(p) && t.procs[p].pc.Parked?
  {
    assert t.lock == Some(c) <==> Holds(t.cpus[c], t.procs);
    assert t.lock == Some(d) <==> Holds(t.cpus[d], t.procs);
    assert CpuOk(t.cpus[d], t.procs);
    if !t.procs[p].pc.Parked? {
      assert OnCpu(t, p);
      var e :| 0 <= e < |t.cpus| && t.cpus[e].proc == Some(p);
      assert CpuOk(t.cpus[e], t.procs);
      e := CriticalHolds(t, p);
    }
  }

  lemma SchedKeepsCpus(t: State, c: nat, s: SchedOp)
    requires LockInv(t) && CpuInv(t) && SchedEnabled(t, c, s)
    ensures CpuInv(SchedNext(t, c, s))
  {
    var t' := SchedNext(t, c, s);
    assert CpuOk(t.cpus[c], t.procs);
    forall d | 0 <= d < |t'.cpus| ensures CpuOk(t'.cpus[d], t'.procs) {
      assert CpuOk(t.cpus[d], t.procs);
      if d != c && t.cpus[c].proc.Some? { CpusApart(t, c, d); }
      if s.Pick? { RunnableIsFree(t, c, s.p, d); }
    }
    forall p | 0 <= p < |t'.procs| && (t'.procs[p].state.RUNNING? || !t'.procs[p].pc.Parked?) ensures OnCpu(t', p) {
      if t.procs[p].state.RUNNING? || !t.procs[p].pc.Parked? {
        assert OnCpu(t, p);
        var d :| 0 <= d < |t.cpus| && t.cpus[d].proc == Some(p);
        assert CpuOk(t.cpus[d], t.procs);
        assert t'.cpus[d].proc == Some(p);
      } else {
        assert t'.cpus[c].proc == Some(p);
      }
    }
    SchedKeepsApart(t, c, s);
  }

  lemma SchedKeepsApart(t: State, c: nat, s: SchedOp)
    requires LockInv(t) && CpuInv(t) && SchedEnabled(t, c, s)
    ensures Apart(SchedNext(t, c, s).cpus)
  {
    if s.Pick? {
      forall d | 0 <= d < |t.cpus| ensures t.cpus[d].proc != Some(s.p) { RunnableIsFree(t, c, s.p, d); }
    }
  }

  /** The scheduler and interrupts change at most state and position of an entry. */
  lemma SchedEntry(t: State, c: nat, s: SchedOp, i: nat)
    requires LockInv(t) && CpuInv(t) && SchedEnabled(t, c, s) && i < |t.procs| && ProcOk(t.procs[i])
    ensures |SchedNext(t, c, s).procs| == |t.procs|
    ensures var a, b := t.procs[i], SchedNext(t, c, s).procs[i];
            && ProcOk(b) && Work(b.pc) == Work(a.pc) && b == a.(state := b.state, pc := b.pc)
            && (a.state.EMBRYO? ==> b == a)
  {
    assert CpuOk(t.cpus[c], t.procs);
    if s.IntrWake? { NoneCritical(t, c, i); }
  }

  /** While a scheduler has the lock no process is in a critical section. */
  lemma NoneCritical(t: State, c: nat, i: nat)
    requires LockInv(t) && CpuInv(t) && c < |t.cpus| && i < |t.procs| && t.cpus[c].proc.None? && !t.cpus[c].at.Idle?
    ensures !Critical(t.procs[i].pc)
  {
    assert CpuOk(t.cpus[c], t.procs);
    assert t.lock == Some(c) <==> Holds(t.cpus[c], t.procs);
    if Critical(t.procs[i].pc) { var d := CriticalHolds(t, i); }
  }

  lemma SchedKeepsTable(t: State, c: nat, s: SchedOp)
    requires LockInv(t) && CpuInv(t) && TableInv(t) && SchedEnabled(t, c, s)
    ensures TableInv(SchedNext(t, c, s))
  {
    hide SchedNext, SchedEnabled, LockInv, CpuInv, ProcOk;
    var t' := SchedNext(t, c, s);
    SchedEntry(t, c, s, INIT);
    forall p | 0 <= p < |t'.procs|
      ensures ProcOk(t'.procs[p]) && BuildOk(t'.procs, p) && Target(t'.procs[p].pc) == Target(t.procs[p].pc)
    {
      assert BuildOk(t.procs, p);
      SchedEntry(t, c, s, p);
      if Target(t.procs[p].pc).Some? { SchedEntry(t, c, s, Target(t.procs[p].pc).value); }
    }
  }

  /** Only the stepping process changes the entry it is filling in. */
  lemma TargetEffect(t: State, c: nat, o: ProcOp, p: nat)
    requires TableInv(t) && ProcEnabled(t, c, o) && p < |t.procs|
    ensures |ProcNext(t, c, o).procs| == |t.procs|
    ensures var was, now := Target(t.procs[p].pc), Target(ProcNext(t, c, o).procs[p].pc);
            now == was || (p == t.cpus[c].at.p && (now.None? || (o.AllocSlot? && now == Some(o.np))))
    ensures var was, now := t.procs[p].pc, ProcNext(t, c, o).procs[p].pc;
            p != t.cpus[c].at.p ==> now == was || (Work(was).Ordinary? && Work(now).Ordinary?)
  {
    hide ExitUpdate, TableInv;
    var q := t.cpus[c].at.p;
    TableAt(t, q);
    TableAt(t, p);
    if o.Adopt? { ExitEffect(t.procs, q, p); }
  }

  /** The entry somebody else is filling in is left alone. */
  lemma EmbryoEffect(t: State, c: nat, o: ProcOp, n: nat)
    requires TableInv(t) && ProcEnabled(t, c, o) && n < |t.procs| && n != t.cpus[c].at.p
    requires t.procs[n].state.EMBRYO? && Target(t.procs[t.cpus[c].at.p].pc) != Some(n)
    ensures |ProcNext(t, c, o).procs| == |t.procs|
    ensures var was, now := t.procs[n], ProcNext(t, c, o).procs[n];
            now == was || (now == was.(parent := Some(INIT)) && was.parent == Some(t.cpus[c].at.p))
  {
    hide ExitUpdate, TableInv;
    var q := t.cpus[c].at.p;
    TableAt(t, q);
    if o.Adopt? { ExitEffect(t.procs, q, n); }
  }

  lemma ProcKeepsOwnBuild(t: State, c: nat, o: ProcOp)
    requires CpuInv(t) && TableInv(t) && ProcEnabled(t, c, o)
    ensures |ProcNext(t, c, o).procs| == |t.procs| && BuildOk(ProcNext(t, c, o).procs, t.cpus[c].at.p)
  {
    hide ExitUpdate, TableInv, CpuInv;
    var q := t.cpus[c].at.p;
    TableAt(t, q);
    CpuAt(t, c);
    if o.AllocSlot? { TableAt(t, o.np); }
  }

  lemma ProcKeepsBuilds(t: State, c: nat, o: ProcOp, p: nat)
    requires CpuInv(t) && TableInv(t) && ProcEnabled(t, c, o) && p < |t.procs|
    ensures |ProcNext(t, c, o).procs| == |t.procs| && BuildOk(ProcNext(t, c, o).procs, p)
  {
    hide ProcNext;
    var q := t.cpus[c].at.p;
    if p == q {
      ProcKeepsOwnBuild(t, c, o);
    } else {
      TargetEffect(t, c, o, p);
      assert BuildOk(t.procs, p) && BuildOk(t.procs, q) && CpuOk(t.cpus[c], t.procs) && ProcOk(t.procs[q]);
      if Target(t.procs[p].pc).Some? {
        var n := Target(t.procs[p].pc).value;
        assert Target(t.procs[p].pc) != Target(t.procs[q].pc);
        EmbryoEffect(t, c, o, n);
      }
    }
  }

  lemma ProcKeepsTargets(t: State, c: nat, o: ProcOp, p: nat, r: nat)
    requires TableInv(t) && ProcEnabled(t, c, o) && p < r < |t.procs|
    requires |ProcNext(t, c, o).procs| == |t.procs|
    ensures Target(ProcNext(t, c, o).procs[p].pc).Some? ==>
              Target(ProcNext(t, c, o).procs[p].pc) != Target(ProcNext(t, c, o).procs[r].pc)
  {
    hide ProcNext;
    assert BuildOk(t.procs, p) && BuildOk(t.procs, r);
    TargetEffect(t, c, o, p);
    TargetEffect(t, c, o, r);
  }

  lemma ProcKeepsTable(t: State, c: nat, o: ProcOp)
    requires LockInv(t) && CpuInv(t) && TableInv(t) && ProcEnabled(t, c, o)
    ensures TableInv(ProcNext(t, c, o))
  {
    hide ProcNext, ProcEnabled, LockInv, CpuInv;
    Others(t, c, o);
    var t' := ProcNext(t, c, o);
    forall p | 0 <= p < |t'.procs| ensures BuildOk(t'.procs, p) { ProcKeepsBuilds(t, c, o, p); }
    forall p, r | 0 <= p < r < |t'.procs| && Target(t'.procs[p].pc).Some?
      ensures Target(t'.procs[p].pc) != Target(t'.procs[r].pc)
    {
      ProcKeepsTargets(t, c, o, p, r);
    }
  }

  // ------------------------------------------------------------ parents

  /** A process that may be somebody's parent. */
  predicate Parentable(r: Process) {
    (r.state.SLEEPING? || r.state.RUNNABLE? || r.state.RUNNING?) && !r.pc.ExitAdopted?
  }

  predicate FamOk(procs: seq<Process>, p: nat)
    requires p < |procs|
  {
    match procs[p].state
    case UNUSED => true
    case EMBRYO =>
      procs[p].parent.Some? ==>
        procs[p].parent.value < |procs| && Target(procs[procs[p].parent.value].pc) == Some(p)
    case _ =>
      p != INIT ==>
        && procs[p].parent.Some? && procs[p].parent.value < |procs| && procs[p].parent.value != p
        && Parentable(procs[procs[p].parent.value])
  }

  ghost predicate FamilyInv(t: State) {
    && INIT < |t.procs| && Parentable(t.procs[INIT]) && !t.procs[INIT].pc.ExitLocked? && t.procs[INIT].parent.None?
    && forall p :: 0 <= p < |t.procs| ==> FamOk(t.procs, p)
  }

  lemma SchedKeepsFamily(t: State, c: nat, s: SchedOp)
    requires CpuInv(t) && FamilyInv(t) && SchedEnabled(t, c, s)
    ensures FamilyInv(SchedNext(t, c, s))
  {
    var t' := SchedNext(t, c, s);
    assert CpuOk(t.cpus[c], t.procs);
    forall p | 0 <= p < |t'.procs| ensures FamOk(t'.procs, p) {
      assert FamOk(t.procs, p);
    }
  }

  lemma AdoptKeepsFamOk(t: State, c: nat, p: nat)
    requires TableInv(t) && CpuInv(t) && FamilyInv(t) && ProcEnabled(t, c, Adopt) && p < |t.procs|
    ensures |ProcNext(t, c, Adopt).procs| == |t.procs| && FamOk(ProcNext(t, c, Adopt).procs, p)
  {
    hide ExitUpdate;
    var q := t.cpus[c].at.p;
    assert FamOk(t.procs, p) && ProcOk(t.procs[p]);
    ExitEffect(t.procs, q, p);
    ExitEffect(t.procs, q, INIT);
    if t.procs[p].parent.Some? && t.procs[p].parent.value < |t.procs| {
      ExitEffect(t.procs, q, t.procs[p].parent.value);
    }
  }

  /** What a step does to entry `i` that matters to parenthood. */
  predicate KinStep(t: State, q: nat, o: ProcOp, i: nat, a: Process, b: Process) {
    && (Parentable(a) && !(o.SetZombie? && i == q) ==> Parentable(b))
    && (i != q ==> Target(b.pc) == Target(a.pc))
    && (o.SetZombie? && i == q ==> a.pc.ExitAdopted?)
    && (a.parent == b.parent || (o.Reap? && i == o.p) || (o.SetParent? && i != q && b.parent == Some(q)))
  }

  lemma KinEffect(t: State, c: nat, o: ProcOp, i: nat)
    requires TableInv(t) && CpuInv(t) && ProcEnabled(t, c, o) && i < |t.procs| && !o.Adopt?
    ensures |ProcNext(t, c, o).procs| == |t.procs|
    ensures KinStep(t, t.cpus[c].at.p, o, i, t.procs[i], ProcNext(t, c, o).procs[i])
  {
    hide TableInv, CpuInv;
    var q := t.cpus[c].at.p;
    TableAt(t, i);
    TableAt(t, q);
    CpuAt(t, c);
  }

  /** How entry `i` changes rank: into the table, out of it, to life, to death. */
  lemma RankEffect(t: State, c: nat, o: ProcOp, i: nat)
    requires TableInv(t) && CpuInv(t) && ProcEnabled(t, c, o) && i < |t.procs| && !o.Adopt?
    ensures |ProcNext(t, c, o).procs| == |t.procs|
    ensures var q, a, b := t.cpus[c].at.p, t.procs[i], ProcNext(t, c, o).procs[i];
            && (b.state.EMBRYO? ==>
                  || (a.state.EMBRYO? && (a.parent == b.parent ||
                        (o.SetParent? && b.parent == Some(q) && Target(ProcNext(t, c, o).procs[q].pc) == Some(i))))
                  || (a.state.UNUSED? && b.parent.None?))
            && (!b.state.EMBRYO? && !b.state.UNUSED? ==>
                  || (!a.state.EMBRYO? && !a.state.UNUSED? && a.parent == b.parent)
                  || (o.ForkRun? && b.parent == Some(q) && i != q))
  {
    hide TableInv, CpuInv;
    var q := t.cpus[c].at.p;
    TableAt(t, i);
    TableAt(t, q);
    CpuAt(t, c);
  }

  lemma ProcKeepsFamOk(t: State, c: nat, o: ProcOp, p: nat)
    requires TableInv(t) && CpuInv(t) && FamilyInv(t) && ProcEnabled(t, c, o) && p < |t.procs|
    ensures |ProcNext(t, c, o).procs| == |t.procs| && FamOk(ProcNext(t, c, o).procs, p)
  {
    if o.Adopt? {
      AdoptKeepsFamOk(t, c, p);
    } else {
      hide ProcNext;
      RankEffect(t, c, o, p);
      var q, r := t.cpus[c].at.p, ProcNext(t, c, o).procs;
      assert FamOk(t.procs, p) && CpuOk(t.cpus[c], t.procs) && ProcOk(t.procs[p]);
      KinEffect(t, c, o, q);
      if r[p].parent.Some? && r[p].parent.value < |t.procs| {
        KinEffect(t, c, o, r[p].parent.value);
      }
      EmbryoStays(t, c, o, p);
    }
  }

  /** While an EMBRYO stays one, the fork() that builds it goes on. */
  lemma EmbryoStays(t: State, c: nat, o: ProcOp, p: nat)
    requires TableInv(t) && CpuInv(t) && ProcEnabled(t, c, o) && p < |t.procs| && !o.Adopt?
    requires |ProcNext(t, c, o).procs| == |t.procs|
    ensures var q, r := t.cpus[c].at.p, ProcNext(t, c, o).procs;
            t.procs[p].state.EMBRYO? && r[p].state.EMBRYO? && Target(t.procs[q].pc) == Some(p) ==>
              Target(r[q].pc) == Some(p)
  {
    hide TableInv, CpuInv;
    var q := t.cpus[c].at.p;
    TableAt(t, q);
    CpuAt(t, c);
  }

  lemma ProcKeepsInit(t: State, c: nat, o: ProcOp)
    requires TableInv(t) && CpuInv(t) && FamilyInv(t) && ProcEnabled(t, c, o)
    ensures var r := ProcNext(t, c, o).procs;
            INIT < |r| && Parentable(r[INIT]) && !r[INIT].pc.ExitLocked? && r[INIT].parent.None?
  {
    hide ExitUpdate, TableInv, CpuInv;
    var q := t.cpus[c].at.p;
    TableAt(t, INIT);
    TableAt(t, q);
    CpuAt(t, c);
    if o.Adopt? { ExitEffect(t.procs, q, INIT); }
  }

  lemma ProcKeepsFamily(t: State, c: nat, o: ProcOp)
    requires TableInv(t) && CpuInv(t) && FamilyInv(t) && ProcEnabled(t, c, o)
    ensures FamilyInv(ProcNext(t, c, o))
  {
    hide ProcNext, ProcEnabled, TableInv, CpuInv;
    ProcKeepsInit(t, c, o);
    ProcKeepsFamOk(t, c, o, INIT);
    forall p | 0 <= p < |ProcNext(t, c, o).procs| ensures FamOk(ProcNext(t, c, o).procs, p) {
      ProcKeepsFamOk(t, c, o, p);
    }
  }

  // ------------------------------------------------------------ pids

  predicate PidOk(r: Process, nextpid: nat, exited: set<nat>) {
    !r.state.UNUSED? ==> 0 < r.pid < nextpid && (r.state.ZOMBIE? <==> r.pid in exited)
  }

  ghost predicate PidInv(t: State) {
    && (forall p :: 0 <= p < |t.procs| ==> PidOk(t.procs[p], t.nextpid, t.exited))
    && (forall p, r :: 0 <= p < r < |t.procs| && !t.procs[p].state.UNUSED? && !t.procs[r].state.UNUSED? ==>
          t.procs[p].pid != t.procs[r].pid)
    && (forall x :: x in t.exited ==> x < t.nextpid)
    && 0 < t.nextpid
  }

  ghost predicate ReapInv(t: State) {
    && (forall i :: 0 <= i < |t.reaped| ==> t.reaped[i].pid in t.exited)
    && (forall i, j :: 0 <= i < j < |t.reaped| ==> t.reaped[i].pid != t.reaped[j].pid)
    && (forall i, p :: 0 <= i < |t.reaped| && 0 <= p < |t.procs| && !t.procs[p].state.UNUSED? ==>
          t.procs[p].pid != t.reaped[i].pid)
  }

  /** What a process step can do to pids: nothing, give out nextpid, let the running
      process exit, or drop a zombie. */
  lemma PidEffect(t: State, c: nat, o: ProcOp, i: nat)
    requires TableInv(t) && CpuInv(t) && ProcEnabled(t, c, o) && i < |t.procs|
    ensures var t' := ProcNext(t, c, o);
            var q, a := t.cpus[c].at.p, t.procs[i];
            && |t'.procs| == |t.procs|
            && var b := t'.procs[i];
            && t'.nextpid == (if o.AllocSlot? then t.nextpid + 1 else t.nextpid)
            && t'.exited == (if o.SetZombie? then t.exited + {t.procs[q].pid} else t.exited)
            && t'.reaped == (if o.Reap? then t.reaped + [Receipt(t.procs[o.p].pid, t.procs[q].pid)] else t.reaped)
            && (if o.AllocSlot? && i == o.np then a.state.UNUSED? && b.state.EMBRYO? && b.pid == t.nextpid
                else if o.Reap? && i == o.p then a.state.ZOMBIE? && b.state.UNUSED?
                else if o.SetZombie? && i == q then a.state.RUNNING? && b.state.ZOMBIE? && b.pid == a.pid
                else b.pid == a.pid
                     && (b.state.UNUSED? || (!a.state.UNUSED? && (b.state.ZOMBIE? <==> a.state.ZOMBIE?))))
  {
    hide ExitUpdate, TableInv, CpuInv;
    var q := t.cpus[c].at.p;
    TableAt(t, i);
    TableAt(t, q);
    CpuAt(t, c);
    if o.Adopt? { ExitEffect(t.procs, q, i); }
  }

  lemma ProcKeepsPids(t: State, c: nat, o: ProcOp)
    requires TableInv(t) && CpuInv(t) && PidInv(t) && ProcEnabled(t, c, o)
    ensures PidInv(ProcNext(t, c, o))
  {
    hide ProcNext, TableInv, CpuInv;
    var t' := ProcNext(t, c, o);
    PidEffect(t, c, o, t.cpus[c].at.p);
    forall i | 0 <= i < |t.procs| ensures PidOk(t'.procs[i], t'.nextpid, t'.exited) {
      assert PidOk(t.procs[i], t.nextpid, t.exited) && PidOk(t.procs[t.cpus[c].at.p], t.nextpid, t.exited);
      PidEffect(t, c, o, i);
    }
    forall i, j | 0 <= i < j < |t'.procs| && !t'.procs[i].state.UNUSED? && !t'.procs[j].state.UNUSED?
      ensures t'.procs[i].pid != t'.procs[j].pid
    {
      assert PidOk(t.procs[i], t.nextpid, t.exited) && PidOk(t.procs[j], t.nextpid, t.exited);
      PidEffect(t, c, o, i);
      PidEffect(t, c, o, j);
    }
  }

  lemma ProcKeepsReaped(t: State, c: nat, o: ProcOp)
    requires TableInv(t) && CpuInv(t) && PidInv(t) && ReapInv(t) && ProcEnabled(t, c, o)
    ensures ReapInv(ProcNext(t, c, o))
  {
    hide ProcNext, TableInv, CpuInv;
    var t', q := ProcNext(t, c, o), t.cpus[c].at.p;
    PidEffect(t, c, o, q);
    if o.Reap? {
      assert PidOk(t.procs[o.p], t.nextpid, t.exited);
    }
    forall i, p | 0 <= i < |t'.reaped| && 0 <= p < |t'.procs| && !t'.procs[p].state.UNUSED?
      ensures t'.procs[p].pid != t'.reaped[i].pid
    {
      PidEffect(t, c, o, p);
      assert PidOk(t.procs[p], t.nextpid, t.exited);
    }
  }

  lemma SchedKeepsPids(t: State, c: nat, s: SchedOp)
    requires CpuInv(t) && PidInv(t) && ReapInv(t) && SchedEnabled(t, c, s)
    ensures PidInv(SchedNext(t, c, s)) && ReapInv(SchedNext(t, c, s))
  {
    var t' := SchedNext(t, c, s);
    assert CpuOk(t.cpus[c], t.procs);
    forall i | 0 <= i < |t'.procs| ensures PidOk(t'.procs[i], t'.nextpid, t'.exited) {
      assert PidOk(t.procs[i], t.nextpid, t.exited);
    }
  }

  // ------------------------------------------------------------ who collects whom

  /** The process with pid `x` has exited, or has given its children away in exit(). */
  ghost predicate Gone(t: State, x: nat) {
    x in t.exited || exists r :: 0 <= r < |t.procs| && Departing(t.procs[r], x)
  }

  predicate Departing(r: Process, x: nat) {
    !r.state.UNUSED? && r.pid == x && r.pc.ExitAdopted?
  }

  /** The parent of a process is the one that forked it, or init once that one is gone. */
  ghost predicate HeirOk(t: State, p: nat)
    requires p < |t.procs|
  {
    var r := t.procs[p];
    !r.state.UNUSED? && r.parent.Some? ==>
      && r.pid in t.forker && r.parent.value < |t.procs|
      && var pa := t.procs[r.parent.value];
         && !pa.state.UNUSED?
         && (pa.pid == t.forker[r.pid] || (r.parent.value == INIT && Gone(t, t.forker[r.pid])))
  }

  ghost predicate ReceiptOk(t: State, r: Receipt) {
    r.pid in t.forker && (r.receiver == t.forker[r.pid] || (r.receiver == INIT_PID && t.forker[r.pid] in t.exited))
  }

  ghost predicate HeirInv(t: State) {
    && INIT < |t.procs| && t.procs[INIT].pid == INIT_PID
    && (forall p :: 0 <= p < |t.procs| ==> HeirOk(t, p))
    && (forall i :: 0 <= i < |t.reaped| ==> ReceiptOk(t, t.reaped[i]))
  }

  /** What a step does to entry `i` that matters here. */
  lemma HeirEffect(t: State, c: nat, o: ProcOp, i: nat)
    requires TableInv(t) && CpuInv(t) && ProcEnabled(t, c, o) && i < |t.procs|
    ensures var t' := ProcNext(t, c, o);
            var q, a := t.cpus[c].at.p, t.procs[i];
            && |t'.procs| == |t.procs|
            && var b := t'.procs[i];
            && (b.state.UNUSED? ==>
                  a.state.UNUSED? || a.state.ZOMBIE? || (a.state.EMBRYO? && o.BuildFail? && t.procs[q].pc.np == i))
            && (a.state.UNUSED? && !b.state.UNUSED? ==> b.parent.None?)
            && (!a.state.UNUSED? && !b.state.UNUSED? ==> b.pid == a.pid)
            && (!b.state.UNUSED? ==>
                  b.parent == (if o.Adopt? && a.parent == Some(q) then Some(INIT)
                               else if o.SetParent? && i == t.procs[q].pc.np then Some(q) else a.parent))
            && (a.pc.ExitAdopted? && !b.pc.ExitAdopted? ==> o.SetZombie? && i == q)
            && (o.Adopt? && i == q ==> b.pc.ExitAdopted? && !b.state.UNUSED?)
  {
    hide ExitUpdate, TableInv, CpuInv;
    var q := t.cpus[c].at.p;
    TableAt(t, i);
    TableAt(t, q);
    CpuAt(t, c);
    if o.Adopt? { ExitEffect(t.procs, q, i); }
  }

  lemma ForkerEffect(t: State, c: nat, o: ProcOp)
    requires TableInv(t) && CpuInv(t) && ProcEnabled(t, c, o)
    ensures var q := t.cpus[c].at.p;
            && !t.procs[q].state.UNUSED? && (o.Adopt? ==> t.procs[q].pc.ExitLocked?)
            && (o.SetParent? ==> t.procs[q].state.RUNNING? && t.procs[q].pc.Building? && t.procs[q].pc.np < |t.procs|
                                 && t.procs[t.procs[q].pc.np].state.EMBRYO? && t.procs[t.procs[q].pc.np].parent.None?)
            && ProcNext(t, c, o).forker ==
               if o.SetParent? then t.forker[t.procs[t.procs[q].pc.np].pid := t.procs[q].pid] else t.forker
  {
    hide ExitUpdate, TableInv, CpuInv;
    TableAt(t, t.cpus[c].at.p);
    CpuAt(t, c);
  }

  /** Who is gone stays gone. */
  lemma GoneStays(t: State, c: nat, o: ProcOp, x: nat)
    requires TableInv(t) && CpuInv(t) && ProcEnabled(t, c, o) && Gone(t, x)
    ensures Gone(ProcNext(t, c, o), x)
  {
    hide ProcNext, TableInv, CpuInv;
    var q := t.cpus[c].at.p;
    PidEffect(t, c, o, q);
    if x !in t.exited {
      var r :| 0 <= r < |t.procs| && Departing(t.procs[r], x);
      TableAt(t, r);
      HeirEffect(t, c, o, r);
      PidEffect(t, c, o, r);
    }
  }

  /** No entry that somebody's parent field points to leaves the table. */
  lemma ParentStays(t: State, c: nat, o: ProcOp, p: nat)
    requires TableInv(t) && CpuInv(t) && FamilyInv(t) && ProcEnabled(t, c, o) && p < |t.procs|
    requires !t.procs[p].state.UNUSED? && t.procs[p].parent.Some? && t.procs[p].parent.value < |t.procs|
    requires !t.procs[t.procs[p].parent.value].state.UNUSED?
    ensures var pa := t.procs[p].parent.value;
            && |ProcNext(t, c, o).procs| == |t.procs|
            && var after := ProcNext(t, c, o).procs[pa];
               p != INIT ==> !after.state.UNUSED? && after.pid == t.procs[pa].pid
  {
    hide ProcNext, TableInv, CpuInv, ProcEnabled;
    var pa := t.procs[p].parent.value;
    assert FamOk(t.procs, p);
    TableAt(t, pa);
    HeirEffect(t, c, o, pa);
  }

  lemma ProcKeepsHeir(t: State, c: nat, o: ProcOp, p: nat)
    requires TableInv(t) && CpuInv(t) && FamilyInv(t) && PidInv(t) && HeirInv(t) && ProcEnabled(t, c, o)
    requires p < |t.procs|
    ensures |ProcNext(t, c, o).procs| == |t.procs| && HeirOk(ProcNext(t, c, o), p)
  {
    hide ProcNext, TableInv, CpuInv, Gone, PidInv;
    var t', q := ProcNext(t, c, o), t.cpus[c].at.p;
    HeirEffect(t, c, o, p);
    HeirEffect(t, c, o, q);
    HeirEffect(t, c, o, INIT);
    ForkerEffect(t, c, o);
    var a, b := t.procs[p], t'.procs[p];
    if !b.state.UNUSED? && b.parent.Some? {
      assert HeirOk(t, p);
      if o.SetParent? { SamePidOnce(t, p, t.procs[q].pc.np); }
      if a.parent.Some? {
        ParentStays(t, c, o, p);
        if Gone(t, t.forker[a.pid]) { GoneStays(t, c, o, t.forker[a.pid]); }
        if o.Adopt? { GivenAway(t', q, t.procs[q].pid); }
      }
    }
  }

  lemma SamePidOnce(t: State, p: nat, r: nat)
    requires PidInv(t) && p < |t.procs| && r < |t.procs| && !t.procs[p].state.UNUSED? && !t.procs[r].state.UNUSED?
    ensures t.procs[p].pid == t.procs[r].pid ==> p == r
  {
  }

  lemma GivenAway(t: State, q: nat, x: nat)
    requires q < |t.procs| && Departing(t.procs[q], x)
    ensures Gone(t, x)
  {
  }

  lemma ProcKeepsReceipts(t: State, c: nat, o: ProcOp)
    requires TableInv(t) && LockInv(t) && CpuInv(t) && FamilyInv(t) && PidInv(t) && ReapInv(t) && HeirInv(t)
    requires ProcEnabled(t, c, o)
    ensures forall i :: 0 <= i < |ProcNext(t, c, o).reaped| ==>
              ReceiptOk(ProcNext(t, c, o), ProcNext(t, c, o).reaped[i])
  {
    hide ProcNext, TableInv, CpuInv, LockInv, FamilyInv, PidInv;
    var t', q := ProcNext(t, c, o), t.cpus[c].at.p;
    PidEffect(t, c, o, q);
    ForkerEffect(t, c, o);
    if o.Reap? {
      assert HeirOk(t, o.p);
      if Gone(t, t.forker[t.procs[o.p].pid]) && t.forker[t.procs[o.p].pid] !in t.exited {
        var r :| 0 <= r < |t.procs| && Departing(t.procs[r], t.forker[t.procs[o.p].pid]);
        OneCritical(t, q, r);
      }
    }
    forall i | 0 <= i < |t'.reaped| ensures ReceiptOk(t', t'.reaped[i]) {
      if i < |t.reaped| { assert ReceiptOk(t, t.reaped[i]) && t'.reaped[i] == t.reaped[i]; }
    }
  }

  lemma ProcKeepsHeirs(t: State, c: nat, o: ProcOp)
    requires TableInv(t) && LockInv(t) && CpuInv(t) && FamilyInv(t) && PidInv(t) && ReapInv(t) && HeirInv(t)
    requires ProcEnabled(t, c, o)
    ensures HeirInv(ProcNext(t, c, o))
  {
    hide ProcNext, ProcEnabled, TableInv, CpuInv, LockInv, PidInv, ReapInv, HeirOk, ReceiptOk;
    TableAt(t, INIT);
    HeirEffect(t, c, o, INIT);
    forall p | 0 <= p < |ProcNext(t, c, o).procs| ensures HeirOk(ProcNext(t, c, o), p) { ProcKeepsHeir(t, c, o, p); }
    ProcKeepsReceipts(t, c, o);
  }

  lemma SchedKeepsHeirs(t: State, c: nat, s: SchedOp)
    requires CpuInv(t) && HeirInv(t) && SchedEnabled(t, c, s)
    ensures HeirInv(SchedNext(t, c, s))
  {
    var t' := SchedNext(t, c, s);
    assert CpuOk(t.cpus[c], t.procs);
    forall i | 0 <= i < |t'.procs|
      ensures t'.procs[i].pid == t.procs[i].pid && t'.procs[i].parent == t.procs[i].parent
              && (t'.procs[i].state.UNUSED? <==> t.procs[i].state.UNUSED?)
              && (t.procs[i].pc.ExitAdopted? ==> t'.procs[i].pc.ExitAdopted?)
    {}
    hide SchedNext, CpuInv, CpuOk, SchedEnabled;
    forall p | 0 <= p < |t'.procs| ensures HeirOk(t', p) {
      assert HeirOk(t, p);
      forall x | Gone(t, x) ensures Gone(t', x) {
        if x !in t.exited {
          var r :| 0 <= r < |t.procs| && Departing(t.procs[r], x);
          assert Departing(t'.procs[r], x);
        }
      }
    }
    forall i | 0 <= i < |t'.reaped| ensures ReceiptOk(t', t'.reaped[i]) { assert ReceiptOk(t, t.reaped[i]); }
  }

  // ------------------------------------------------------------ wait() and exit()

  /** Asleep in wait(). */
  predicate InWait(r: Process, q: nat) {
    r.state.SLEEPING? && r.chan == Entry(q)
  }

  /** Dead, or past the point in exit() where the parent was woken. */
  predicate Dying(r: Process) {
    r.state.ZOMBIE? || r.pc.ExitAdopted?
  }

  ghost predicate WaitInv(t: State) {
    && (forall q :: 0 <= q < |t.procs| && t.procs[q].state.SLEEPING? && t.procs[q].chan.Entry? ==>
          t.procs[q].chan.p == q)
    && (forall q, p :: 0 <= q < |t.procs| && 0 <= p < |t.procs| && InWait(t.procs[q], q) ==>
          t.procs[p].parent == Some(q) ==> !Dying(t.procs[p]))
  }

  lemma ExitWakes(procs: seq<Process>, q: nat, z: nat)
    requires q < |procs| && INIT < |procs| && z < |procs|
    ensures var r := ExitUpdate(procs, q);
            && (procs[q].parent.Some? && procs[q].parent.value < |procs| ==>
                  !InWait(r[procs[q].parent.value], procs[q].parent.value))
            && (procs[z].parent == Some(q) && procs[z].state.ZOMBIE? ==> !InWait(r[INIT], INIT))
  {
  }

  lemma AdoptKeepsWait(t: State, c: nat, q0: nat, p0: nat)
    requires TableInv(t) && LockInv(t) && CpuInv(t) && FamilyInv(t) && WaitInv(t) && ProcEnabled(t, c, Adopt)
    requires q0 < |t.procs| && p0 < |t.procs|
    ensures var r := ProcNext(t, c, Adopt).procs;
            |r| == |t.procs| && (InWait(r[q0], q0) && r[p0].parent == Some(q0) ==> !Dying(r[p0]))
  {
    hide ExitUpdate, TableInv;
    var q := t.cpus[c].at.p;
    ExitEffect(t.procs, q, q0);
    ExitEffect(t.procs, q, p0);
    ExitWakes(t.procs, q, p0);
    assert CpuOk(t.cpus[c], t.procs) && FamOk(t.procs, q);
    if p0 != q { OneCritical(t, q, p0); }
  }

  lemma WaitEffect(t: State, c: nat, o: ProcOp, i: nat)
    requires TableInv(t) && CpuInv(t) && ProcEnabled(t, c, o) && !o.Adopt? && i < |t.procs|
    ensures |ProcNext(t, c, o).procs| == |t.procs|
    ensures var q, a, b := t.cpus[c].at.p, t.procs[i], ProcNext(t, c, o).procs[i];
            && (InWait(b, i) ==> InWait(a, i) || (o.WaitSleep? && i == q))
            && (Dying(b) ==> Dying(a) && b.parent == a.parent)
  {
    hide TableInv, CpuInv;
    var q := t.cpus[c].at.p;
    TableAt(t, i);
    TableAt(t, q);
    CpuAt(t, c);
  }

  lemma StepKeepsWaitPair(t: State, c: nat, o: ProcOp, q0: nat, p0: nat)
    requires TableInv(t) && LockInv(t) && CpuInv(t) && WaitInv(t) && ProcEnabled(t, c, o) && !o.Adopt?
    requires q0 < |t.procs| && p0 < |t.procs|
    ensures var r := ProcNext(t, c, o).procs;
            |r| == |t.procs| && (InWait(r[q0], q0) && r[p0].parent == Some(q0) ==> !Dying(r[p0]))
  {
    hide ProcNext;
    var q := t.cpus[c].at.p;
    WaitEffect(t, c, o, q0);
    WaitEffect(t, c, o, p0);
    if o.WaitSleep? && p0 != q {
      OneCritical(t, q, p0);
      assert !ZombieChild(t, q, p0);
    }
    assert CpuOk(t.cpus[c], t.procs) && ProcOk(t.procs[q]);
  }

  lemma ProcKeepsChan(t: State, c: nat, o: ProcOp, q0: nat)
    requires TableInv(t) && CpuInv(t) && WaitInv(t) && ProcEnabled(t, c, o) && q0 < |t.procs|
    ensures var r := ProcNext(t, c, o).procs;
            |r| == |t.procs| && (r[q0].state.SLEEPING? && r[q0].chan.Entry? ==> r[q0].chan.p == q0)
  {
    hide ExitUpdate, TableInv, CpuInv;
    var q := t.cpus[c].at.p;
    TableAt(t, q);
    CpuAt(t, c);
    if o.Adopt? { ExitEffect(t.procs, q, q0); }
  }

  lemma ProcKeepsWait(t: State, c: nat, o: ProcOp)
    requires TableInv(t) && LockInv(t) && CpuInv(t) && FamilyInv(t) && WaitInv(t) && ProcEnabled(t, c, o)
    ensures WaitInv(ProcNext(t, c, o))
  {
    hide ProcNext, ProcEnabled, LockInv, CpuInv, FamilyInv;
    var r := ProcNext(t, c, o).procs;
    ProcKeepsChan(t, c, o, INIT);
    forall q0 | 0 <= q0 < |r| && r[q0].state.SLEEPING? && r[q0].chan.Entry? ensures r[q0].chan.p == q0 {
      ProcKeepsChan(t, c, o, q0);
    }
    forall q0, p0 | 0 <= q0 < |r| && 0 <= p0 < |r| && InWait(r[q0], q0) && r[p0].parent == Some(q0)
      ensures !Dying(r[p0])
    {
      if o.Adopt? { AdoptKeepsWait(t, c, q0, p0); } else { StepKeepsWaitPair(t, c, o, q0, p0); }
    }
  }

  lemma SchedKeepsWait(t: State, c: nat, s: SchedOp)
    requires CpuInv(t) && WaitInv(t) && SchedEnabled(t, c, s)
    ensures WaitInv(SchedNext(t, c, s))
  {
    assert CpuOk(t.cpus[c], t.procs);
  }

  // ------------------------------------------------------------ all runs

  ghost predicate Inv(t: State) {
    TableInv(t) && LockInv(t) && CpuInv(t) && FamilyInv(t) && PidInv(t) && ReapInv(t) && HeirInv(t) && WaitInv(t)
  }

  /** After userinit(): init is RUNNABLE, nothing else exists, every CPU is idle. */
  ghost predicate Init(t: State) {
    && t.lock.None? && t.reaped == [] && t.exited == {} && t.nextpid == 2 && t.forker == map[]
    && (forall c :: 0 <= c < |t.cpus| ==> t.cpus[c] == Cpu(None, Idle))
    && INIT < |t.procs| && t.procs[INIT] == Process(RUNNABLE, INIT_PID, None, NoChan, true, Parked(Fresh))
    && forall p :: 0 <= p < |t.procs| && p != INIT ==>
        t.procs[p] == Process(UNUSED, 0, None, NoChan, false, Parked(Dead))
  }

  lemma InitInv(t: State)
    requires Init(t)
    ensures Inv(t)
  {
    forall c | 0 <= c < |t.cpus| ensures CpuOk(t.cpus[c], t.procs) && !Holds(t.cpus[c], t.procs) {}
    forall p | 0 <= p < |t.procs| ensures InitEntry(t, p) {}
  }

  ghost predicate InitEntry(t: State, p: nat)
    requires p < |t.procs|
  {
    ProcOk(t.procs[p]) && BuildOk(t.procs, p) && FamOk(t.procs, p) && PidOk(t.procs[p], t.nextpid, t.exited)
        && HeirOk(t, p)
  }

  lemma StepInv(t: State, e: Event)
    requires Inv(t) && Enabled(t, e)
    ensures Inv(Next(t, e))
  {
    hide TableInv, LockInv, CpuInv, FamilyInv, PidInv, ReapInv, HeirInv, WaitInv, SchedEnabled, ProcEnabled, SchedNext;
    hide ProcNext;
    match e
    case OnSched(c, s) =>
      SchedKeepsTable(t, c, s);
      SchedKeepsLock(t, c, s);
      SchedKeepsCpus(t, c, s);
      SchedKeepsFamily(t, c, s);
      SchedKeepsPids(t, c, s);
      SchedKeepsHeirs(t, c, s);
      SchedKeepsWait(t, c, s);
    case OnProc(c, o) =>
      ProcKeepsTable(t, c, o);
      ProcKeepsLock(t, c, o);
      ProcKeepsCpus(t, c, o);
      ProcKeepsFamily(t, c, o);
      ProcKeepsPids(t, c, o);
      ProcKeepsReaped(t, c, o);
      ProcKeepsHeirs(t, c, o);
      ProcKeepsWait(t, c, o);
  }

  ghost predicate Legal(t: State, run: seq<Event>)
    decreases |run|
  {
    run != [] ==> Enabled(t, run[0]) && Legal(Next(t, run[0]), run[1..])
  }

  ghost function After(t: State, run: seq<Event>): State
    requires Legal(t, run)
    decreases |run|
  {
    if run == [] then t else After(Next(t, run[0]), run[1..])
  }

  lemma {:induction false} RunInv(t: State, run: seq<Event>)
    requires Inv(t) && Legal(t, run)
    ensures Inv(After(t, run))
    decreases |run|
  {
    hide Inv, Enabled, Next;
    if run != [] {
      StepInv(t, run[0]);
      RunInv(Next(t, run[0]), run[1..]);
    }
  }

  ghost predicate Reachable(t: State) {
    exists t0, run :: Init(t0) && Legal(t0, run) && After(t0, run) == t
  }

  lemma ReachableInv(t: State)
    requires Reachable(t)
    ensures Inv(t)
  {
    var t0, run :| Init(t0) && Legal(t0, run) && After(t0, run) == t;
    InitInv(t0);
    RunInv(t0, run);
  }

  /** Whenever ptable.lock is free, the RUNNING processes and the CPUs with a process
      correspond one to one. */
  lemma RunningMatchesCpus(t: State)
    requires Reachable(t) && t.lock.None?
    ensures forall c :: 0 <= c < |t.cpus| && t.cpus[c].proc.Some? ==>
              t.cpus[c].proc.value < |t.procs| && t.procs[t.cpus[c].proc.value].state.RUNNING?
    ensures forall p :: 0 <= p < |t.procs| && t.procs[p].state.RUNNING? ==> OnCpu(t, p)
    ensures forall c, d :: 0 <= c < d < |t.cpus| && t.cpus[c].proc.Some? ==> t.cpus[c].proc != t.cpus[d].proc
  {
    ReachableInv(t);
    forall c | 0 <= c < |t.cpus| && t.cpus[c].proc.Some?
      ensures t.cpus[c].proc.value < |t.procs| && t.procs[t.cpus[c].proc.value].state.RUNNING?
    {
      assert CpuOk(t.cpus[c], t.procs) && !Holds(t.cpus[c], t.procs);
    }
  }

  /** No process runs, and no kernel stack is run on, on two CPUs at once. */
  lemma NoProcessRunsTwice(t: State, c: nat, d: nat, p: nat)
    requires Reachable(t) && c < |t.cpus| && d < |t.cpus| && t.cpus[c].at == In(p) && t.cpus[d].at == In(p)
    ensures c == d
  {
    ReachableInv(t);
    assert CpuOk(t.cpus[c], t.procs) && CpuOk(t.cpus[d], t.procs);
  }

  /** wait() frees a kernel stack only when no CPU is on it. */
  lemma ReapedStackIsIdle(t: State, c: nat, p: nat, d: nat)
    requires Reachable(t) && ProcEnabled(t, c, Reap(p)) && d < |t.cpus|
    ensures t.cpus[d].at != In(p) && t.procs[p].kstack
  {
    ReachableInv(t);
    var q := t.cpus[c].at.p;
    assert CpuOk(t.cpus[c], t.procs) && CpuOk(t.cpus[d], t.procs) && ProcOk(t.procs[p]);
    if p != q { OneCritical(t, q, p); }
  }

  /** Every process but init has a parent that still lives and can wait for it. */
  lemma EveryProcessHasAParent(t: State, p: nat)
    requires Reachable(t) && p < |t.procs| && p != INIT
    requires !t.procs[p].state.UNUSED? && !t.procs[p].state.EMBRYO?
    ensures t.procs[p].parent.Some? && t.procs[p].parent.value < |t.procs|
    ensures var s := t.procs[t.procs[p].parent.value].state;
            !s.UNUSED? && !s.EMBRYO? && !s.ZOMBIE?
  {
    ReachableInv(t);
    assert FamOk(t.procs, p);
  }

  /** No pid is returned by two waits, none that did not exit, and each only to the process
      that forked it, or to init if that one had exited before. */
  lemma ReapedOnce(t: State)
    requires Reachable(t)
    ensures forall i, j :: 0 <= i < j < |t.reaped| ==> t.reaped[i].pid != t.reaped[j].pid
    ensures forall i :: 0 <= i < |t.reaped| ==> t.reaped[i].pid in t.exited && t.reaped[i].pid in t.forker
    ensures forall i :: 0 <= i < |t.reaped| && t.reaped[i].receiver != t.forker[t.reaped[i].pid] ==>
              t.reaped[i].receiver == INIT_PID && t.forker[t.reaped[i].pid] in t.exited
  {
    ReachableInv(t);
    forall i | 0 <= i < |t.reaped| ensures ReceiptOk(t, t.reaped[i]) {}
  }

  /** No lost wakeup between exit() and wait(): whenever ptable.lock is free, a process
      asleep in wait() has no zombie to collect. */
  lemma NobodySleepsOnAZombie(t: State, q: nat, p: nat)
    requires Reachable(t) && q < |t.procs| && InWait(t.procs[q], q)
    ensures !ZombieChild(t, q, p)
  {
    ReachableInv(t);
  }

  /** exit() never returns: sched() does not come back to a dead process. */
  lemma DeadStayDead(t: State, p: nat)
    requires Reachable(t) && p < |t.procs|
    ensures t.procs[p].pc != Returned(Dead)
  {
    ReachableInv(t);
    if !t.procs[p].pc.Parked? {
      assert OnCpu(t, p);
      var c :| 0 <= c < |t.cpus| && t.cpus[c].proc == Some(p);
      assert CpuOk(t.cpus[c], t.procs) && ProcOk(t.procs[p]);
    }
  }
}
