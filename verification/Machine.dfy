/** Several processes in one memory, from boot on: every run of growproc(), page faults,
fork(), exec() and the freevm() of wait() keeps the layout of all of them, as long as no
process grows into its stack, gives up its whole heap, or touches memory more than a page
below its stack. */
module Machine {

  import opened Basics
  import opened PageTables
  import opened AddressSpace

  /** A system call or fault of process number `i`; Reap is its collection by wait(). */
  datatype Op =
    | Grow(i: nat, n: int)
    | Touch(i: nat, addr: nat)
    | Fork(i: nat)
    | Exec(i: nat, segs: seq<Segment>, pushed: bool)
    | Reap(i: nat)

  /** What a step shows of a process, and of the machine. */
  datatype View = View(pgdir: nat, sz: nat, stackSize: nat)

  datatype Snap = Snap(s: State, views: seq<View>)

  /** The processes have address spaces of their own, laid out as they should be. */
  ghost predicate Together(vm: Vm, procs: seq<Process>)
    reads vm, procs
  {
    && Own(vm.St(), vm.owner)
    && (forall i :: 0 <= i < |procs| ==> procs[i].vm == vm && procs[i].Valid())
    && (forall i, j :: 0 <= i < j < |procs| ==> procs[i] != procs[j] && procs[i].pgdir != procs[j].pgdir)
  }

  ghost predicate Shows(x: Snap, vm: Vm, procs: seq<Process>)
    reads vm, procs
  {
    && x.s == vm.St() && |x.views| == |procs|
    && forall i :: 0 <= i < |procs| ==> x.views[i] == View(procs[i].pgdir, procs[i].sz, procs[i].stackSize)
  }

  /** An operation that can occur: the sizes and addresses are 32-bit ones. */
  predicate Occurs(x: Snap, op: Op) {
    && op.i < |x.views|
    && match op
       case Grow(_, n) => -KERNBASE <= n < KERNBASE
       case Touch(_, addr) => addr < WORD
       case Exec(_, segs, _) => InWords(segs)
       case _ => true
  }

  /** The heap stays below the stack and is not given up whole; a fault is at most one
      page below the stack. */
  predicate Disciplined(x: Snap, op: Op)
    requires op.i < |x.views|
  {
    var p := x.views[op.i];
    match op
    case Grow(_, n) => !MeetsStack(p.sz, p.stackSize, n) && !Drains(p.sz, n)
    case Touch(_, addr) => addr / PGSIZE >= USERPAGES - p.stackSize - 1
    case _ => true
  }

  /** The kernel panics. */
  predicate Halts(x: Snap, op: Op)
    requires op.i < |x.views|
  {
    var p := x.views[op.i];
    op.Touch? && FaultPanics(x.s, p.pgdir, p.sz, p.stackSize, op.addr)
  }

  /** There are the frames that the operation needs, and nothing else is wrong. */
  predicate Succeeds(x: Snap, op: Op)
    requires op.i < |x.views|
  {
    var p := x.views[op.i];
    match op
    case Grow(_, n) => Grows(x.s, p.pgdir, p.sz, p.stackSize, n)
    case Fork(_) => Forks(x.s, p.sz, p.stackSize)
    case Exec(_, segs, pushed) => Execs(x.s, segs, pushed)
    case _ => true
  }

  /** A run does not go on with the operation. */
  predicate Stuck(x: Snap, op: Op) {
    !Occurs(x, op) || !Disciplined(x, op) || Halts(x, op)
  }

  /** The steps of a run, one after the other. */
  ghost predicate IsRun(trace: seq<Snap>, ops: seq<Op>) {
    && |trace| == |ops| + 1
    && forall j :: 0 <= j < |ops| ==>
         Occurs(trace[j], ops[j]) && !Halts(trace[j], ops[j]) && Next(trace[j], ops[j], trace[j + 1])
  }

  lemma ShowsOnce(x: Snap, y: Snap, vm: Vm, procs: seq<Process>)
    requires Shows(x, vm, procs) && Shows(y, vm, procs)
    ensures x == y
  {
    assert x.views == y.views;
  }

  /** fork() loses a frame. */
  ghost predicate Loses(x: Snap, op: Op) {
    op.Fork? && op.i < |x.views| && ForkLoses(x.s, x.views[op.i].sz, x.views[op.i].stackSize)
  }

  /** What an operation does to the processes. */
  ghost predicate Next(x: Snap, op: Op, y: Snap) {
    && op.i < |x.views|
    && var before, after, p := x.views, y.views, x.views[op.i];
       match op
       case Grow(i, n) => after == before[i := p.(sz := if Succeeds(x, op) && p.sz + n > 0 then p.sz + n else p.sz)]
       case Touch(i, addr) =>
         after == before[i := p.(stackSize := p.stackSize + (if addr / PGSIZE + p.stackSize < USERPAGES then 1 else 0))]
       case Fork(i) =>
         if Succeeds(x, op) then |after| == |before| + 1
             && after == before + [View(after[|before|].pgdir, p.sz, p.stackSize)]
         else after == before
       case Exec(i, segs, _) =>
         if Succeeds(x, op)
         then |after| == |before| && after == before[i := View(after[i].pgdir, Pages(ImageEnd(segs)) * PGSIZE, 1)]
         else after == before
       case Reap(i) => after == before[..i] + before[i + 1..]
  }

  lemma NewDirKept(o: Owner, p: Owner, c: nat, e: nat)
    requires WithoutDir(p, c) == o && IsDirectory(o, e)
    ensures IsDirectory(p, e)
  {
  }

  lemma OldDirKept(o: Owner, p: Owner, d: nat, c: nat, e: nat)
    requires WithoutDir(p, c) == WithoutDir(o, d) && IsDirectory(o, e) && e != d
    ensures IsDirectory(p, e)
  {
    assert e in WithoutDir(o, d);
  }

  lemma DroppedDir(o: Owner, d: nat, e: nat)
    requires IsDirectory(o, e) && e != d
    ensures IsDirectory(WithoutDir(o, d), e)
  {
  }

  lemma OtherLayout(s: State, s': State, owner: Owner, owner': Owner, d: nat, e: nat, sz: nat, ss: nat)
    requires Layout(s, owner, e, sz, ss) && Others(s, s', owner, d) && e != d && IsDirectory(owner', e)
    ensures Layout(s', owner', e, sz, ss)
  {
    hide Entry;
    forall v | 0 <= v < USERPAGES ensures Entry(s'.mem, e, v) == Entry(s.mem, e, v) {}
  }

  /** The address space of the first process, when inituvm() has returned. */
  lemma FirstLayout(s: State, t: State, o: Owner, p: Owner, d: nat, data: nat)
    requires forall v :: 0 <= v < NPAGES ==> Entry(s.mem, d, v) == KernelEntry(data, 4, v)
    requires IsDirectory(o, d) && Changed(s, t, o, p, d, 0, 1) && Present(Entry(t.mem, d, 0))
    requires KernelTablesOnly(s.mem, d, data, 4) && TablesMade(s.mem, t.mem, d, 0, 1)
    ensures Layout(t, p, d, PGSIZE, 0) && HeapTables(t.mem, d, 1)
  {
    NothingCopied(s, d, data);
    hide Entry, KernelEntry, Table;
    assert Pages(PGSIZE) == 1;
    forall v | 0 <= v < USERPAGES ensures Present(Entry(t.mem, d, v)) <==> v < 1 {
      if v > 0 { assert Entry(t.mem, d, v) == Entry(s.mem, d, v); }
    }
  }

  lemma FirstEntry(s: State, d: nat, data: nat)
    requires forall v :: 0 <= v < NPAGES ==> Entry(s.mem, d, v) == KernelEntry(data, 4, v)
    requires KernelTablesOnly(s.mem, d, data, 4)
    ensures !Present(Entry(s.mem, d, 0)) && Table(s.mem, d, 0) == 0
  {
    hide Entry, Table;
  }

  class System {
    const vm: Vm
    const kpgdir: nat
    var procs: seq<Process>

    ghost predicate Valid()
      reads this, vm, procs
    {
      Together(vm, procs) && EXTPAGES < vm.dataPage < PHYSPAGES && |vm.mem| <= PHYSPAGES
    }

    /** main(): the page allocator, the kernel's own directory by kvmalloc(), and userinit().
        The kernel ends within the first 4 MB. */
    constructor (base: nat, dataPage: nat, image: Page)
      requires 0 < base <= 1024 && EXTPAGES < dataPage < PHYSPAGES && |image| == NENTRIES
      ensures Valid() && fresh(vm) && |procs| == 1 && fresh(procs[0]) && procs[0].sz == PGSIZE
      ensures procs[0].stackSize == 0
      ensures HeapTables(vm.mem, procs[0].pgdir, 1) && |vm.free| == PHYSPAGES - base - 2 * KERNEL_FRAMES - 2
      ensures forall p :: p in Pool(vm.St(), vm.owner) <==> base <= p < PHYSPAGES
    {
      hide Own, Pool, Entry, KernelEntry, KeptAll, Extends, KernelTablesOnly, Changed, TablesMade, Layout, Present;
      hide Frame, Within, Table;
      hide HeapTables;
      var v := new Vm(base, dataPage);
      ghost var s0, o0 := v.St(), v.owner;
      var k := v.Setupkvm();
      KeptMemory(s0, v.St(), o0);
      ghost var s1, o1 := v.St(), v.owner;
      var d := v.Setupkvm();
      KeptMemory(s1, v.St(), o1);
      ghost var s, o := v.St(), v.owner;
      FirstEntry(s, d, dataPage);
      v.Inituvm(d, image);
      FirstLayout(s, v.St(), o, v.owner, d, dataPage);
      ChangedMemory(s, v.St(), o, v.owner, d, 0, 1);
      var p := new Process(v, d, PGSIZE, 0);
      vm, kpgdir, procs := v, k, [p];
    }

    /** What a step of one process keeps of another. */
    lemma OtherStays(s: State, o: Owner, i: nat, j: nat)
      requires i < |procs| && j < |procs| && i != j && Own(vm.St(), vm.owner) && |s.mem| <= PHYSPAGES
      requires Layout(s, o, procs[j].pgdir, procs[j].sz, procs[j].stackSize) && procs[j].vm == vm
      requires procs[i].pgdir != procs[j].pgdir
      requires Others(s, vm.St(), o, procs[i].pgdir) && SameRoles(o, vm.owner, procs[i].pgdir)
      ensures procs[j].Valid()
    {
      SameMemory(s, vm.St(), o, procs[i].pgdir);
      OthersKeepLayout(s, vm.St(), o, vm.owner, procs[i].pgdir, procs[j].pgdir, procs[j].sz, procs[j].stackSize);
    }

    method Look() returns (x: Snap)
      ensures Shows(x, vm, procs)
    {
      var views, i := [], 0;
      while i < |procs|
        invariant 0 <= i <= |procs| && |views| == i
        invariant forall j :: 0 <= j < i ==> views[j] == View(procs[j].pgdir, procs[j].sz, procs[j].stackSize)
      {
        views, i := views + [View(procs[i].pgdir, procs[i].sz, procs[i].stackSize)], i + 1;
      }
      x := Snap(vm.St(), views);
    }

    method StepGrow(i: nat, n: int, ghost x: Snap) returns (ghost y: Snap)
      requires Valid() && Shows(x, vm, procs) && Occurs(x, Grow(i, n))
      modifies vm, procs
      ensures Valid() <==> Disciplined(x, Grow(i, n))
      ensures Pool(vm.St(), vm.owner) == old(Pool(vm.St(), vm.owner))
      ensures Shows(y, vm, procs) && Next(x, Grow(i, n), y)
    {
      hide Layout, Own, Others, SameRoles, KeptPages, FreshPages, MappedOutside, Pool, Grows, MeetsStack;
      ghost var s, o := vm.St(), vm.owner;
      assert procs[i].Valid();
      var ok := procs[i].Growproc(n);
      SameMemory(s, vm.St(), o, procs[i].pgdir);
      forall j | 0 <= j < |procs| && j != i ensures procs[j].Valid() { OtherStays(s, o, i, j); }
      y := Snap(vm.St(), x.views[i := x.views[i].(sz := procs[i].sz)]);
    }

    method StepTouch(i: nat, addr: nat, ghost x: Snap) returns (halted: bool, ghost y: Snap)
      requires Valid() && Shows(x, vm, procs) && Occurs(x, Touch(i, addr))
      modifies vm, procs
      ensures halted <==> Halts(x, Touch(i, addr))
      ensures !halted ==> (Valid() <==> Disciplined(x, Touch(i, addr)))
      ensures !halted ==> Pool(vm.St(), vm.owner) == old(Pool(vm.St(), vm.owner))
      ensures !halted ==> Shows(y, vm, procs) && Next(x, Touch(i, addr), y)
    {
      hide Layout, Own, Others, SameRoles, KeptPages, FreshPages, MappedOutside, Pool, FaultPanics;
      ghost var s, o := vm.St(), vm.owner;
      assert procs[i].Valid();
      halted := procs[i].Fault(addr);
      if !halted {
        SameMemory(s, vm.St(), o, procs[i].pgdir);
        forall j | 0 <= j < |procs| && j != i ensures procs[j].Valid() { OtherStays(s, o, i, j); }
      }
      y := Snap(vm.St(), x.views[i := x.views[i].(stackSize := procs[i].stackSize)]);
    }

    method StepFork(i: nat, ghost x: Snap) returns (ghost y: Snap)
      requires Valid() && Shows(x, vm, procs) && Occurs(x, Fork(i))
      modifies this`procs, vm
      ensures Valid() && Pool(vm.St(), vm.owner) <= old(Pool(vm.St(), vm.owner))
      ensures Pool(vm.St(), vm.owner) == old(Pool(vm.St(), vm.owner)) <==> !Loses(x, Fork(i))
      ensures Shows(y, vm, procs) && Next(x, Fork(i), y)
      ensures forall p :: p in procs ==> p in old(procs) || fresh(p)
    {
      hide Layout, Own, CopiedPages, KeptAll, WithoutDir, Forks, ForkLoses, Pool;
      ghost var s, o := vm.St(), vm.owner;
      assert procs[i].Valid();
      var child, leak := procs[i].Fork();
      KeptMemory(s, vm.St(), o);
      forall j | 0 <= j < |procs| ensures procs[j].Valid() && procs[j].pgdir in o {
        LayoutDir(s, o, procs[j].pgdir, procs[j].sz, procs[j].stackSize);
        if child != null { NewDirKept(o, vm.owner, child.pgdir, procs[j].pgdir); }
        KeptLayout(s, vm.St(), o, vm.owner, procs[j].pgdir, procs[j].sz, procs[j].stackSize);
      }
      y := Snap(vm.St(), x.views);
      if child != null {
        procs := procs + [child];
        y := Snap(vm.St(), x.views + [View(child.pgdir, child.sz, child.stackSize)]);
      }
    }

    method StepExec(i: nat, segs: seq<Segment>, pushed: bool, ghost x: Snap) returns (ghost y: Snap)
      requires Valid() && Shows(x, vm, procs) && Occurs(x, Exec(i, segs, pushed))
      modifies vm, procs
      ensures Valid() && Pool(vm.St(), vm.owner) == old(Pool(vm.St(), vm.owner))
      ensures Shows(y, vm, procs) && Next(x, Exec(i, segs, pushed), y)
    {
      hide Layout, Own, Others, KeptAll, WithoutDir, Pool, Execs, ImageEnd, InWords, Pages;
      ghost var s, o, d := vm.St(), vm.owner, procs[i].pgdir;
      assert procs[i].Valid();
      LayoutDir(s, o, d, procs[i].sz, procs[i].stackSize);
      var ok := procs[i].Exec(segs, pushed);
      SameMemory(s, vm.St(), o, d);
      forall j | 0 <= j < |procs| && j != i ensures procs[j].Valid() && procs[j].pgdir in o {
        LayoutDir(s, o, procs[j].pgdir, procs[j].sz, procs[j].stackSize);
        if ok { OldDirKept(o, vm.owner, d, procs[i].pgdir, procs[j].pgdir); }
        OtherLayout(s, vm.St(), o, vm.owner, d, procs[j].pgdir, procs[j].sz, procs[j].stackSize);
      }
      if !ok { KeptLayout(s, vm.St(), o, vm.owner, d, procs[i].sz, procs[i].stackSize); }
      y := Snap(vm.St(), x.views[i := View(procs[i].pgdir, procs[i].sz, procs[i].stackSize)]);
    }

    /** wait() frees the address space of a process that has exited. */
    method StepReap(i: nat, ghost x: Snap) returns (ghost y: Snap)
      requires Valid() && Shows(x, vm, procs) && Occurs(x, Reap(i))
      modifies this`procs, vm
      ensures Valid() && Pool(vm.St(), vm.owner) == old(Pool(vm.St(), vm.owner))
      ensures procs == old(procs[..i] + procs[i + 1..])
      ensures Shows(y, vm, procs) && Next(x, Reap(i), y)
    {
      hide Layout, Own, Others, WithoutDir, Pool;
      ghost var s, o, d := vm.St(), vm.owner, procs[i].pgdir;
      assert procs[i].Valid();
      LayoutDir(s, o, d, procs[i].sz, procs[i].stackSize);
      vm.Freevm(procs[i].pgdir);
      SameMemory(s, vm.St(), o, d);
      forall j | 0 <= j < |procs| && j != i ensures procs[j].Valid() {
        LayoutDir(s, o, procs[j].pgdir, procs[j].sz, procs[j].stackSize);
        DroppedDir(o, d, procs[j].pgdir);
        OtherLayout(s, vm.St(), o, vm.owner, d, procs[j].pgdir, procs[j].sz, procs[j].stackSize);
      }
      procs := procs[..i] + procs[i + 1..];
      y := Snap(vm.St(), x.views[..i] + x.views[i + 1..]);
    }

    /** Any step: when it halts the machine, what it does otherwise, and that all processes
        are laid out as they should be if and only if the step was disciplined. */
    method Step(op: Op, ghost x: Snap) returns (halted: bool, ghost y: Snap)
      requires Valid() && Shows(x, vm, procs) && Occurs(x, op)
      modifies this`procs, vm, procs
      ensures halted <==> Halts(x, op)
      ensures !halted ==> Shows(y, vm, procs) && Next(x, op, y) && (Valid() <==> Disciplined(x, op))
      ensures !halted ==> Pool(vm.St(), vm.owner) <= old(Pool(vm.St(), vm.owner))
      ensures !halted ==> (Pool(vm.St(), vm.owner) == old(Pool(vm.St(), vm.owner)) <==> !Loses(x, op))
      ensures forall p :: p in procs ==> p in old(procs) || fresh(p)
    {
      hide Pool, Next, Shows, Together, Occurs;
      halted := false;
      match op
      case Grow(i, n) => y := StepGrow(i, n, x);
      case Touch(i, addr) => halted, y := StepTouch(i, addr, x);
      case Fork(i) => y := StepFork(i, x);
      case Exec(i, segs, pushed) => y := StepExec(i, segs, pushed, x);
      case Reap(i) => y := StepReap(i, x);
    }

    /** Every run: the steps are taken one after the other, up to the first that cannot
        occur, is not disciplined, or would halt the machine. All processes stay laid out as
        they should be, and frames are lost in fork() only. `trace` shows the machine before
        the first step and after each. */
    method Run(ops: seq<Op>, ghost x: Snap) returns (k: nat, ghost trace: seq<Snap>)
      requires Valid() && Shows(x, vm, procs)
      modifies this`procs, vm, procs
      ensures Valid() && k <= |ops| && |trace| == k + 1 && trace[0] == x && Shows(trace[k], vm, procs)
      ensures forall j :: 0 <= j < k ==> Occurs(trace[j], ops[j]) && Next(trace[j], ops[j], trace[j + 1])
      ensures k < |ops| ==> Stuck(trace[k], ops[k])
      ensures Pool(vm.St(), vm.owner) <= old(Pool(vm.St(), vm.owner))
      ensures Pool(vm.St(), vm.owner) == old(Pool(vm.St(), vm.owner)) <==>
                forall j :: 0 <= j < k ==> !Loses(trace[j], ops[j])
    {
      hide Together, Pool, Next, Shows, Occurs, Disciplined, Halts, Loses;
      k, trace := 0, [x];
      while k < |ops|
        invariant 0 <= k <= |ops| && Valid() && Pool(vm.St(), vm.owner) <= old(Pool(vm.St(), vm.owner))
        invariant |trace| == k + 1 && trace[0] == x && Shows(trace[k], vm, procs)
        invariant forall j :: 0 <= j < k ==> Occurs(trace[j], ops[j]) && Next(trace[j], ops[j], trace[j + 1])
        invariant Pool(vm.St(), vm.owner) == old(Pool(vm.St(), vm.owner)) <==>
                    forall j :: 0 <= j < k ==> !Loses(trace[j], ops[j])
        invariant forall p :: p in procs ==> p in old(procs) || fresh(p)
      {
        var now := Look();
        ShowsOnce(now, trace[k], vm, procs);
        if Stuck(now, ops[k]) { return; }
        forall j | 0 <= j < |procs| ensures procs[j] in old(procs) || fresh(procs[j]) { assert procs[j] in procs; }
        ghost var y;
        var halted;
        halted, y := Step(ops[k], trace[k]);
        trace, k := trace + [y], k + 1;
      }
    }
  }
}
