/** Runs from boot that end badly: a process loses its layout in three ways, and fork() loses
a frame. */
module LayoutFailures {

  import opened Basics
  import opened PageTables
  import opened AddressSpace
  import opened Machine

  const END := 1024      // the kernel ends at 4 MB
  const DATA := 512

  /** What Machine.System's constructor leaves. */
  ghost predicate Booted(x: Snap) {
    && |x.views| == 1 && x.views[0].sz == PGSIZE && x.views[0].stackSize == 0
    && |x.s.free| == PHYSPAGES - END - 2 * KERNEL_FRAMES - 2 && HeapTables(x.s.mem, x.views[0].pgdir, 1)
  }

  /** Each page takes its frame and at most one table. */
  lemma FewPages(m: Memory, d: nat, lo: nat, hi: nat)
    requires lo <= hi
    ensures Need(m, d, lo, hi) <= 2 * (hi - lo)
  {
    TablesMono(m, d, lo, lo, hi);
  }

  lemma SmallSizes()
    ensures Pages(0) == 0 && Pages(PGSIZE) == 1 && Pages(KERNBASE - 1) == USERPAGES
  {
  }

  /** The first process touches memory two pages below the top: two pages are mapped, and
      one is counted. */
  method DeepFault() returns (sys: System, ghost trace: seq<Snap>)
    ensures |trace| == 2 && Booted(trace[0]) && Shows(trace[1], sys.vm, sys.procs)
    ensures IsRun(trace, [Touch(0, (USERPAGES - 2) * PGSIZE)])
    ensures |sys.procs| == 1 && !sys.procs[0].Valid()
    ensures var p := sys.procs[0];
            p.sz == PGSIZE && p.stackSize == 1 && MappedOutside(p.vm.St(), p.pgdir, 1, USERPAGES - 2)
  {
    hide Layout, Own, MappedOutside, Pages, Need, Pool, HeapTables, Tables;
    sys := new System(END, DATA, Zeros(NENTRIES));
    var p := sys.procs[0];
    assert p.Valid() && p.vm == sys.vm;
    SmallSizes();
    FewPages(p.vm.mem, p.pgdir, USERPAGES - 2, USERPAGES);
    trace := [Snap(sys.vm.St(), [View(p.pgdir, p.sz, p.stackSize)])];
    var panicked := p.Fault((USERPAGES - 2) * PGSIZE);
    trace := trace + [Snap(sys.vm.St(), [View(p.pgdir, p.sz, p.stackSize)])];
  }

  /** The first process gets a stack page and asks for all the memory below KERNBASE: the
      call fails, and the stack page is gone. */
  method GrowthTakesStack() returns (sys: System, ghost trace: seq<Snap>)
    ensures |trace| == 3 && Booted(trace[0]) && Shows(trace[2], sys.vm, sys.procs)
    ensures IsRun(trace, [Touch(0, (USERPAGES - 1) * PGSIZE), Grow(0, KERNBASE - 1 - PGSIZE)])
    ensures |sys.procs| == 1 && !sys.procs[0].Valid() && !Succeeds(trace[1], Grow(0, KERNBASE - 1 - PGSIZE))
    ensures var p := sys.procs[0];
            p.sz == PGSIZE && p.stackSize == 1 && MappedOutside(p.vm.St(), p.pgdir, 1, USERPAGES)
  {
    hide Layout, Own, MappedOutside, Pages, Need, Pool, HeapTables, Tables;
    sys := new System(END, DATA, Zeros(NENTRIES));
    var p := sys.procs[0];
    assert p.Valid() && p.vm == sys.vm;
    SmallSizes();
    FewPages(p.vm.mem, p.pgdir, USERPAGES - 1, USERPAGES);
    trace := [Snap(sys.vm.St(), [View(p.pgdir, p.sz, p.stackSize)])];
    var panicked := p.Fault((USERPAGES - 1) * PGSIZE);
    trace := trace + [Snap(sys.vm.St(), [View(p.pgdir, p.sz, p.stackSize)])];
    var ok := p.Growproc(KERNBASE - 1 - PGSIZE);
    trace := trace + [Snap(sys.vm.St(), [View(p.pgdir, p.sz, p.stackSize)])];
  }

  /** The first process gives up its one page: the call fails, and the page is gone but
      still counted. */
  method ShrinkToNothing() returns (sys: System, ghost trace: seq<Snap>)
    ensures |trace| == 2 && Booted(trace[0]) && Shows(trace[1], sys.vm, sys.procs) && IsRun(trace, [Grow(0, -PGSIZE)])
    ensures |sys.procs| == 1 && !sys.procs[0].Valid() && !Succeeds(trace[0], Grow(0, -PGSIZE))
    ensures var p := sys.procs[0]; p.sz == PGSIZE && Layout(p.vm.St(), p.vm.owner, p.pgdir, 0, 0)
  {
    hide Layout, Own, Pages, Need, Pool, HeapTables;
    sys := new System(END, DATA, Zeros(NENTRIES));
    var p := sys.procs[0];
    assert p.Valid() && p.vm == sys.vm;
    trace := [Snap(sys.vm.St(), [View(p.pgdir, p.sz, p.stackSize)])];
    var ok := p.Growproc(-PGSIZE);
    trace := trace + [Snap(sys.vm.St(), [View(p.pgdir, p.sz, p.stackSize)])];
  }

  const HEAP := 56069    // pages of a heap that leaves KERNEL_FRAMES + 1 frames

  lemma AlmostAll(m: Memory, d: nat)
    requires HeapTables(m, d, 1)
    ensures Pages(PGSIZE) == 1 && Pages(HEAP * PGSIZE) == HEAP
    ensures Need(m, d, 1, HEAP) == PHYSPAGES - END - 2 * KERNEL_FRAMES - 2 - (KERNEL_FRAMES + 1)
  {
    HeapTablesMore(m, m, d, 1, HEAP);
    hide HeapTables, Need;
  }

  lemma LosesAtOnce(n: nat, pages: nat)
    requires 0 < n <= pages
    ensures CopyLoses(1, n, pages)
  {
    assert CopyOpens(n, 0) && CopyNeed(n, 0) == 0;
  }

  /** The first process grows until 66 frames are left and forks: copyuvm() has the kernel's
      part and a frame for the first page, finds no frame for its table, and fails without
      giving the page's frame back. */
  method ForkLosesFrame() returns (sys: System, ghost before: set<int>, ghost lost: set<int>, ghost trace: seq<Snap>)
    ensures |trace| == 3 && Booted(trace[0]) && Shows(trace[2], sys.vm, sys.procs)
    ensures IsRun(trace, [Grow(0, (HEAP - 1) * PGSIZE), Fork(0)]) && Loses(trace[1], Fork(0))
    ensures !Succeeds(trace[1], Fork(0))
    ensures |sys.procs| == 1 && sys.procs[0].Valid()
    ensures lost != {} && lost <= before && Pool(sys.vm.St(), sys.vm.owner) == before - lost
    ensures forall p :: p in before <==> END <= p < PHYSPAGES
  {
    hide Layout, Own, Pages, Need, Pool, HeapTables, CopyLoses, CopyNeed, KeptPages, FreshPages, Others;
    sys := new System(END, DATA, Zeros(NENTRIES));
    var p := sys.procs[0];
    assert p.Valid() && p.vm == sys.vm;
    before := Pool(sys.vm.St(), sys.vm.owner);
    AlmostAll(p.vm.mem, p.pgdir);
    trace := [Snap(sys.vm.St(), [View(p.pgdir, p.sz, p.stackSize)])];
    var ok := p.Growproc((HEAP - 1) * PGSIZE);
    trace := trace + [Snap(sys.vm.St(), [View(p.pgdir, p.sz, p.stackSize)])];
    LosesAtOnce(HEAP, HEAP);
    CopyNeedMono(HEAP, 0, HEAP);
    var child;
    child, lost := p.Fork();
    trace := trace + [Snap(sys.vm.St(), [View(p.pgdir, p.sz, p.stackSize)])];
  }
}
