/** The layout of a process in memory: the heap from 0 and the stack down from KERNBASE, as
exec() sets it up and growproc(), the page-fault handler and fork() change it. */
module AddressSpace {

  import opened Basics
  import opened PageTables

  /** The mapped user pages are those of `sz` bytes from 0 on, and the top `ss` pages. */
  ghost predicate Layout(s: State, owner: Owner, d: nat, sz: nat, ss: nat) {
    && IsDirectory(owner, d) && sz <= KERNBASE && Pages(sz) + ss <= USERPAGES
    && forall v :: 0 <= v < USERPAGES ==> (Present(Entry(s.mem, d, v)) <==> v < Pages(sz) || v >= USERPAGES - ss)
  }

  /** An ELF program header, and whether loaduvm() can read the segment. */
  datatype Segment = Segment(vaddr: nat, memsz: nat, filesz: nat, loads: bool)

  const WORD := 0x1_0000_0000

  /** Pages `lo` to `hi` - 1 of `d` are mapped as before and hold the same. */
  ghost predicate KeptPages(s: State, s': State, d: nat, lo: nat, hi: nat) {
    forall v :: lo <= v < hi ==> Kept(s, s', d, v)
  }

  ghost predicate Kept(s: State, s': State, d: nat, v: nat) {
    var w := Entry(s.mem, d, v);
    Entry(s'.mem, d, v) == w && 0 <= Frame(w) < |s.mem| == |s'.mem| && s'.mem[Frame(w)] == s.mem[Frame(w)]
  }

  /** The mapped user pages of `d` are those below `lo` and those from `hi` on. */
  ghost predicate MappedOutside(s: State, d: nat, lo: nat, hi: nat) {
    forall v :: 0 <= v < USERPAGES ==> (Present(Entry(s.mem, d, v)) <==> v < lo || v >= hi)
  }

  /** Every frame that was not `d`'s has the role it had, and no other frame got one. */
  ghost predicate SameRoles(o: Owner, p: Owner, d: nat) {
    WithoutDir(p, d) == WithoutDir(o, d)
  }

  // ------------------------------------------------------------ what a change keeps

  lemma ChangedOthers(s: State, s': State, o: Owner, p: Owner, d: nat, lo: nat, hi: nat)
    requires Changed(s, s', o, p, d, lo, hi)
    ensures Others(s, s', o, d) && SameRoles(o, p, d)
  {
    hide Entry;
  }

  lemma SameOthers(s: State, o: Owner, d: nat)
    ensures Others(s, s, o, d) && SameRoles(o, o, d)
  {
  }

  lemma RolesOfOthers(o: Owner, p: Owner, d: nat, e: nat)
    requires SameRoles(o, p, d) && e != d && IsDirectory(o, e)
    ensures IsDirectory(p, e)
  {
    assert e in WithoutDir(o, d);
  }

  /** A step on another directory keeps a layout. */
  lemma OthersKeepLayout(s: State, s': State, owner: Owner, owner': Owner, d: nat, e: nat, sz: nat, ss: nat)
    requires Layout(s, owner, e, sz, ss) && Others(s, s', owner, d) && SameRoles(owner, owner', d) && e != d
    ensures Layout(s', owner', e, sz, ss)
  {
    hide Entry, WithoutDir;
    RolesOfOthers(owner, owner', d, e);
    forall v | 0 <= v < USERPAGES ensures Entry(s'.mem, e, v) == Entry(s.mem, e, v) {}
  }

  /** The pages of a process outside a range that changes are kept. */
  lemma PagesKept(s: State, s': State, owner: Owner, d: nat, lo: nat, hi: nat, sz: nat, ss: nat)
    requires Own(s, owner) && Layout(s, owner, d, sz, ss) && OnlyEntries(s, s', owner, d, lo, hi)
    requires |s'.mem| == |s.mem|
    requires forall p :: p in owner && owner[p].UserOf? && 0 <= p < |s.mem| ==>
               (owner[p].dir == d && lo <= owner[p].v < hi) || s'.mem[p] == s.mem[p]
    ensures KeptPages(s, s', d, 0, if lo < Pages(sz) then lo else Pages(sz))
    ensures KeptPages(s, s', d, if hi < USERPAGES - ss then USERPAGES - ss else hi, USERPAGES)
  {
    hide Entry, Pages;
    forall v | 0 <= v < USERPAGES && (v < lo || v >= hi) && (v < Pages(sz) || v >= USERPAGES - ss)
      ensures Kept(s, s', d, v)
    {
      assert Present(Entry(s.mem, d, v));
      assert UserOk(s, owner, d, v);
      assert RoleOk(s, owner, Frame(Entry(s.mem, d, v)));
      assert Entry(s'.mem, d, v) == Entry(s.mem, d, v);
    }
  }

  lemma SamePages(s: State, owner: Owner, d: nat, sz: nat, ss: nat)
    requires Own(s, owner) && Layout(s, owner, d, sz, ss)
    ensures KeptPages(s, s, d, 0, Pages(sz)) && KeptPages(s, s, d, USERPAGES - ss, USERPAGES)
  {
    SteadySame(s, owner, d, Pages(sz));
    PagesKept(s, s, owner, d, Pages(sz), Pages(sz), sz, ss);
  }

  lemma ChangedPages(s: State, s': State, o: Owner, p: Owner, d: nat, lo: nat, hi: nat, sz: nat, ss: nat)
    requires Own(s, o) && Layout(s, o, d, sz, ss) && Changed(s, s', o, p, d, lo, hi) && Pages(sz) <= lo
    ensures KeptPages(s, s', d, 0, Pages(sz))
    ensures KeptPages(s, s', d, if hi < USERPAGES - ss then USERPAGES - ss else hi, USERPAGES)
  {
    hide Own, Layout, OnlyEntries, Pages, KeptPages;
    PagesKept(s, s', o, d, lo, hi, sz, ss);
  }

  // ------------------------------------------------------------ growing and shrinking

  /** Where growth from the heap meets the stack. */
  lemma GrowthRange(s: State, owner: Owner, d: nat, sz: nat, ss: nat, lo: nat, hi: nat)
    requires Layout(s, owner, d, sz, ss) && Pages(sz) <= lo <= hi <= USERPAGES && lo <= USERPAGES - ss
    ensures hi <= USERPAGES - ss ==> Unmapped(s, d, lo, hi) && forall u :: !FirstMapped(s, d, lo, hi, u)
    ensures hi > USERPAGES - ss ==>
              !Unmapped(s, d, lo, hi) && forall u :: FirstMapped(s, d, lo, hi, u) <==> u == USERPAGES - ss
  {
    hide Entry, Pages;
    if hi > USERPAGES - ss {
      assert Present(Entry(s.mem, d, USERPAGES - ss));
    }
  }

  /** The mapped pages after a growth that succeeded or failed. */
  lemma GrowthLayout(s: State, s': State, owner: Owner, owner': Owner, d: nat, sz: nat, ss: nat, lo: nat, hi: nat,
                     grown: bool)
    requires Layout(s, owner, d, sz, ss) && Pages(sz) <= lo <= hi <= USERPAGES
    requires Changed(s, s', owner, owner', d, lo, hi)
    requires lo <= USERPAGES - ss
    requires if grown then FreshPages(s', d, lo, hi) && hi <= USERPAGES - ss else Unmapped(s', d, lo, hi)
    ensures !grown ==> MappedOutside(s', d, Pages(sz), if hi < USERPAGES - ss then USERPAGES - ss else hi)
    ensures grown && lo == Pages(sz) ==> MappedOutside(s', d, hi, USERPAGES - ss)
    ensures grown && hi == USERPAGES - ss ==> MappedOutside(s', d, Pages(sz), lo)
  {
    hide Entry, Pages, Zeros;
    forall v | 0 <= v < USERPAGES ensures Present(Entry(s'.mem, d, v)) <==>
        (if lo <= v < hi then grown else v < Pages(sz) || v >= USERPAGES - ss)
    {
      if lo <= v < hi {
        if grown { assert Fresh(s', d, v); }
      } else {
        assert Entry(s'.mem, d, v) == Entry(s.mem, d, v);
      }
    }
  }

  /** With the heap and the stack mapped, a layout; with a page of the stack missing, none. */
  lemma GrowthIff(s: State, owner: Owner, d: nat, sz: nat, ss: nat, hi: nat)
    requires MappedOutside(s, d, Pages(sz), hi) && IsDirectory(owner, d) && sz <= KERNBASE && hi <= USERPAGES
    requires Pages(sz) <= USERPAGES - ss <= hi
    ensures Layout(s, owner, d, sz, ss) <==> hi == USERPAGES - ss
  {
    hide Entry, Pages;
    if hi > USERPAGES - ss {
      assert !Present(Entry(s.mem, d, USERPAGES - ss));
    }
  }

  /** After a fault at `page` the layout is kept exactly when that was the page just below
      the stack. */
  lemma FaultIff(s: State, owner: Owner, d: nat, sz: nat, ss: nat, page: nat)
    requires MappedOutside(s, d, Pages(sz), page) && IsDirectory(owner, d) && sz <= KERNBASE
    requires Pages(sz) <= page < USERPAGES - ss
    ensures Layout(s, owner, d, sz, ss + 1) <==> page == USERPAGES - ss - 1
  {
    hide Entry, Pages;
    assert Present(Entry(s.mem, d, page));
  }

  lemma ShrunkLayout(s: State, s': State, owner: Owner, d: nat, sz: nat, newsz: nat, ss: nat)
    requires Own(s, owner) && Layout(s, owner, d, sz, ss) && newsz < sz
    requires Released(s, s', owner, d, Pages(newsz), Pages(sz))
    ensures var owner' := Minus(owner, d, Pages(newsz), Pages(sz));
            && Layout(s', owner', d, newsz, ss) && Own(s', owner') && Pool(s', owner') == Pool(s, owner)
            && Others(s, s', owner, d) && SameRoles(owner, owner', d)
            && KeptPages(s, s', d, 0, Pages(newsz)) && KeptPages(s, s', d, USERPAGES - ss, USERPAGES)
  {
    PagesMono(newsz, sz);
    PagesKept(s, s', owner, d, Pages(newsz), Pages(sz), sz, ss);
    hide Entry, Pages, Own;
    forall v | 0 <= v < USERPAGES ensures Present(Entry(s'.mem, d, v)) <==> v < Pages(newsz) || v >= USERPAGES - ss {
      if !(Pages(newsz) <= v < Pages(sz)) { assert Entry(s'.mem, d, v) == Entry(s.mem, d, v); }
    }
  }

  /** A heap that is gone does not have its old size. */
  lemma DrainedLayout(s: State, owner: Owner, d: nat, sz: nat, ss: nat)
    requires Layout(s, owner, d, 0, ss) && sz > 0 && Pages(sz) + ss <= USERPAGES
    ensures !Layout(s, owner, d, sz, ss)
  {
    assert Pages(0) == 0 && 0 < Pages(sz);
    assert !Present(Entry(s.mem, d, 0));
  }

  lemma GrowableIff(s: State, d: nat, lo: nat, hi: nat)
    ensures Growable(s, d, lo, hi) <==> Unmapped(s, d, lo, hi) && |s.free| >= Need(s.mem, d, lo, hi)
  {
  }

  lemma ChangedMemory(s: State, s': State, o: Owner, p: Owner, d: nat, lo: nat, hi: nat)
    requires Changed(s, s', o, p, d, lo, hi)
    ensures |s'.mem| == |s.mem|
  {
  }

  lemma SameMemory(s: State, s': State, o: Owner, d: nat)
    requires Others(s, s', o, d)
    ensures |s'.mem| == |s.mem|
  {
  }

  lemma LayoutDir(s: State, owner: Owner, d: nat, sz: nat, ss: nat)
    requires Layout(s, owner, d, sz, ss)
    ensures IsDirectory(owner, d) && sz <= KERNBASE && Pages(sz) + ss <= USERPAGES
  {
  }

  lemma LayoutOf(s: State, owner: Owner, d: nat, sz: nat, ss: nat)
    requires IsDirectory(owner, d) && sz <= KERNBASE && Pages(sz) + ss <= USERPAGES
    requires MappedOutside(s, d, Pages(sz), USERPAGES - ss)
    ensures Layout(s, owner, d, sz, ss)
  {
  }

  lemma ChangedDir(s: State, s': State, o: Owner, p: Owner, d: nat, lo: nat, hi: nat)
    requires Changed(s, s', o, p, d, lo, hi)
    ensures IsDirectory(p, d)
  {
  }

  /** The stack's lower end in 32-bit arithmetic. */
  lemma StackAddr(page: nat, ss: nat)
    requires ss <= USERPAGES && page < NPAGES
    ensures Pages(page * PGSIZE) == page
    ensures var a := (STACK_TOP - ss * PGSIZE) % WORD;
            && (page * PGSIZE <= a <==> ss == USERPAGES || page < USERPAGES - ss)
            && (if ss == USERPAGES then a >= KERNBASE else 0 < a < KERNBASE && Pages(a) == USERPAGES - ss)
  {
    if ss < USERPAGES { assert 0 < STACK_TOP - ss * PGSIZE < WORD; } else { assert STACK_TOP - ss * PGSIZE == -4; }
  }

  /** There are never frames enough to map every page between heap and stack. */
  lemma NeverFull(s: State, owner: Owner, d: nat, sz: nat, ss: nat)
    requires Own(s, owner) && Layout(s, owner, d, sz, ss) && |s.mem| <= PHYSPAGES
    ensures |s.free| + PHYSPAGES < Need(s.mem, d, Pages(sz), USERPAGES - ss)
    ensures Pages(sz) + ss + |s.free| < PHYSPAGES
  {
    hide Entry, Pages, Own;
    FramesFit(s, owner, d, Pages(sz), USERPAGES - ss);
  }

  // ------------------------------------------------------------ fork

  lemma CopyLayout(s: State, s': State, owner: Owner, owner': Owner, d: nat, c: nat, sz: nat, ss: nat)
    requires Layout(s, owner, d, sz, ss) && KeptAll(s, s', owner) && Extends(owner, owner', c) && IsDirectory(owner', c)
    requires CopiedPages(s, s', d, c, 0, Pages(sz)) && Unmapped(s', c, Pages(sz), USERPAGES - ss)
    requires CopiedPages(s, s', d, c, USERPAGES - ss, USERPAGES)
    ensures Layout(s', owner', c, sz, ss) && Layout(s', owner', d, sz, ss)
  {
    hide Entry, Pages;
    forall v | 0 <= v < USERPAGES ensures Present(Entry(s'.mem, c, v)) <==> v < Pages(sz) || v >= USERPAGES - ss {
      if v < Pages(sz) || v >= USERPAGES - ss { assert Copied(s, s', d, c, v); }
    }
    forall v | 0 <= v < USERPAGES ensures Entry(s'.mem, d, v) == Entry(s.mem, d, v) {}
  }

  lemma KeptLayout(s: State, s': State, owner: Owner, owner': Owner, d: nat, sz: nat, ss: nat)
    requires Layout(s, owner, d, sz, ss) && KeptAll(s, s', owner) && IsDirectory(owner', d)
    ensures Layout(s', owner', d, sz, ss)
  {
    hide Entry;
    forall v | 0 <= v < USERPAGES ensures Entry(s'.mem, d, v) == Entry(s.mem, d, v) {}
  }

  /** Without the new directory the roles are the old ones. */
  lemma NewDirRoles(s: State, o: Owner, q: Owner, d: nat)
    requires Own(s, o) && Extends(o, q, d) && d !in o
    ensures WithoutDir(q, d) == o
  {
    hide Entry, Table;
    forall p | p in o ensures p in q && p in WithoutDir(q, d) { assert RoleOk(s, o, p); }
  }

  // ------------------------------------------------------------ exec

  /** A program header that exec() accepts. */
  predicate Loadable(ph: Segment) {
    && ph.memsz >= ph.filesz && ph.vaddr + ph.memsz < KERNBASE && ph.vaddr % PGSIZE == 0 && ph.loads
  }

  predicate InWords(segs: seq<Segment>) {
    forall i :: 0 <= i < |segs| ==> segs[i].vaddr < WORD && segs[i].memsz < WORD
  }

  function ImageEnd(segs: seq<Segment>): nat {
    if segs == [] then 0
    else
      var before, end := ImageEnd(segs[..|segs| - 1]), segs[|segs| - 1].vaddr + segs[|segs| - 1].memsz;
      if end < before then before else end
  }

  /** The headers of a program that exec() loads, given memory. An empty segment at 0 in front
      makes allocuvm() return 0. */
  predicate Accepted(segs: seq<Segment>) {
    && (forall i :: 0 <= i < |segs| ==> Loadable(segs[i]))
    && (segs != [] ==> segs[0].vaddr + segs[0].memsz > 0)
  }

  /** The frames for `n` pages from 0 on and their tables. */
  function ImageNeed(n: nat): nat {
    n + (n + NENTRIES - 1) / NENTRIES
  }

  /** The user part of `d` has the tables for `n` pages from 0 on, and no more. */
  ghost predicate HeapTables(m: Memory, d: nat, n: nat) {
    forall i: nat :: i < USERTABLES ==> (Table(m, d, i) != 0 <==> i * NENTRIES < n)
  }

  lemma HeapTablesMore(m: Memory, u: Memory, d: nat, lo: nat, hi: nat)
    requires HeapTables(m, d, lo) && lo <= hi <= USERPAGES
    ensures Need(m, d, lo, hi) == ImageNeed(hi) - ImageNeed(lo)
    ensures TablesMade(m, u, d, lo, hi) ==> HeapTables(u, d, hi)
  {
    hide Table;
    if lo < hi { TablesCounted(m, d, lo, hi, (lo + NENTRIES - 1) / NENTRIES); }
  }

  lemma NoHeapTables(m: Memory, d: nat, data: nat)
    requires KernelTablesOnly(m, d, data, 4)
    ensures HeapTables(m, d, 0)
  {
    hide Table;
  }

  lemma ImageNeedMono(a: nat, b: nat)
    requires a <= b
    ensures Pages(a) <= Pages(b) && ImageNeed(Pages(a)) <= ImageNeed(Pages(b))
  {
    PagesMono(a, b);
    hide Pages;
  }

  lemma {:induction false} ImageEndMono(segs: seq<Segment>, i: nat)
    requires i <= |segs|
    ensures ImageEnd(segs[..i]) <= ImageEnd(segs)
    decreases |segs|
  {
    if i < |segs| {
      assert segs[..|segs| - 1][..i] == segs[..i];
      ImageEndMono(segs[..|segs| - 1], i);
    } else {
      assert segs[..i] == segs;
    }
  }

  lemma ImageNeedStart()
    ensures Pages(0) == 0 && ImageNeed(0) == 0
  {
  }

  /** The stack page of a new image, and its table. */
  lemma StackNeed(m: Memory, d: nat, n: nat)
    requires HeapTables(m, d, n) && n < PHYSPAGES
    ensures Need(m, d, USERPAGES - 1, USERPAGES) == 2
  {
    hide Table;
    var v := USERPAGES - 1;
    assert Table(m, d, v / NENTRIES) == 0;
    TablesOne(m, d, v);
  }

  /** exec() has built `size` bytes of a new image in `d`; `s` and `o` were before it. */
  ghost predicate Building(s: State, t: State, o: Owner, p: Owner, d: nat, size: nat) {
    && Own(s, o) && Own(t, p) && d !in o && KeptAll(s, t, o) && Extends(o, p, d) && Layout(t, p, d, size, 0)
  }

  lemma BuildingFacts(s: State, t: State, o: Owner, p: Owner, d: nat, size: nat)
    requires Building(s, t, o, p, d, size)
    ensures Own(s, o) && Own(t, p) && d !in o && KeptAll(s, t, o) && Extends(o, p, d) && IsDirectory(p, d)
    ensures Layout(t, p, d, size, 0) && size <= KERNBASE
  {
  }

  lemma BuildingStart(s: State, t: State, o: Owner, p: Owner, d: nat, data: nat)
    requires Own(s, o) && Own(t, p) && d !in o && KeptAll(s, t, o) && Extends(o, p, d) && IsDirectory(p, d)
    requires forall v :: 0 <= v < NPAGES ==> Entry(t.mem, d, v) == KernelEntry(data, 4, v)
    ensures Building(s, t, o, p, d, 0)
  {
    PagesOfSpace();
    NothingCopied(t, d, data);
    hide Entry, Own, KernelEntry;
  }

  /** A change confined to the new directory keeps everything that was there before. */
  lemma BuildingKept(s: State, t: State, u: State, o: Owner, p: Owner, q: Owner, d: nat, lo: nat, hi: nat)
    requires Own(s, o) && KeptAll(s, t, o) && Extends(o, p, d) && d !in o && IsDirectory(p, d)
    requires Changed(t, u, p, q, d, lo, hi)
    ensures KeptAll(s, u, o) && Extends(o, q, d) && IsDirectory(q, d)
  {
    hide Entry, Table;
    forall x | x in o ensures x in p && p[x] == o[x] && x in Minus(p, d, lo, hi) { assert RoleOk(s, o, x); }
    hide Own;
    forall e: nat, x: nat | IsDirectory(o, e) && x < NPAGES ensures Entry(u.mem, e, x) == Entry(s.mem, e, x) {
      assert IsDirectory(p, e);
      assert Entry(t.mem, e, x) == Entry(s.mem, e, x);
    }
  }

  /** allocuvm() of the next segment: above the image nothing is mapped. */
  lemma BuildingRange(s: State, t: State, o: Owner, p: Owner, d: nat, size: nat, end: nat)
    requires Building(s, t, o, p, d, size)
    ensures size <= end < KERNBASE ==>
              Unmapped(t, d, Pages(size), Pages(end)) && forall u :: !FirstMapped(t, d, Pages(size), Pages(end), u)
  {
    hide Own, KeptAll, Extends;
    if size <= end < KERNBASE {
      PagesMono(size, end);
      GrowthRange(t, p, d, size, 0, Pages(size), Pages(end));
    }
  }

  lemma BuildingOn(s: State, t: State, u: State, o: Owner, p: Owner, q: Owner, d: nat, size: nat, end: nat, grown: bool)
    requires Building(s, t, o, p, d, size) && Own(u, q) && size <= end < KERNBASE
    requires Changed(t, u, p, q, d, Pages(size), Pages(end))
    requires if grown then FreshPages(u, d, Pages(size), Pages(end)) else Unmapped(u, d, Pages(size), Pages(end))
    ensures Building(s, u, o, q, d, if grown then end else size)
  {
    hide Own, KeptAll, Extends, Changed, FreshPages, Unmapped, Entry, Pages, MappedOutside;
    BuildingKept(s, t, u, o, p, q, d, Pages(size), Pages(end));
    PagesMono(size, end);
    GrowthLayout(t, u, p, q, d, size, 0, Pages(size), Pages(end), grown);
    LayoutOf(u, q, d, if grown then end else size, 0);
  }

  /** The pages that exec() allocates the stack in. */
  lemma StackRange(s: State, t: State, o: Owner, p: Owner, d: nat, size: nat, lo: nat, hi: nat)
    requires Building(s, t, o, p, d, size) && lo == USERPAGES - 1 && hi == USERPAGES
    ensures Pages(STACK_TOP - PGSIZE) == USERPAGES - 1 && Pages(STACK_TOP) == USERPAGES
    ensures Pages(Pages(size) * PGSIZE) == Pages(size)
    ensures size <= KERNBASE - PGSIZE <==> Pages(size) < USERPAGES
    ensures size <= KERNBASE - PGSIZE ==>
              Unmapped(t, d, lo, hi) && forall u :: !FirstMapped(t, d, lo, hi, u)
    ensures size > KERNBASE - PGSIZE ==>
              !Unmapped(t, d, lo, hi) && forall u :: FirstMapped(t, d, lo, hi, u) <==> u == lo
  {
    hide Own, KeptAll, Extends, Entry;
    PagesMono(size, KERNBASE);
    if size > KERNBASE - PGSIZE {
      assert Present(Entry(t.mem, d, USERPAGES - 1));
    }
  }

  lemma StackOn(s: State, t: State, u: State, o: Owner, p: Owner, q: Owner, d: nat, size: nat, grown: bool)
    requires Building(s, t, o, p, d, size) && Own(u, q) && Changed(t, u, p, q, d, USERPAGES - 1, USERPAGES)
    requires grown ==> FreshPages(u, d, USERPAGES - 1, USERPAGES) && size <= KERNBASE - PGSIZE
    ensures Own(s, o) && d !in o && KeptAll(s, u, o) && Extends(o, q, d) && IsDirectory(q, d)
    ensures grown ==> Layout(u, q, d, Pages(size) * PGSIZE, 1)
  {
    StackRange(s, t, o, p, d, size, USERPAGES - 1, USERPAGES);
    hide Own, KeptAll, Extends, Changed, FreshPages, Unmapped, FirstMapped, Entry, Pages, MappedOutside;
    BuildingKept(s, t, u, o, p, q, d, USERPAGES - 1, USERPAGES);
    if grown {
      assert Layout(t, p, d, Pages(size) * PGSIZE, 0);
      GrowthLayout(t, u, p, q, d, Pages(size) * PGSIZE, 0, USERPAGES - 1, USERPAGES, true);
      LayoutOf(u, q, d, Pages(size) * PGSIZE, 1);
    }
  }

  lemma KeptMemory(s: State, t: State, o: Owner)
    requires KeptAll(s, t, o)
    ensures |t.mem| == |s.mem|
  {
  }

  lemma KeptOthers(s: State, t: State, o: Owner, d: nat)
    requires KeptAll(s, t, o)
    ensures Others(s, t, o, d)
  {
  }

  lemma StillDirectory(o: Owner, q: Owner, d: nat, e: nat)
    requires Extends(o, q, d) && IsDirectory(o, e)
    ensures IsDirectory(q, e)
  {
  }

  /** The old address space is gone, the new one is as it was built. */
  lemma Committed(s: State, u: State, t: State, o: Owner, q: Owner, old': nat, d: nat, size: nat)
    requires Own(s, o) && KeptAll(s, u, o) && Extends(o, q, d) && d !in o && IsDirectory(o, old')
    requires Layout(u, q, d, size, 1)
    requires Others(u, t, q, old')
    ensures Others(s, t, o, old') && Layout(t, WithoutDir(q, old'), d, size, 1)
    ensures WithoutDir(WithoutDir(q, old'), d) == WithoutDir(o, old')
  {
    hide Entry, Table;
    NewDirRoles(s, o, q, d);
    hide Own;
    assert WithoutDir(WithoutDir(q, old'), old') == WithoutDir(q, old');
    OthersKeepLayout(u, t, q, WithoutDir(q, old'), old', d, size, 1);
    forall e: nat, x: nat | IsDirectory(o, e) && e != old' && x < NPAGES
      ensures Entry(t.mem, e, x) == Entry(s.mem, e, x)
    {
      assert IsDirectory(q, e);
      assert Entry(u.mem, e, x) == Entry(s.mem, e, x);
    }
  }

  /** growproc() when allocuvm() has returned. */
  lemma Grown(s: State, s': State, o: Owner, p: Owner, d: nat, sz: nat, ss: nat, newsz: nat, grown: bool)
    requires Own(s, o) && Layout(s, o, d, sz, ss) && sz <= newsz < KERNBASE
    requires Changed(s, s', o, p, d, Pages(sz), Pages(newsz))
    requires if grown then FreshPages(s', d, Pages(sz), Pages(newsz)) && Pages(newsz) + ss <= USERPAGES
        else Unmapped(s', d, Pages(sz), Pages(newsz))
    ensures Others(s, s', o, d) && SameRoles(o, p, d)
    ensures KeptPages(s, s', d, 0, Pages(sz))
    ensures Pages(newsz) + ss <= USERPAGES ==> KeptPages(s, s', d, USERPAGES - ss, USERPAGES)
    ensures grown ==> Layout(s', p, d, newsz, ss)
    ensures !grown ==> (Layout(s', p, d, sz, ss) <==> Pages(newsz) + ss <= USERPAGES)
    ensures !grown && Pages(newsz) + ss > USERPAGES ==> MappedOutside(s', d, Pages(sz), Pages(newsz))
  {
    var lo, hi := Pages(sz), Pages(newsz);
    PagesMono(sz, newsz);
    LayoutDir(s, o, d, sz, ss);
    hide Own, Layout, KeptPages, Pages, Others, SameRoles, Changed, FreshPages, Unmapped, MappedOutside;
    ChangedOthers(s, s', o, p, d, lo, hi);
    ChangedDir(s, s', o, p, d, lo, hi);
    ChangedPages(s, s', o, p, d, lo, hi, sz, ss);
    GrowthLayout(s, s', o, p, d, sz, ss, lo, hi, grown);
    if grown {
      LayoutOf(s', p, d, newsz, ss);
    } else {
      GrowthIff(s', p, d, sz, ss, if hi < USERPAGES - ss then USERPAGES - ss else hi);
    }
  }

  /** trap() when allocuvm() has succeeded. */
  lemma Faulted(s: State, s': State, o: Owner, p: Owner, d: nat, sz: nat, ss: nat, page: nat)
    requires Own(s, o) && Layout(s, o, d, sz, ss) && Pages(sz) <= page < USERPAGES - ss
    requires Changed(s, s', o, p, d, page, USERPAGES - ss) && FreshPages(s', d, page, USERPAGES - ss)
    ensures Others(s, s', o, d) && SameRoles(o, p, d)
    ensures KeptPages(s, s', d, 0, Pages(sz)) && KeptPages(s, s', d, USERPAGES - ss, USERPAGES)
    ensures MappedOutside(s', d, Pages(sz), page) && (Layout(s', p, d, sz, ss + 1) <==> page == USERPAGES - ss - 1)
  {
    LayoutDir(s, o, d, sz, ss);
    hide Own, Layout, KeptPages, Pages, Others, SameRoles, Changed, FreshPages, MappedOutside;
    ChangedOthers(s, s', o, p, d, page, USERPAGES - ss);
    ChangedDir(s, s', o, p, d, page, USERPAGES - ss);
    ChangedPages(s, s', o, p, d, page, USERPAGES - ss, sz, ss);
    GrowthLayout(s, s', o, p, d, sz, ss, page, USERPAGES - ss, true);
    FaultIff(s', p, d, sz, ss, page);
  }

  /** Which page allocuvm() meets first on a fault at `page`. */
  lemma FaultRange(s: State, owner: Owner, d: nat, sz: nat, ss: nat, page: nat, hi: nat)
    requires Layout(s, owner, d, sz, ss) && page < hi == USERPAGES - ss
    ensures page >= Pages(sz) ==> Unmapped(s, d, page, hi) && forall u :: !FirstMapped(s, d, page, hi, u)
    ensures page < Pages(sz) ==> !Unmapped(s, d, page, hi)
  {
    hide Entry, Pages;
    if page < Pages(sz) { assert Present(Entry(s.mem, d, page)); }
  }

  // ------------------------------------------------------------ processes

  /** growproc() takes the new size 0 for an error, the pages being gone. */
  predicate Drains(sz: nat, n: int) {
    n < 0 && sz + n == 0
  }

  /** A growth by `n` bytes to an allowed size would reach into the stack. */
  predicate MeetsStack(sz: nat, ss: nat, n: int) {
    n > 0 && sz + n < KERNBASE && Pages(sz + n) + ss > USERPAGES
  }

  /** growproc() succeeds: a growth has pages and frames. */
  predicate Grows(s: State, d: nat, sz: nat, ss: nat, n: int) {
    if n > 0 then sz + n < KERNBASE && !MeetsStack(sz, ss, n) && |s.free| >= Need(s.mem, d, Pages(sz), Pages(sz + n))
    else n == 0 || (sz > 0 && !Drains(sz, n))
  }

  /** trap() panics on a fault in the heap, or when the frames do not last from the fault
      up to the stack. */
  predicate FaultPanics(s: State, d: nat, sz: nat, ss: nat, addr: nat) {
    && addr / PGSIZE + ss < USERPAGES
    && (addr / PGSIZE < Pages(sz) || |s.free| < Need(s.mem, d, addr / PGSIZE, USERPAGES - ss))
  }

  predicate Forks(s: State, sz: nat, ss: nat) {
    |s.free| >= KERNEL_FRAMES + CopyNeed(Pages(sz), Pages(sz) + ss)
  }

  /** The frames run out in fork() when copyuvm() has just taken one and needs a table. */
  ghost predicate ForkLoses(s: State, sz: nat, ss: nat) {
    |s.free| >= KERNEL_FRAMES && CopyLoses(|s.free| - KERNEL_FRAMES, Pages(sz), Pages(sz) + ss)
  }

  /** exec() succeeds: a directory, the image, and a stack page with its table. */
  predicate Execs(s: State, segs: seq<Segment>, pushed: bool) {
    Accepted(segs) && pushed && |s.free| >= KERNEL_FRAMES + ImageNeed(Pages(ImageEnd(segs))) + 2
  }

  class Process {
    const vm: Vm
    var pgdir: nat
    var sz: nat
    var stackSize: nat

    ghost predicate Valid()
      reads this, vm
    {
      Own(vm.St(), vm.owner) && Layout(vm.St(), vm.owner, pgdir, sz, stackSize) && |vm.mem| <= PHYSPAGES
    }

    constructor (vm: Vm, pgdir: nat, sz: nat, stackSize: nat)
      ensures this.vm == vm && this.pgdir == pgdir && this.sz == sz && this.stackSize == stackSize
    {
      this.vm, this.pgdir, this.sz, this.stackSize := vm, pgdir, sz, stackSize;
    }

    /** growproc(). Growth that reaches the stack fails and has unmapped the stack's pages in
        its range; it does not panic, as there are fewer frames than user pages. A new size
        of 0 fails after the heap is gone; one below 0 wraps around and changes nothing. */
    method Growproc(n: int) returns (ok: bool)
      requires Valid() && -KERNBASE <= n < KERNBASE
      modifies this`sz, vm
      ensures Own(vm.St(), vm.owner) && Pool(vm.St(), vm.owner) == old(Pool(vm.St(), vm.owner))
      ensures Others(old(vm.St()), vm.St(), old(vm.owner), pgdir) && SameRoles(old(vm.owner), vm.owner, pgdir)
      ensures Valid() <==> !old(MeetsStack(sz, stackSize, n)) && !old(Drains(sz, n))
      ensures ok <==> old(Grows(vm.St(), pgdir, sz, stackSize, n))
      ensures sz == if ok && old(sz) + n > 0 then old(sz) + n else old(sz)
      ensures ok && n > 0 ==> FreshPages(vm.St(), pgdir, Pages(old(sz)), Pages(sz))
                              && |vm.free| == |old(vm.free)| - old(Need(vm.mem, pgdir, Pages(sz), Pages(sz + n)))
      ensures old(MeetsStack(sz, stackSize, n)) ==> MappedOutside(vm.St(), pgdir, Pages(sz), Pages(old(sz) + n))
      ensures old(Drains(sz, n)) ==> Layout(vm.St(), vm.owner, pgdir, 0, stackSize)
      ensures !old(Drains(sz, n)) ==>
                KeptPages(old(vm.St()), vm.St(), pgdir, 0, if sz < old(sz) then Pages(sz) else Pages(old(sz)))
      ensures !old(MeetsStack(sz, stackSize, n)) ==>
                KeptPages(old(vm.St()), vm.St(), pgdir, USERPAGES - stackSize, USERPAGES)
    {
      hide Own, Layout, KeptPages, Pages, Others, SameRoles, Changed, FreshPages, Unmapped, Released, Minus, Sweep;
      hide Pool, Growable, FirstMapped, Need, MappedOutside, TablesMade;
      ghost var s, o := vm.St(), vm.owner;
      LayoutDir(s, o, pgdir, sz, stackSize);
      SameOthers(s, o, pgdir);
      SamePages(s, o, pgdir, sz, stackSize);
      NeverFull(s, o, pgdir, sz, stackSize);
      ok := true;
      if n > 0 {
        ghost var lo, hi := Pages(sz), Pages(sz + n);
        PagesMono(sz, sz + n);
        if sz + n < KERNBASE {
          GrowthRange(s, o, pgdir, sz, stackSize, lo, hi);
          GrowableIff(s, pgdir, lo, hi);
        }
        var r, panicked := vm.Allocuvm(pgdir, sz, sz + n);
        assert !panicked;
        if sz + n < KERNBASE { Grown(s, vm.St(), o, vm.owner, pgdir, sz, stackSize, sz + n, r == sz + n); }
        SameMemory(s, vm.St(), o, pgdir);
        if r == 0 { return false; }
        sz := r;
      } else if n < 0 {
        var target := if sz + n >= 0 then sz + n else sz + n + WORD;
        var r := vm.Deallocuvm(pgdir, sz, target);
        if target < sz { ShrunkLayout(s, vm.St(), o, pgdir, sz, target, stackSize); }
        if Drains(sz, n) { DrainedLayout(vm.St(), vm.owner, pgdir, sz, stackSize); }
        SameMemory(s, vm.St(), o, pgdir);
        if r == 0 { return false; }
        sz := r;
      }
    }

    /** The page-fault case of trap(): zeroed pages from the fault up to the stack, and one
        page more in the stack's size. */
    method Fault(addr: nat) returns (panicked: bool)
      requires Valid() && addr < WORD
      modifies this`stackSize, vm
      ensures panicked <==> old(FaultPanics(vm.St(), pgdir, sz, stackSize, addr))
      ensures !panicked ==>
                && Own(vm.St(), vm.owner) && Pool(vm.St(), vm.owner) == old(Pool(vm.St(), vm.owner))
                && Others(old(vm.St()), vm.St(), old(vm.owner), pgdir) && SameRoles(old(vm.owner), vm.owner, pgdir)
                && KeptPages(old(vm.St()), vm.St(), pgdir, 0, Pages(sz))
                && KeptPages(old(vm.St()), vm.St(), pgdir, USERPAGES - old(stackSize), USERPAGES)
      ensures !panicked && addr / PGSIZE >= USERPAGES - old(stackSize) ==>
                stackSize == old(stackSize) && vm.St() == old(vm.St()) && vm.owner == old(vm.owner) && Valid()
      ensures !panicked && addr / PGSIZE < USERPAGES - old(stackSize) ==>
                && stackSize == old(stackSize) + 1
                && MappedOutside(vm.St(), pgdir, Pages(sz), addr / PGSIZE)
                && FreshPages(vm.St(), pgdir, addr / PGSIZE, USERPAGES - old(stackSize))
                && (Valid() <==> addr / PGSIZE == USERPAGES - old(stackSize) - 1)
    {
      hide Own, Layout, KeptPages, Pages, Others, SameRoles, Changed, FreshPages, Unmapped, Pool, Growable, FirstMapped;
      hide Need, MappedOutside, TablesMade;
      ghost var s, o := vm.St(), vm.owner;
      LayoutDir(s, o, pgdir, sz, stackSize);
      SameOthers(s, o, pgdir);
      SamePages(s, o, pgdir, sz, stackSize);
      NeverFull(s, o, pgdir, sz, stackSize);
      var page := addr / PGSIZE;
      var stackAddr := (STACK_TOP - stackSize * PGSIZE) % WORD;
      StackAddr(page, stackSize);
      if page * PGSIZE <= stackAddr {
        FaultRange(s, o, pgdir, sz, stackSize, page, USERPAGES - stackSize);
        GrowableIff(s, pgdir, page, USERPAGES - stackSize);
        var r;
        r, panicked := vm.Allocuvm(pgdir, page * PGSIZE, stackAddr);
        if panicked || r == 0 { return true; }
        Faulted(s, vm.St(), o, vm.owner, pgdir, sz, stackSize, page);
        SameMemory(s, vm.St(), o, pgdir);
        stackSize := stackSize + 1;
      }
      panicked := false;
    }

    /** fork()'s copy of the address space: a child with the same layout and contents, in
        other frames, or nothing; the parent is unchanged. */
    method Fork() returns (child: Process?, ghost leak: set<int>)
      requires Valid() && EXTPAGES < vm.dataPage < PHYSPAGES
      modifies vm
      ensures Valid() && KeptAll(old(vm.St()), vm.St(), old(vm.owner))
      ensures Pool(vm.St(), vm.owner) == old(Pool(vm.St(), vm.owner)) - leak && leak <= old(Pool(vm.St(), vm.owner))
      ensures child != null <==> old(Forks(vm.St(), sz, stackSize))
      ensures leak != {} <==> old(ForkLoses(vm.St(), sz, stackSize))
      ensures child == null ==> vm.owner == old(vm.owner) && |leak| <= 1
      ensures child != null ==>
                && fresh(child) && child.vm == vm && child.Valid() && child.sz == sz && child.stackSize == stackSize
                && leak == {} && child.pgdir !in old(vm.owner) && WithoutDir(vm.owner, child.pgdir) == old(vm.owner)
                && CopiedPages(old(vm.St()), vm.St(), pgdir, child.pgdir, 0, Pages(sz))
                && CopiedPages(old(vm.St()), vm.St(), pgdir, child.pgdir, USERPAGES - stackSize, USERPAGES)
    {
      hide Own, Pages, Extends, Copied, Entry, Pool, KernelEntry, Unmapped, CopiedPages, KeptAll, WithoutDir, CopyLoses;
      hide CopyNeed;
      ghost var s, o := vm.St(), vm.owner;
      var c;
      c, leak := vm.Copyuvm(pgdir, sz, stackSize);
      KeptMemory(s, vm.St(), o);
      if c == 0 {
        KeptLayout(s, vm.St(), o, o, pgdir, sz, stackSize);
        return null, leak;
      }
      CopyLayout(s, vm.St(), o, vm.owner, pgdir, c, sz, stackSize);
      NewDirRoles(s, o, vm.owner, c);
      child := new Process(vm, c, sz, stackSize);
    }

    /** exec()'s loop over the program headers. */
    method LoadSegments(d: nat, segs: seq<Segment>, ghost s: State, ghost o: Owner) returns (ok: bool, size: nat)
      requires Building(s, vm.St(), o, vm.owner, d, 0) && InWords(segs) && HeapTables(vm.mem, d, 0)
      modifies vm
      ensures Building(s, vm.St(), o, vm.owner, d, size) && Pool(vm.St(), vm.owner) == old(Pool(vm.St(), vm.owner))
      ensures ok <==> Accepted(segs) && |old(vm.free)| >= ImageNeed(Pages(ImageEnd(segs)))
      ensures ok ==> size == ImageEnd(segs) < KERNBASE && HeapTables(vm.mem, d, Pages(size))
                     && |vm.free| == |old(vm.free)| - ImageNeed(Pages(size))
    {
      hide Own, Building, Pool, Unmapped, FreshPages, Changed, Growable, FirstMapped, Need, Pages, HeapTables;
      hide ImageNeed, TablesMade;
      size := 0;
      ImageNeedStart();
      var i := 0;
      while i < |segs|
        invariant 0 <= i <= |segs| && Building(s, vm.St(), o, vm.owner, d, size)
        invariant Pool(vm.St(), vm.owner) == old(Pool(vm.St(), vm.owner))
        invariant size == ImageEnd(segs[..i]) < KERNBASE && (forall k :: 0 <= k < i ==> Loadable(segs[k]))
        invariant i > 0 ==> size > 0 && segs[0].vaddr + segs[0].memsz > 0
        invariant HeapTables(vm.mem, d, Pages(size)) && |old(vm.free)| == |vm.free| + ImageNeed(Pages(size))
      {
        var ph := segs[i];
        if ph.memsz < ph.filesz { return false, size; }
        if (ph.vaddr + ph.memsz) % WORD < ph.vaddr { return false, size; }
        var end := ph.vaddr + ph.memsz;
        ghost var t, p := vm.St(), vm.owner;
        BuildingFacts(s, t, o, p, d, size);
        BuildingRange(s, t, o, p, d, size, end);
        if size <= end < KERNBASE {
          GrowableIff(t, d, Pages(size), Pages(end));
          PagesMono(size, end);
        }
        var r, panicked := vm.Allocuvm(d, size, end);
        assert !panicked;
        assert segs[..i + 1][..i] == segs[..i];
        ImageEndMono(segs, i + 1);
        if size <= end < KERNBASE {
          NoFreshPages(vm.St(), d, Pages(size));
          HeapTablesMore(t.mem, vm.mem, d, Pages(size), Pages(end));
          BuildingOn(s, t, vm.St(), o, p, vm.owner, d, size, end, r == end);
          ImageNeedMono(end, ImageEnd(segs));
        }
        if r == 0 { return false, size; }
        size := r;
        if ph.vaddr % PGSIZE != 0 || !ph.loads { return false, size; }
        i := i + 1;
      }
      assert segs[..i] == segs;
      ok := true;
    }

    /** exec(): a new address space with the program below and one stack page on top takes
        the place of the old one, or nothing changes. `pushed` says whether the arguments
        could be copied onto the stack. The stack's page is never taken: an image that
        reaches it does not fit into memory. */
    method Exec(segs: seq<Segment>, pushed: bool) returns (ok: bool)
      requires Own(vm.St(), vm.owner) && IsDirectory(vm.owner, pgdir) && |vm.mem| <= PHYSPAGES
      requires EXTPAGES < vm.dataPage < PHYSPAGES && InWords(segs)
      modifies this, vm
      ensures Own(vm.St(), vm.owner) && Pool(vm.St(), vm.owner) == old(Pool(vm.St(), vm.owner))
      ensures Others(old(vm.St()), vm.St(), old(vm.owner), old(pgdir))
      ensures ok <==> Execs(old(vm.St()), segs, pushed)
      ensures !ok ==> pgdir == old(pgdir) && sz == old(sz) && stackSize == old(stackSize) && vm.owner == old(vm.owner)
                      && KeptAll(old(vm.St()), vm.St(), old(vm.owner))
      ensures ok ==>
                && Valid() && sz == Pages(ImageEnd(segs)) * PGSIZE && stackSize == 1 && pgdir !in old(vm.owner)
                && WithoutDir(vm.owner, pgdir) == WithoutDir(old(vm.owner), old(pgdir))
    {
      hide Own, Building, Pool, Unmapped, FreshPages, Changed, Extends, Pages, KernelEntry, Layout, Others, KeptAll;
      hide WithoutDir;
      hide Entry, Growable, FirstMapped, Need, HeapTables, KernelTablesOnly, ImageNeed, TablesMade, Accepted, ImageEnd;
      ghost var s, o := vm.St(), vm.owner;
      var d := vm.Setupkvm();
      if d == 0 {
        KeptOthers(s, vm.St(), o, pgdir);
        return false;
      }
      BuildingStart(s, vm.St(), o, vm.owner, d, vm.dataPage);
      NoHeapTables(vm.mem, d, vm.dataPage);
      var size;
      ok, size := LoadSegments(d, segs, s, o);
      BuildingFacts(s, vm.St(), o, vm.owner, d, size);
      if ok {
        ghost var t, p := vm.St(), vm.owner;
        KeptMemory(s, t, o);
        NeverFull(t, p, d, size, 0);
        StackRange(s, t, o, p, d, size, USERPAGES - 1, USERPAGES);
        StackNeed(t.mem, d, Pages(size));
        GrowableIff(t, d, USERPAGES - 1, USERPAGES);
        var r, panicked := vm.Allocuvm(d, STACK_TOP - PGSIZE, STACK_TOP);
        assert !panicked;
        StackOn(s, t, vm.St(), o, p, vm.owner, d, size, r != 0);
        ok := r != 0 && pushed;
      }
      ghost var u, q := vm.St(), vm.owner;
      if !ok {
        vm.Freevm(d);
        SetupUndone(s, u, vm.St(), o, q, d);
        KeptOthers(s, vm.St(), o, pgdir);
        return false;
      }
      var oldpgdir := pgdir;
      StillDirectory(o, q, d, oldpgdir);
      pgdir, sz, stackSize := d, Pages(size) * PGSIZE, 1;
      vm.Freevm(oldpgdir);
      Committed(s, u, vm.St(), o, q, oldpgdir, d, sz);
      SameMemory(s, vm.St(), o, oldpgdir);
    }
  }
}
