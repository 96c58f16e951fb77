/** Address spaces: the page allocator of kalloc.c and the two-level page tables of vm.c
(section 4.3 of the Intel SDM, Volume 3A).

Physical memory is a sequence of page frames of 1024 words. A page directory is a frame,
named by its number. Virtual addresses are page numbers where only whole pages matter. */
module PageTables {

  import opened Basics

  const PGSIZE := 4096
  const NENTRIES := 1024
  const KERNBASE := 0x80000000
  const USERPAGES := 0x80000     // pages below KERNBASE
  const NPAGES := 0x100000       // pages of an address space
  const PTE_P := 1
  const PTE_W := 2
  const PTE_U := 4

  type Page = seq<int>
  type Memory = seq<Page>

  datatype State = State(base: nat, mem: Memory, free: seq<nat>)

  // ------------------------------------------------------------ entries

  predicate Present(w: int) {
    w % 2 == 1
  }

  function Frame(w: int): int {
    w / PGSIZE
  }

  function Flags(w: int): int {
    w % PGSIZE
  }

  /** pa | perm | PTE_P, for the page at `frame`. */
  function Pte(frame: int, perm: nat): int {
    frame * PGSIZE + (if perm % 2 == 1 then perm else perm + 1)
  }

  lemma PteParts(frame: int, perm: nat)
    requires perm < PGSIZE
    ensures Present(Pte(frame, perm)) && Frame(Pte(frame, perm)) == frame
    ensures Flags(Pte(frame, perm)) == if perm % 2 == 1 then perm else perm + 1
  {
    var low := if perm % 2 == 1 then perm else perm + 1;
    assert low < PGSIZE;
    var w := frame * PGSIZE + low;
    assert w == PGSIZE * frame + low;
  }

  /** What kfree() fills a page with. */
  function Junk(n: nat): (r: seq<int>)
    ensures |r| == n
  {
    if n == 0 then [] else Junk(n - 1) + [0x01010101]
  }

  /** The page table for directory entry `i`, or 0. */
  function Table(m: Memory, d: nat, i: nat): int {
    if d < |m| && i < |m[d]| && Present(m[d][i]) then Frame(m[d][i]) else 0
  }

  /** The entry that maps page `v`, or 0. */
  function Entry(m: Memory, d: nat, v: nat): int {
    var t := Table(m, d, v / NENTRIES);
    if 0 < t < |m| && |m[t]| == NENTRIES then m[t][v % NENTRIES] else 0
  }

  // ------------------------------------------------------------ who owns a frame

  /** A page directory, the table of a directory entry, or a user page. */
  datatype Role = IsDir | TableOf(dir: nat, i: nat) | UserOf(dir: nat, v: nat)

  type Owner = map<int, Role>

  predicate IsDirectory(owner: Owner, d: int) {
    d in owner && owner[d].IsDir?
  }

  /** A frame that kalloc() may hand out: between the kernel's end and PHYSTOP. */
  predicate Within(s: State, p: int) {
    0 < s.base <= p < |s.mem|
  }

  ghost predicate TableOk(s: State, owner: Owner, d: nat, i: nat) {
    d < |s.mem| && i < |s.mem[d]| && Present(s.mem[d][i]) ==>
      var t := Table(s.mem, d, i); t in owner && owner[t] == TableOf(d, i)
  }

  ghost predicate UserOk(s: State, owner: Owner, d: nat, v: nat) {
    var w := Entry(s.mem, d, v);
    Present(w) ==> Frame(w) in owner && owner[Frame(w)] == UserOf(d, v)
  }

  ghost predicate RoleOk(s: State, owner: Owner, p: int) {
    p in owner ==>
      && Within(s, p)
      && match owner[p]
         case IsDir => true
         case TableOf(d, i) => IsDirectory(owner, d) && i < NENTRIES && Table(s.mem, d, i) == p
         case UserOf(d, v) =>
           IsDirectory(owner, d) && v < USERPAGES && Present(Entry(s.mem, d, v)) && Frame(Entry(s.mem, d, v)) == p
  }

  ghost predicate FreeOk(s: State, owner: Owner) {
    && (forall k :: 0 <= k < |s.free| ==> Within(s, s.free[k]) && s.free[k] !in owner)
    && (forall j, k :: 0 <= j < k < |s.free| ==> s.free[j] != s.free[k])
  }

  /** Each frame is on the free list at most once, or has exactly one use; page tables and
      user pages are used where their role says. */
  ghost predicate Own(s: State, owner: Owner) {
    && (forall p :: 0 <= p < |s.mem| ==> |s.mem[p]| == NENTRIES)
    && (forall d: nat, i: nat :: IsDirectory(owner, d) && i < NENTRIES ==> TableOk(s, owner, d, i))
    && (forall d: nat, v: nat :: IsDirectory(owner, d) && v < USERPAGES ==> UserOk(s, owner, d, v))
    && (forall p :: p in owner ==> RoleOk(s, owner, p))
    && FreeOk(s, owner)
  }

  /** Every frame accounted for: free, or reachable from a page directory. */
  ghost function Pool(s: State, owner: Owner): set<int> {
    (set p | p in s.free) + owner.Keys
  }

  ghost predicate Reachable(s: State, owner: Owner, p: int) {
    || IsDirectory(owner, p)
    || (exists d: nat, i: nat :: IsDirectory(owner, d) && i < NENTRIES && Table(s.mem, d, i) == p != 0)
    || (exists d: nat, v: nat :: IsDirectory(owner, d) && v < USERPAGES && Present(Entry(s.mem, d, v))
          && Frame(Entry(s.mem, d, v)) == p)
  }

  /** The frames with a role are those reachable from a directory, and none of them is free. */
  lemma ReachableIffOwned(s: State, owner: Owner, p: int)
    requires Own(s, owner)
    ensures Reachable(s, owner, p) <==> p in owner
    ensures Reachable(s, owner, p) ==> p !in s.free
  {
    if p in owner { assert RoleOk(s, owner, p); }
    if d: nat, i: nat :| IsDirectory(owner, d) && i < NENTRIES && Table(s.mem, d, i) == p != 0 {
      TableRole(s, owner, d, i);
    }
    if d: nat, v: nat :|
      IsDirectory(owner, d) && v < USERPAGES && Present(Entry(s.mem, d, v)) && Frame(Entry(s.mem, d, v)) == p {
      assert UserOk(s, owner, d, v);
    }
  }

  /** No frame is mapped at two user addresses. */
  lemma FramesApart(s: State, owner: Owner, d: nat, v: nat, e: nat, u: nat)
    requires Own(s, owner) && IsDirectory(owner, d) && IsDirectory(owner, e) && v < USERPAGES && u < USERPAGES
    requires Present(Entry(s.mem, d, v)) && Present(Entry(s.mem, e, u)) && (d, v) != (e, u)
    ensures Frame(Entry(s.mem, d, v)) != Frame(Entry(s.mem, e, u))
  {
    assert UserOk(s, owner, d, v) && UserOk(s, owner, e, u);
  }

  // ------------------------------------------------------------ frames of memory

  /** Directories and tables are as before. */
  ghost predicate SameTables(s: State, s': State, owner: Owner) {
    && |s'.mem| == |s.mem| && s'.base == s.base
    && (forall p :: p in owner && 0 <= p < |s.mem| && !owner[p].UserOf? ==> s'.mem[p] == s.mem[p])
  }

  lemma TableRole(s: State, owner: Owner, d: nat, i: nat)
    requires Own(s, owner) && IsDirectory(owner, d) && i < NENTRIES
    ensures Within(s, d) && |s.mem[d]| == NENTRIES
    ensures var t := Table(s.mem, d, i);
            t != 0 ==>
              && t in owner && owner[t] == TableOf(d, i)
              && Within(s, t) && |s.mem[t]| == NENTRIES && Present(s.mem[d][i])
    ensures Table(s.mem, d, i) == 0 ==> !Present(s.mem[d][i])
  {
    assert RoleOk(s, owner, d) && TableOk(s, owner, d, i);
    var t := Table(s.mem, d, i);
    if t in owner { assert RoleOk(s, owner, t); }
  }

  lemma SameEntry(s: State, s': State, owner: Owner, d: nat, v: nat)
    requires Own(s, owner) && SameTables(s, s', owner) && IsDirectory(owner, d) && v < NPAGES
    ensures Entry(s'.mem, d, v) == Entry(s.mem, d, v) && Table(s'.mem, d, v / NENTRIES) == Table(s.mem, d, v / NENTRIES)
  {
    TableRole(s, owner, d, v / NENTRIES);
  }

  /** Writing pages that are no tables, and moving unowned frames on or off the free list. */
  lemma SameTablesOwn(s: State, s': State, owner: Owner)
    requires Own(s, owner) && SameTables(s, s', owner) && FreeOk(s', owner)
    requires forall p :: 0 <= p < |s'.mem| ==> |s'.mem[p]| == NENTRIES
    ensures Own(s', owner)
  {
    hide Entry, Table;
    forall d: nat, i: nat | IsDirectory(owner, d) && i < NENTRIES ensures TableOk(s', owner, d, i) {
      assert TableOk(s, owner, d, i);
      SameEntry(s, s', owner, d, i * NENTRIES);
      assert i * NENTRIES / NENTRIES == i;
      TableRole(s, owner, d, i);
    }
    forall d: nat, v: nat | IsDirectory(owner, d) && v < USERPAGES ensures UserOk(s', owner, d, v) {
      assert UserOk(s, owner, d, v);
      SameEntry(s, s', owner, d, v);
    }
    forall p | p in owner ensures RoleOk(s', owner, p) {
      assert RoleOk(s, owner, p);
      match owner[p]
      case IsDir =>
      case TableOf(d, i) =>
        SameEntry(s, s', owner, d, i * NENTRIES);
        assert i * NENTRIES / NENTRIES == i;
      case UserOf(d, v) => SameEntry(s, s', owner, d, v);
    }
  }

  // ------------------------------------------------------------ a new page table

  /** walkpgdir() makes the table for directory entry `i`. */
  function TableMade(s: State, d: nat, i: nat): State
    requires s.free != [] && s.free[0] < |s.mem| && d < |s.mem| && i < |s.mem[d]| && s.free[0] != d
  {
    var t := s.free[0];
    State(s.base, s.mem[t := Zeros(NENTRIES)][d := s.mem[d][i := Pte(t, PTE_P + PTE_W + PTE_U)]], s.free[1..])
  }

  lemma TableMadeTable(s: State, owner: Owner, d: nat, i: nat, e: nat, j: nat)
    requires Own(s, owner) && IsDirectory(owner, d) && IsDirectory(owner, e) && i < NENTRIES && j < NENTRIES
    requires s.free != [] && Table(s.mem, d, i) == 0
    ensures Within(s, d) && Within(s, s.free[0]) && s.free[0] !in owner && s.free[0] != d && |s.mem[d]| == NENTRIES
    ensures Table(TableMade(s, d, i).mem, e, j) == if e == d && j == i then s.free[0] else Table(s.mem, e, j)
  {
    TableRole(s, owner, d, i);
    TableRole(s, owner, e, j);
    PteParts(s.free[0], PTE_P + PTE_W + PTE_U);
  }

  lemma TableMadeEntry(s: State, owner: Owner, d: nat, i: nat, e: nat, v: nat)
    requires Own(s, owner) && IsDirectory(owner, d) && IsDirectory(owner, e) && i < NENTRIES && v < NPAGES
    requires s.free != [] && Table(s.mem, d, i) == 0
    ensures Within(s, d) && Within(s, s.free[0]) && s.free[0] !in owner && s.free[0] != d && |s.mem[d]| == NENTRIES
    ensures Entry(TableMade(s, d, i).mem, e, v) == Entry(s.mem, e, v)
  {
    TableMadeTable(s, owner, d, i, e, v / NENTRIES);
    TableRole(s, owner, e, v / NENTRIES);
    ZerosAt(NENTRIES, v % NENTRIES);
  }

  lemma TableMadeOwn(s: State, owner: Owner, d: nat, i: nat)
    requires Own(s, owner) && IsDirectory(owner, d) && i < NENTRIES && s.free != [] && Table(s.mem, d, i) == 0
    ensures Within(s, d) && Within(s, s.free[0]) && s.free[0] !in owner && s.free[0] != d && |s.mem[d]| == NENTRIES
    ensures Own(TableMade(s, d, i), owner[s.free[0] := TableOf(d, i)])
    ensures Pool(TableMade(s, d, i), owner[s.free[0] := TableOf(d, i)]) == Pool(s, owner)
  {
    TableMadeTable(s, owner, d, i, d, i);
    var t := s.free[0];
    var s', owner' := TableMade(s, d, i), owner[t := TableOf(d, i)];
    assert s.free == [t] + s.free[1..];
    hide Table, Entry, Zeros;
    forall e: nat, j: nat | IsDirectory(owner', e) && j < NENTRIES ensures TableOk(s', owner', e, j) {
      assert TableOk(s, owner, e, j);
      TableMadeTable(s, owner, d, i, e, j);
      TableRole(s, owner, e, j);
    }
    forall e: nat, v: nat | IsDirectory(owner', e) && v < USERPAGES ensures UserOk(s', owner', e, v) {
      assert UserOk(s, owner, e, v);
      TableMadeEntry(s, owner, d, i, e, v);
    }
    forall p | p in owner' ensures RoleOk(s', owner', p) {
      assert RoleOk(s, owner, p);
      match owner'[p]
      case IsDir =>
      case TableOf(e, j) => TableMadeTable(s, owner, d, i, e, j);
      case UserOf(e, v) => TableMadeEntry(s, owner, d, i, e, v);
    }
  }

  // ------------------------------------------------------------ one entry

  /** Entry `v` of `d` is overwritten; its table is there. */
  function EntrySet(s: State, d: nat, v: nat, w: int): State
    requires 0 <= Table(s.mem, d, v / NENTRIES) < |s.mem| && |s.mem[Table(s.mem, d, v / NENTRIES)]| == NENTRIES
  {
    var t := Table(s.mem, d, v / NENTRIES);
    s.(mem := s.mem[t := s.mem[t][v % NENTRIES := w]])
  }

  lemma EntrySetEntry(s: State, owner: Owner, d: nat, v: nat, w: int, e: nat, u: nat)
    requires Own(s, owner) && IsDirectory(owner, d) && IsDirectory(owner, e) && v < NPAGES && u < NPAGES
    requires Table(s.mem, d, v / NENTRIES) != 0
    ensures 0 <= Table(s.mem, d, v / NENTRIES) < |s.mem| && |s.mem[Table(s.mem, d, v / NENTRIES)]| == NENTRIES
    ensures Table(EntrySet(s, d, v, w).mem, e, u / NENTRIES) == Table(s.mem, e, u / NENTRIES)
    ensures Entry(EntrySet(s, d, v, w).mem, e, u) == if e == d && u == v then w else Entry(s.mem, e, u)
  {
    TableRole(s, owner, d, v / NENTRIES);
    TableRole(s, owner, e, u / NENTRIES);
  }

  /** What remains to show of Own() when only one entry changed. */
  lemma EntrySetOwn(s: State, owner: Owner, d: nat, v: nat, w: int, s': State, owner': Owner)
    requires Own(s, owner) && IsDirectory(owner, d) && v < NPAGES && Table(s.mem, d, v / NENTRIES) != 0
    requires 0 <= Table(s.mem, d, v / NENTRIES) < |s.mem| && |s.mem[Table(s.mem, d, v / NENTRIES)]| == NENTRIES
    requires SameTables(EntrySet(s, d, v, w), s', owner) && FreeOk(s', owner')
    requires forall p :: 0 <= p < |s'.mem| ==> |s'.mem[p]| == NENTRIES
    requires forall p :: p in owner' && !owner'[p].UserOf? <==> p in owner && !owner[p].UserOf?
    requires forall p :: p in owner && !owner[p].UserOf? ==> owner'[p] == owner[p]
    requires forall p :: p in owner' && owner'[p].UserOf? && owner'[p] != UserOf(d, v) ==>
              p in owner && owner[p] == owner'[p]
    requires forall p :: p in owner && owner[p].UserOf? && owner[p] != UserOf(d, v) ==>
              p in owner' && owner[p] == owner'[p]
    requires v < USERPAGES && Present(w) ==> Frame(w) in owner' && owner'[Frame(w)] == UserOf(d, v)
    requires forall p :: p in owner' && owner'[p] == UserOf(d, v) ==>
              Within(s, p) && v < USERPAGES && Present(w) && Frame(w) == p
    ensures Own(s', owner')
  {
    assert s'.base == s.base && |s'.mem| == |s.mem|;
    hide Table, Entry, EntrySet;
    forall e: nat, u: nat | IsDirectory(owner, e) && u < NPAGES
      ensures Table(s'.mem, e, u / NENTRIES) == Table(s.mem, e, u / NENTRIES)
      ensures Entry(s'.mem, e, u) == if e == d && u == v then w else Entry(s.mem, e, u)
    {
      EntrySetSame(s, owner, d, v, w, s', e, u);
    }
    forall e: nat, j: nat | IsDirectory(owner', e) && j < NENTRIES ensures TableOk(s', owner', e, j) {
      assert TableOk(s, owner, e, j);
      TableRole(s, owner, e, j);
      EntrySetTable(s, owner, d, v, w, s', e, j);
    }
    forall e: nat, u: nat | IsDirectory(owner', e) && u < USERPAGES ensures UserOk(s', owner', e, u) {
      assert UserOk(s, owner, e, u);
    }
    forall p | p in owner' ensures RoleOk(s', owner', p) {
      if p in owner { assert RoleOk(s, owner, p); }
      match owner'[p]
      case IsDir =>
      case TableOf(e, j) => EntrySetTable(s, owner, d, v, w, s', e, j);
      case UserOf(e, u) =>
    }
  }

  lemma EntrySetTable(s: State, owner: Owner, d: nat, v: nat, w: int, s': State, e: nat, j: nat)
    requires Own(s, owner) && IsDirectory(owner, d) && v < NPAGES && Table(s.mem, d, v / NENTRIES) != 0
    requires 0 <= Table(s.mem, d, v / NENTRIES) < |s.mem| && |s.mem[Table(s.mem, d, v / NENTRIES)]| == NENTRIES
    requires SameTables(EntrySet(s, d, v, w), s', owner) && IsDirectory(owner, e) && j < NENTRIES
    ensures Within(s, e) && s'.mem[e] == s.mem[e] && Table(s'.mem, e, j) == Table(s.mem, e, j)
  {
    TableRole(s, owner, d, v / NENTRIES);
    TableRole(s, owner, e, j);
  }

  lemma EntrySetSame(s: State, owner: Owner, d: nat, v: nat, w: int, s': State, e: nat, u: nat)
    requires Own(s, owner) && IsDirectory(owner, d) && v < NPAGES && Table(s.mem, d, v / NENTRIES) != 0
    requires 0 <= Table(s.mem, d, v / NENTRIES) < |s.mem| && |s.mem[Table(s.mem, d, v / NENTRIES)]| == NENTRIES
    requires SameTables(EntrySet(s, d, v, w), s', owner) && IsDirectory(owner, e) && u < NPAGES
    ensures Table(s'.mem, e, u / NENTRIES) == Table(s.mem, e, u / NENTRIES)
    ensures Entry(s'.mem, e, u) == if e == d && u == v then w else Entry(s.mem, e, u)
  {
    EntrySetEntry(s, owner, d, v, w, e, u);
    EntrySetTable(s, owner, d, v, w, s', e, u / NENTRIES);
    TableRole(s, owner, e, u / NENTRIES);
  }

  /** A user page is entered: its frame, neither free nor used so far, gets its role. */
  lemma UserMapped(s: State, owner: Owner, d: nat, v: nat, w: int)
    requires Own(s, owner) && IsDirectory(owner, d) && v < USERPAGES && Table(s.mem, d, v / NENTRIES) != 0
    requires Present(w) && Within(s, Frame(w)) && Frame(w) !in owner && Frame(w) !in s.free
    requires !Present(Entry(s.mem, d, v))
    ensures 0 <= Table(s.mem, d, v / NENTRIES) < |s.mem| && |s.mem[Table(s.mem, d, v / NENTRIES)]| == NENTRIES
    ensures Own(EntrySet(s, d, v, w), owner[Frame(w) := UserOf(d, v)])
    ensures Pool(EntrySet(s, d, v, w), owner[Frame(w) := UserOf(d, v)]) == Pool(s, owner) + {Frame(w)}
  {
    TableRole(s, owner, d, v / NENTRIES);
    var s' := EntrySet(s, d, v, w);
    forall p | p in owner && owner[p].UserOf? ensures owner[p] != UserOf(d, v) { assert RoleOk(s, owner, p); }
    assert FreeOk(s', owner[Frame(w) := UserOf(d, v)]);
    EntrySetOwn(s, owner, d, v, w, s', owner[Frame(w) := UserOf(d, v)]);
  }

  /** A page of the kernel's part is entered; it has no owner. */
  lemma KernelMapped(s: State, owner: Owner, d: nat, v: nat, w: int)
    requires Own(s, owner) && IsDirectory(owner, d) && USERPAGES <= v < NPAGES && Table(s.mem, d, v / NENTRIES) != 0
    ensures 0 <= Table(s.mem, d, v / NENTRIES) < |s.mem| && |s.mem[Table(s.mem, d, v / NENTRIES)]| == NENTRIES
    ensures Own(EntrySet(s, d, v, w), owner) && Pool(EntrySet(s, d, v, w), owner) == Pool(s, owner)
  {
    TableRole(s, owner, d, v / NENTRIES);
    var s' := EntrySet(s, d, v, w);
    forall p | p in owner && owner[p].UserOf? ensures owner[p] != UserOf(d, v) { assert RoleOk(s, owner, p); }
    assert FreeOk(s', owner);
    EntrySetOwn(s, owner, d, v, w, s', owner);
  }

  /** deallocuvm() of one present user page: kfree(), then the entry is cleared. */
  function PageFreed(s: State, d: nat, v: nat): State {
    var f := Frame(Entry(s.mem, d, v));
    var t := Table(s.mem, d, v / NENTRIES);
    if 0 <= f < |s.mem| && 0 <= t < |s.mem| && f != t && |s.mem[t]| == NENTRIES
    then State(s.base, s.mem[f := Junk(NENTRIES)][t := s.mem[t][v % NENTRIES := 0]], [f] + s.free)
    else s
  }

  lemma FreedFacts(s: State, owner: Owner, d: nat, v: nat)
    requires Own(s, owner) && IsDirectory(owner, d) && v < USERPAGES && Present(Entry(s.mem, d, v))
    ensures var f, t := Frame(Entry(s.mem, d, v)), Table(s.mem, d, v / NENTRIES);
            && f in owner && owner[f] == UserOf(d, v) && Within(s, f)
            && t in owner && owner[t].TableOf? && Within(s, t) && |s.mem[t]| == NENTRIES
            && PageFreed(s, d, v)
               == State(s.base, s.mem[f := Junk(NENTRIES)][t := s.mem[t][v % NENTRIES := 0]], [f] + s.free)
  {
    assert UserOk(s, owner, d, v) && RoleOk(s, owner, Frame(Entry(s.mem, d, v)));
    TableRole(s, owner, d, v / NENTRIES);
  }

  lemma FreedFree(s: State, s': State, owner: Owner, f: nat)
    requires FreeOk(s, owner) && f in owner && Within(s, f) && s'.base == s.base && |s'.mem| == |s.mem|
    requires s'.free == [f] + s.free
    ensures FreeOk(s', owner - {f}) && Pool(s', owner - {f}) == Pool(s, owner)
  {
  }

  lemma PageFreedOwn(s: State, owner: Owner, d: nat, v: nat)
    requires Own(s, owner) && IsDirectory(owner, d) && v < USERPAGES && Present(Entry(s.mem, d, v))
    ensures var f := Frame(Entry(s.mem, d, v));
            && f in owner && owner[f] == UserOf(d, v) && Within(s, f)
            && Own(PageFreed(s, d, v), owner - {f}) && Pool(PageFreed(s, d, v), owner - {f}) == Pool(s, owner)
            && PageFreed(s, d, v).free == [f] + s.free
  {
    hide PageFreed, Entry, Table, Junk, Pool, Frame, Present, FreeOk;
    FreedFacts(s, owner, d, v);
    var f, s' := Frame(Entry(s.mem, d, v)), PageFreed(s, d, v);
    forall p | p in owner && owner[p] == UserOf(d, v) ensures p == f { assert RoleOk(s, owner, p); }
    FreedFree(s, s', owner, f);
    NotPresentZero();
    EntrySetOwn(s, owner, d, v, 0, s', owner - {f});
  }

  lemma NotPresentZero()
    ensures !Present(0)
  {
  }

  lemma PageFreedEntry(s: State, owner: Owner, d: nat, v: nat, e: nat, u: nat)
    requires Own(s, owner) && IsDirectory(owner, d) && v < USERPAGES && Present(Entry(s.mem, d, v))
    requires IsDirectory(owner, e) && u < NPAGES
    ensures Entry(PageFreed(s, d, v).mem, e, u) == if e == d && u == v then 0 else Entry(s.mem, e, u)
    ensures Table(PageFreed(s, d, v).mem, e, u / NENTRIES) == Table(s.mem, e, u / NENTRIES)
  {
    var f := Frame(Entry(s.mem, d, v));
    assert UserOk(s, owner, d, v) && RoleOk(s, owner, f);
    TableRole(s, owner, d, v / NENTRIES);
    EntrySetSame(s, owner, d, v, 0, PageFreed(s, d, v), e, u);
  }

  // ------------------------------------------------------------ what a step leaves alone

  /** Roles are kept, and so is what user pages hold. */
  ghost predicate Steady(s: State, s': State, owner: Owner, owner': Owner) {
    && s'.base == s.base && |s'.mem| == |s.mem|
    && (forall p :: p in owner ==> p in owner' && owner'[p] == owner[p])
    && (forall p :: p in owner' && owner'[p].IsDir? ==> p in owner)
    && (forall p :: p in owner && owner[p].UserOf? && 0 <= p < |s.mem| ==> s'.mem[p] == s.mem[p])
  }

  /** Of all entries, only those of pages `lo` to `hi` - 1 of `d` changed. */
  ghost predicate OnlyEntries(s: State, s': State, owner: Owner, d: nat, lo: nat, hi: nat) {
    forall e: nat, u: nat :: IsDirectory(owner, e) && u < NPAGES && !(e == d && lo <= u < hi) ==>
      Entry(s'.mem, e, u) == Entry(s.mem, e, u)
  }

  /** Only frames for directory `d` have become used. */
  ghost predicate Extends(owner: Owner, owner': Owner, d: nat) {
    && (forall p :: p in owner ==> p in owner' && owner'[p] == owner[p])
    && (forall p :: p in owner' && p !in owner ==>
          p == d || (owner'[p].TableOf? && owner'[p].dir == d) || (owner'[p].UserOf? && owner'[p].dir == d))
  }

  lemma ExtendsSame(owner: Owner, d: nat)
    ensures Extends(owner, owner, d)
  {
  }

  lemma ExtendsTwice(o: Owner, p: Owner, q: Owner, d: nat)
    requires Extends(o, p, d) && Extends(p, q, d)
    ensures Extends(o, q, d)
  {
  }

  // ------------------------------------------------------------ sweeping user pages

  /** Pages needed for `sz` bytes; PGROUNDUP(sz) / PGSIZE. */
  function Pages(sz: nat): nat {
    (sz + PGSIZE - 1) / PGSIZE
  }

  function Swept(s: State, d: nat, v: nat): State {
    if Present(Entry(s.mem, d, v)) then PageFreed(s, d, v) else s
  }

  /** The simple form of deallocuvm(): one page after the other. */
  function Sweep(s: State, d: nat, lo: nat, hi: nat): State
    decreases hi - lo
  {
    if lo >= hi then s else Sweep(Swept(s, d, lo), d, lo + 1, hi)
  }

  /** The roles that are left without user pages `lo` to `hi` - 1 of `d`. */
  ghost function Minus(owner: Owner, d: nat, lo: nat, hi: nat): Owner {
    map p | p in owner && !(owner[p].UserOf? && owner[p].dir == d && lo <= owner[p].v < hi) :: owner[p]
  }

  /** What a sweep does, to the state and to the roles. */
  ghost predicate Released(s: State, s': State, owner: Owner, d: nat, lo: nat, hi: nat) {
    var owner' := Minus(owner, d, lo, hi);
    && Own(s', owner') && Pool(s', owner') == Pool(s, owner)
    && s'.base == s.base && |s'.mem| == |s.mem| && OnlyEntries(s, s', owner, d, lo, hi)
    && (forall u :: lo <= u < hi ==> !Present(Entry(s'.mem, d, u)))
    && (forall p :: p in owner' && owner'[p].UserOf? && 0 <= p < |s.mem| ==> s'.mem[p] == s.mem[p])
  }

  lemma SweptReleases(s: State, owner: Owner, d: nat, v: nat)
    requires Own(s, owner) && IsDirectory(owner, d) && v < USERPAGES
    ensures Released(s, Swept(s, d, v), owner, d, v, v + 1)
  {
    var owner' := Minus(owner, d, v, v + 1);
    var s' := Swept(s, d, v);
    forall p | p in owner && owner[p] == UserOf(d, v)
      ensures Present(Entry(s.mem, d, v)) && Frame(Entry(s.mem, d, v)) == p
    {
      assert RoleOk(s, owner, p);
    }
    if Present(Entry(s.mem, d, v)) {
      PageFreedOwn(s, owner, d, v);
      assert owner' == owner - {Frame(Entry(s.mem, d, v))};
      hide Entry, Table;
      forall e: nat, u: nat | IsDirectory(owner, e) && u < NPAGES
        ensures Entry(s'.mem, e, u) == if e == d && u == v then 0 else Entry(s.mem, e, u)
      {
        PageFreedEntry(s, owner, d, v, e, u);
      }
      forall p | p in owner' && owner'[p].UserOf? && 0 <= p < |s.mem| ensures s'.mem[p] == s.mem[p] {
        FreedElsewhere(s, owner, d, v, p);
      }
    } else {
      assert owner' == owner;
    }
  }

  lemma FreedElsewhere(s: State, owner: Owner, d: nat, v: nat, p: int)
    requires Own(s, owner) && IsDirectory(owner, d) && v < USERPAGES && Present(Entry(s.mem, d, v))
    requires p in owner && owner[p].UserOf? && p != Frame(Entry(s.mem, d, v)) && 0 <= p < |s.mem|
    ensures |PageFreed(s, d, v).mem| == |s.mem| && PageFreed(s, d, v).mem[p] == s.mem[p]
  {
    TableRole(s, owner, d, v / NENTRIES);
  }

  lemma ReleasedTwice(s: State, t: State, u: State, owner: Owner, d: nat, lo: nat, mid: nat, hi: nat)
    requires lo <= mid <= hi && Released(s, t, owner, d, lo, mid)
    requires Released(t, u, Minus(owner, d, lo, mid), d, mid, hi)
    requires IsDirectory(owner, d) && hi <= NPAGES
    ensures Released(s, u, owner, d, lo, hi)
  {
    hide Entry, Own, Pool, Present;
    assert Minus(Minus(owner, d, lo, mid), d, mid, hi) == Minus(owner, d, lo, hi);
    forall e: nat, x: nat | IsDirectory(owner, e) && x < NPAGES && !(e == d && lo <= x < hi)
      ensures Entry(u.mem, e, x) == Entry(s.mem, e, x)
    {
      assert IsDirectory(Minus(owner, d, lo, mid), e);
      assert Entry(t.mem, e, x) == Entry(s.mem, e, x);
    }
    forall x | lo <= x < hi ensures !Present(Entry(u.mem, d, x)) {
      if x < mid {
        assert IsDirectory(Minus(owner, d, lo, mid), d);
        assert Entry(u.mem, d, x) == Entry(t.mem, d, x);
      }
    }
  }

  /** The sweep unmaps exactly its range and gives every frame back. */
  lemma {:induction false} SweepReleases(s: State, owner: Owner, d: nat, lo: nat, hi: nat)
    requires Own(s, owner) && IsDirectory(owner, d) && lo <= hi <= USERPAGES
    ensures Released(s, Sweep(s, d, lo, hi), owner, d, lo, hi)
    decreases hi - lo
  {
    hide Own, Entry, Pool, OnlyEntries, Swept, Present, Released, Minus;
    if lo < hi {
      SweptReleases(s, owner, d, lo);
      ReleasedOwn(s, Swept(s, d, lo), owner, d, lo, lo + 1);
      SweepReleases(Swept(s, d, lo), Minus(owner, d, lo, lo + 1), d, lo + 1, hi);
      ReleasedTwice(s, Swept(s, d, lo), Sweep(s, d, lo, hi), owner, d, lo, lo + 1, hi);
    } else {
      NothingReleased(s, owner, d, lo);
    }
  }

  lemma ReleasedOwn(s: State, t: State, owner: Owner, d: nat, lo: nat, hi: nat)
    requires Released(s, t, owner, d, lo, hi) && IsDirectory(owner, d)
    ensures Own(t, Minus(owner, d, lo, hi)) && IsDirectory(Minus(owner, d, lo, hi), d)
  {
  }

  lemma NothingReleased(s: State, owner: Owner, d: nat, v: nat)
    requires Own(s, owner)
    ensures Released(s, s, owner, d, v, v)
  {
    MinusNone(owner, d, v);
  }

  /** Without a table there is nothing to unmap up to the next table. */
  lemma {:induction false} SkipTable(s: State, d: nat, v: nat, next: nat, hi: nat)
    requires Table(s.mem, d, v / NENTRIES) == 0 && v <= next <= (v / NENTRIES + 1) * NENTRIES && next <= hi
    ensures Sweep(s, d, v, hi) == Sweep(s, d, next, hi)
    decreases next - v
  {
    if v < next {
      assert Entry(s.mem, d, v) == 0;
      if v + 1 < next { assert (v + 1) / NENTRIES == v / NENTRIES; }
      if v + 1 == next { } else { SkipTable(s, d, v + 1, next, hi); }
    }
  }

  const STACK_TOP := KERNBASE - 4

  /** A copy of `d` into the new directory `c` is under way; `s` and `o` were before it. */
  ghost predicate Copying(s: State, t: State, o: Owner, p: Owner, d: nat, c: nat) {
    && Own(s, o) && Own(t, p) && IsDirectory(o, d) && c !in o && IsDirectory(p, c)
    && KeptAll(s, t, o) && Extends(o, p, c)
  }

  /** Page `v` of `c` is a copy of page `v` of `d`, in another frame. */
  ghost predicate Copied(s: State, t: State, d: nat, c: nat, v: nat) {
    var w, x := Entry(s.mem, d, v), Entry(t.mem, c, v);
    && Present(x) && Flags(x) == Flags(w) && Frame(x) != Frame(w)
    && Within(s, Frame(w)) && Within(t, Frame(x)) && t.mem[Frame(x)] == s.mem[Frame(w)]
  }

  ghost predicate CopiedPages(s: State, t: State, d: nat, c: nat, lo: nat, hi: nat) {
    forall v :: lo <= v < hi ==> Copied(s, t, d, c, v)
  }

  ghost predicate KernelKept(s: State, t: State, c: nat) {
    forall v :: USERPAGES <= v < NPAGES ==> Entry(t.mem, c, v) == Entry(s.mem, c, v)
  }

  lemma ParentEntry(s: State, t: State, o: Owner, p: Owner, d: nat, c: nat, v: nat)
    requires Copying(s, t, o, p, d, c) && v < USERPAGES && Present(Entry(s.mem, d, v))
    ensures IsDirectory(p, d) && Table(t.mem, d, v / NENTRIES) != 0 && Entry(t.mem, d, v) == Entry(s.mem, d, v)
    ensures var w := Entry(s.mem, d, v);
            && 0 <= Frame(w) < |t.mem| && |t.mem[Frame(w)]| == NENTRIES && 0 <= Flags(w) < PGSIZE
            && Within(s, Frame(w)) && Frame(w) in o && o[Frame(w)] == UserOf(d, v) && t.mem[Frame(w)] == s.mem[Frame(w)]
  {
    var w := Entry(s.mem, d, v);
    assert UserOk(s, o, d, v) && RoleOk(s, o, Frame(w));
  }

  lemma CopyingOn(s: State, t: State, u: State, o: Owner, p: Owner, q: Owner, d: nat, c: nat, v: nat)
    requires Copying(s, t, o, p, d, c) && Own(u, q) && Steady(t, u, p, q) && Extends(p, q, c)
    requires OnlyEntries(t, u, p, c, v, v + 1)
    ensures Copying(s, u, o, q, d, c)
  {
    hide Own, Entry, Steady, OnlyEntries, Extends, KeptAll;
    KmapMore(s, t, u, o, p, q, c, v, v + 1);
  }

  lemma CopiedNow(s: State, t: State, u: State, o: Owner, p: Owner, q: Owner, d: nat, c: nat, v: nat, m: nat)
    requires Copying(s, t, o, p, d, c) && Copying(s, u, o, q, d, c) && v < USERPAGES && Present(Entry(s.mem, d, v))
    requires var w := Entry(s.mem, d, v);
             && 0 <= Flags(w) < PGSIZE && 0 <= Frame(w) < |t.mem| && Entry(u.mem, c, v) == Pte(m, Flags(w))
             && m < |u.mem| && u.mem[m] == t.mem[Frame(w)] && m !in p
    ensures Copied(s, u, d, c, v)
  {
    ParentEntry(s, t, o, p, d, c, v);
    hide Entry, Table, Pte;
    var w := Entry(s.mem, d, v);
    PteParts(m, Flags(w));
    assert Flags(w) % 2 == 1;
    assert UserOk(u, q, c, v) && RoleOk(u, q, m);
  }

  /** A step at page `v` leaves the other pages of the copy as they are. */
  lemma CopyMore(s: State, t: State, u: State, o: Owner, p: Owner, q: Owner, d: nat, c: nat, v: nat,
                 lo: nat, hi: nat, lo': nat, hi': nat, first: State, ok: bool)
    requires Copying(s, t, o, p, d, c) && Steady(t, u, p, q) && OnlyEntries(t, u, p, c, v, v + 1) && v < USERPAGES
    requires CopiedPages(s, t, d, c, lo, hi) && hi <= v && Unmapped(t, c, lo', hi') && hi' <= USERPAGES
    requires v < lo' || v >= hi'
    requires KernelKept(first, t, c) && (ok ==> Copied(s, u, d, c, v))
    ensures CopiedPages(s, u, d, c, lo, hi)
    ensures ok ==> CopiedPages(s, u, d, c, v, v + 1) && (hi == v ==> CopiedPages(s, u, d, c, lo, v + 1))
    ensures Unmapped(u, c, lo', hi') && KernelKept(first, u, c)
  {
    hide Entry, Table;
    forall x | lo <= x < hi ensures Copied(s, u, d, c, x) {
      assert Copied(s, t, d, c, x);
      CopiedStays(s, t, u, p, q, d, c, v, x);
    }
    forall x | USERPAGES <= x < NPAGES ensures Entry(u.mem, c, x) == Entry(first.mem, c, x) {
      assert Entry(u.mem, c, x) == Entry(t.mem, c, x);
    }
  }

  lemma CopiedStays(s: State, t: State, u: State, p: Owner, q: Owner, d: nat, c: nat, v: nat, x: nat)
    requires Own(t, p) && IsDirectory(p, c) && Steady(t, u, p, q) && OnlyEntries(t, u, p, c, v, v + 1)
    requires Copied(s, t, d, c, x) && x < USERPAGES && x != v
    ensures Copied(s, u, d, c, x)
  {
    hide Entry;
    assert Entry(u.mem, c, x) == Entry(t.mem, c, x);
    assert UserOk(t, p, c, x);
  }

  lemma CopyDown(s: State, t: State, u: State, o: Owner, p: Owner, q: Owner, d: nat, c: nat, n: nat, v: nat)
    requires Copying(s, t, o, p, d, c) && Steady(t, u, p, q) && OnlyEntries(t, u, p, c, v, v + 1) && v < USERPAGES
    requires CopiedPages(s, t, d, c, v + 1, USERPAGES) && Copied(s, u, d, c, v)
    ensures CopiedPages(s, u, d, c, v, USERPAGES)
  {
    forall x | v <= x < USERPAGES ensures Copied(s, u, d, c, x) {
      if x > v {
        assert Copied(s, t, d, c, x);
        CopiedStays(s, t, u, p, q, d, c, v, x);
      }
    }
  }

  lemma CopyStart(s: State, t: State, d: nat, c: nat)
    ensures CopiedPages(s, t, d, c, 0, 0) && KernelKept(t, t, c)
  {
  }

  lemma StackStart(s: State, t: State, d: nat, c: nat)
    ensures CopiedPages(s, t, d, c, USERPAGES, USERPAGES) && KernelKept(t, t, c)
  {
  }

  lemma StackPage(k: nat)
    requires k < USERPAGES
    ensures (STACK_TOP - k * PGSIZE) / PGSIZE == USERPAGES - 1 - k
  {
  }

  lemma UnmappedLast(s: State, c: nat, n: nat, v: nat)
    requires Unmapped(s, c, n, v + 1) && n <= v
    ensures !Present(Entry(s.mem, c, v)) && Unmapped(s, c, n, v)
  {
  }

  lemma NothingCopied(s: State, c: nat, data: nat)
    requires forall v :: 0 <= v < NPAGES ==> Entry(s.mem, c, v) == KernelEntry(data, 4, v)
    ensures Unmapped(s, c, 0, USERPAGES)
  {
    hide Entry;
  }

  lemma KernelStill(s: State, t: State, u: State, c: nat, data: nat)
    requires forall v :: 0 <= v < NPAGES ==> Entry(s.mem, c, v) == KernelEntry(data, 4, v)
    requires KernelKept(s, t, c) && KernelKept(t, u, c)
    ensures forall v :: USERPAGES <= v < NPAGES ==> Entry(u.mem, c, v) == KernelEntry(data, 4, v)
  {
    hide Entry, KernelEntry;
    forall v | USERPAGES <= v < NPAGES ensures Entry(u.mem, c, v) == KernelEntry(data, 4, v) {
      assert Entry(u.mem, c, v) == Entry(t.mem, c, v) == Entry(s.mem, c, v);
    }
  }

  const EXTPAGES := 256         // EXTMEM / PGSIZE
  const PHYSPAGES := 0xE000     // PHYSTOP / PGSIZE
  const DEVPAGE := 0xFE000      // DEVSPACE / PGSIZE

  /** One of the kernel's mappings, in pages. */
  datatype Kmap = Kmap(virt: nat, phys: nat, size: nat, perm: nat)

  /** The table `kmap`; the kernel's data starts at physical page `data`. */
  function KmapAt(data: nat, k: nat): Kmap
    requires EXTPAGES < data < PHYSPAGES
  {
    if k == 0 then Kmap(USERPAGES, 0, EXTPAGES, PTE_W)
    else if k == 1 then Kmap(USERPAGES + EXTPAGES, EXTPAGES, data - EXTPAGES, 0)
    else if k == 2 then Kmap(USERPAGES + data, data, PHYSPAGES - data, PTE_W)
    else Kmap(DEVPAGE, DEVPAGE, NPAGES - DEVPAGE, PTE_W)
  }

  /** The kernel's part of every address space, after the first `k` mappings. */
  function KernelEntry(data: nat, k: nat, v: nat): int {
    if USERPAGES <= v < USERPAGES + EXTPAGES && k > 0 then Pte(v - USERPAGES, PTE_W)
    else if USERPAGES + EXTPAGES <= v < USERPAGES + data && k > 1 then Pte(v - USERPAGES, 0)
    else if USERPAGES + data <= v < USERPAGES + PHYSPAGES && USERPAGES + EXTPAGES <= v && k > 2
    then Pte(v - USERPAGES, PTE_W)
    else if DEVPAGE <= v && k > 3 then Pte(v, PTE_W)
    else 0
  }

  lemma KmapRange(data: nat, k: nat)
    requires EXTPAGES < data < PHYSPAGES && k < 4
    ensures var m := KmapAt(data, k);
            && m.size > 0 && USERPAGES <= m.virt && m.virt + m.size <= NPAGES && m.perm < PGSIZE
            && forall v: nat :: m.virt <= v < m.virt + m.size ==> !Present(KernelEntry(data, k, v))
  {
  }

  lemma KmapAddr(virt: nat, size: nat, phys: nat)
    requires size > 0
    ensures virt * PGSIZE / PGSIZE == virt && (virt * PGSIZE + size * PGSIZE - 1) / PGSIZE == virt + size - 1
    ensures phys * PGSIZE / PGSIZE == phys
    ensures virt >= USERPAGES ==> virt * PGSIZE >= KERNBASE
  {
    assert virt * PGSIZE + size * PGSIZE - 1 == (virt + size - 1) * PGSIZE + (PGSIZE - 1);
  }

  lemma KmapEntry(t: State, u: State, p: Owner, d: nat, data: nat, k: nat, v: nat)
    requires EXTPAGES < data < PHYSPAGES && k < 4 && v < NPAGES && IsDirectory(p, d)
    requires var m := KmapAt(data, k);
             && OnlyEntries(t, u, p, d, m.virt, m.virt + m.size) && Entry(t.mem, d, v) == KernelEntry(data, k, v)
             && (m.virt <= v < m.virt + m.size ==> Entry(u.mem, d, v) == Pte(m.phys + (v - m.virt), m.perm))
    ensures Entry(u.mem, d, v) == KernelEntry(data, k + 1, v)
  {
    hide Entry, Pte;
  }

  /** All address spaces there were are as before, and so is what their pages hold. */
  ghost predicate KeptAll(s: State, s': State, owner: Owner) {
    && s'.base == s.base && |s'.mem| == |s.mem|
    && (forall e: nat, u: nat :: IsDirectory(owner, e) && u < NPAGES ==> Entry(s'.mem, e, u) == Entry(s.mem, e, u))
    && (forall p :: p in owner && owner[p].UserOf? && 0 <= p < |s.mem| ==> s'.mem[p] == s.mem[p])
  }

  lemma SameAll(s: State, t: State, owner: Owner)
    requires t.base == s.base && t.mem == s.mem
    ensures KeptAll(s, t, owner)
  {
  }

  /** setupkvm() starts with an empty directory. */
  lemma NewDir(s: State, t: State, owner: Owner, d: nat)
    requires Own(s, owner) && s.free == [d] + t.free && Within(s, d) && d !in owner && d !in t.free
    requires t.base == s.base && t.mem == s.mem[d := Zeros(NENTRIES)]
    ensures Own(t, owner[d := IsDir]) && IsDirectory(owner[d := IsDir], d)
    ensures Pool(t, owner[d := IsDir]) == Pool(s, owner)
    ensures KeptAll(s, t, owner) && Extends(owner, owner[d := IsDir], d)
    ensures forall data :: KernelTablesOnly(t.mem, d, data, 0)
    ensures forall v, data :: 0 <= v < NPAGES ==> Entry(t.mem, d, v) == KernelEntry(data, 0, v)
  {
    FilledFrame(s, t, owner, d, d, 0);
    forall i | 0 <= i < NENTRIES ensures t.mem[d][i] == 0 { ZerosAt(NENTRIES, i); }
    forall v: nat | v < NPAGES ensures Entry(t.mem, d, v) == 0 {}
    hide Entry, Table, Zeros;
    var owner' := owner[d := IsDir];
    forall e: nat, i: nat | IsDirectory(owner', e) && i < NENTRIES ensures TableOk(t, owner', e, i) {
      if e != d { assert TableOk(t, owner, e, i); }
    }
    forall e: nat, v: nat | IsDirectory(owner', e) && v < USERPAGES ensures UserOk(t, owner', e, v) {
      if e != d { assert UserOk(t, owner, e, v); }
    }
    forall p | p in owner' ensures RoleOk(t, owner', p) {
      if p != d { assert RoleOk(t, owner, p); }
    }
  }

  lemma KmapMore(s: State, t: State, u: State, o: Owner, p: Owner, q: Owner, d: nat, lo: nat, hi: nat)
    requires KeptAll(s, t, o) && Extends(o, p, d) && d !in o && IsDirectory(p, d)
    requires Steady(t, u, p, q) && Extends(p, q, d) && OnlyEntries(t, u, p, d, lo, hi)
    ensures KeptAll(s, u, o) && Extends(o, q, d) && IsDirectory(q, d)
  {
    hide Entry;
    forall e: nat, x: nat | IsDirectory(o, e) && x < NPAGES ensures Entry(u.mem, e, x) == Entry(s.mem, e, x) {
      assert IsDirectory(p, e);
      assert Entry(t.mem, e, x) == Entry(s.mem, e, x);
    }
  }

  /** After freevm() of a new directory everything is as before it was made. */
  lemma SetupUndone(s: State, u: State, t: State, o: Owner, q: Owner, d: nat)
    requires Own(s, o) && KeptAll(s, u, o) && Extends(o, q, d) && d !in o && Others(u, t, q, d)
    ensures WithoutDir(q, d) == o && KeptAll(s, t, o)
  {
    hide Entry, Table;
    forall p | p in o ensures p in q && p in WithoutDir(q, d) { assert RoleOk(s, o, p); }
    forall e: nat, x: nat | IsDirectory(o, e) && x < NPAGES ensures Entry(t.mem, e, x) == Entry(s.mem, e, x) {
      assert IsDirectory(q, e);
      assert Entry(u.mem, e, x) == Entry(s.mem, e, x);
    }
    forall p | p in o && o[p].UserOf? && 0 <= p < |s.mem| ensures t.mem[p] == s.mem[p] { assert RoleOk(s, o, p); }
  }

  /** The roles that are left without directory `d`. */
  ghost function WithoutDir(owner: Owner, d: nat): Owner {
    map p | p in owner && p != d && !(owner[p].TableOf? && owner[p].dir == d)
        && !(owner[p].UserOf? && owner[p].dir == d) :: owner[p]
  }

  /** Every other address space is as before, and so is what its pages hold. */
  ghost predicate Others(s: State, s': State, owner: Owner, d: nat) {
    && s'.base == s.base && |s'.mem| == |s.mem|
    && (forall e: nat, u: nat :: IsDirectory(owner, e) && e != d && u < NPAGES ==>
          Entry(s'.mem, e, u) == Entry(s.mem, e, u))
    && (forall p :: p in owner && owner[p].UserOf? && owner[p].dir != d && 0 <= p < |s.mem| ==> s'.mem[p] == s.mem[p])
  }

  /** The tables of `d` for directory entries from `i` on. */
  ghost function TablesLeft(owner: Owner, d: nat, i: nat): set<int> {
    set p | p in owner && owner[p].TableOf? && owner[p].dir == d && owner[p].i >= i
  }

  /** Frames that freevm() has still to give back. */
  ghost predicate Rest(s: State, owner: Owner, left: set<int>) {
    forall p :: p in left ==> Within(s, p) && p !in owner && p !in s.free
  }

  ghost function PoolWith(s: State, owner: Owner, left: set<int>): set<int> {
    Pool(s, owner) + left
  }

  lemma PoolAlone(s: State, owner: Owner)
    ensures PoolWith(s, owner, {}) == Pool(s, owner)
  {
  }

  lemma PagesOfSpace()
    ensures Pages(0) == 0 && Pages(KERNBASE) == USERPAGES
  {
  }

  /** Dropping a directory without user pages from the roles. */
  lemma DropDir(s: State, owner: Owner, d: nat)
    requires Own(s, owner) && IsDirectory(owner, d)
    requires forall p :: p in owner && owner[p].UserOf? ==> owner[p].dir != d
    ensures Own(s, WithoutDir(owner, d))
  {
    hide Entry, Table;
    var x := WithoutDir(owner, d);
    forall e: nat, i: nat | IsDirectory(x, e) && i < NENTRIES
      ensures TableOk(s, x, e, i)
    {
      assert TableOk(s, owner, e, i);
    }
    forall e: nat, v: nat | IsDirectory(x, e) && v < USERPAGES
      ensures UserOk(s, x, e, v)
    {
      assert UserOk(s, owner, e, v);
    }
    forall p | p in x ensures RoleOk(s, x, p) { assert RoleOk(s, owner, p); }
  }

  lemma FreevmStart(s: State, t: State, o: Owner, d: nat)
    requires Own(s, o) && IsDirectory(o, d) && Released(s, t, o, d, 0, USERPAGES)
    ensures var p, x := Minus(o, d, 0, USERPAGES), WithoutDir(o, d);
            && Own(t, p) && IsDirectory(p, d) && Own(t, x) && Others(s, t, o, d) && d < |t.mem|
                && |t.mem[d]| == NENTRIES
            && Rest(t, x, TablesLeft(p, d, 0) + {d}) && PoolWith(t, x, TablesLeft(p, d, 0) + {d}) == Pool(s, o)
  {
    var p, x := Minus(o, d, 0, USERPAGES), WithoutDir(o, d);
    forall q | q in o ensures RoleOk(s, o, q) {}
    assert IsDirectory(p, d);
    assert WithoutDir(p, d) == x;
    DropDir(t, p, d);
    TableRole(t, p, d, 0);
    hide Entry, Table;
    forall q | q in TablesLeft(p, d, 0) + {d}
      ensures Within(t, q) && q !in x && q !in t.free
    {
      assert RoleOk(t, p, q);
    }
    assert p.Keys == x.Keys + TablesLeft(p, d, 0) + {d};
  }

  lemma TableLeft(t: State, p: Owner, d: nat, i: nat)
    requires Own(t, p) && IsDirectory(p, d) && i < NENTRIES
    ensures d < |t.mem| && |t.mem[d]| == NENTRIES
    ensures if Present(t.mem[d][i])
              then Frame(t.mem[d][i]) in TablesLeft(p, d, i) && Frame(t.mem[d][i]) != d
                   && TablesLeft(p, d, i + 1) == TablesLeft(p, d, i) - {Frame(t.mem[d][i])}
              else TablesLeft(p, d, i + 1) == TablesLeft(p, d, i)
  {
    TableRole(t, p, d, i);
    assert TableOk(t, p, d, i);
    forall q | q in TablesLeft(p, d, i) && p[q].i == i ensures Present(t.mem[d][i]) && q == Frame(t.mem[d][i]) {
      assert RoleOk(t, p, q);
    }
  }

  lemma NoTablesLeft(t: State, p: Owner, d: nat)
    requires Own(t, p)
    ensures TablesLeft(p, d, NENTRIES) == {}
  {
    forall q | q in p && p[q].TableOf? ensures p[q].i < NENTRIES { assert RoleOk(t, p, q); }
  }

  /** kfree() of one of the frames to give back. */
  lemma FreeNext(u: State, x: Owner, left: set<int>, v: int, s: State, o: Owner, d: nat)
    requires Own(u, x) && Rest(u, x, left) && v in left && x == WithoutDir(o, d) && Others(s, u, o, d)
    requires IsDirectory(o, d)
    ensures Within(u, v)
    ensures var t := State(u.base, u.mem[v := Junk(NENTRIES)], [v] + u.free);
            && Own(t, x) && Rest(t, x, left - {v}) && PoolWith(t, x, left - {v}) == PoolWith(u, x, left)
                && Others(s, t, o, d)
  {
    hide Junk;
    var t := State(u.base, u.mem[v := Junk(NENTRIES)], [v] + u.free);
    SameTablesOwn(u, t, x);
    hide Entry, Own;
    forall e: nat, y: nat | IsDirectory(o, e) && e != d && y < NPAGES ensures Entry(t.mem, e, y) == Entry(s.mem, e, y) {
      assert IsDirectory(x, e);
      SameEntry(u, t, x, e, y);
      assert Entry(u.mem, e, y) == Entry(s.mem, e, y);
    }
    forall p | p in o && o[p].UserOf? && o[p].dir != d && 0 <= p < |s.mem| ensures t.mem[p] == s.mem[p] {
      if p != d { assert p in x; }
    }
  }

  ghost predicate Unmapped(s: State, d: nat, lo: nat, hi: nat) {
    forall v :: lo <= v < hi ==> !Present(Entry(s.mem, d, v))
  }

  /** Page `v` of `d` is a zeroed page of the user's. */
  ghost predicate Fresh(s: State, d: nat, v: nat) {
    var w := Entry(s.mem, d, v);
    Present(w) && Flags(w) == PTE_P + PTE_W + PTE_U && Within(s, Frame(w)) && s.mem[Frame(w)] == Zeros(NENTRIES)
  }

  ghost predicate FreshPages(s: State, d: nat, lo: nat, hi: nat) {
    forall v :: lo <= v < hi ==> Fresh(s, d, v)
  }

  lemma NoFreshPages(s: State, d: nat, lo: nat)
    ensures FreshPages(s, d, lo, lo)
  {
  }

  lemma UnmappedAt(s: State, d: nat, v: nat, hi: nat)
    requires Unmapped(s, d, v, hi) && v < hi
    ensures !Present(Entry(s.mem, d, v)) && Unmapped(s, d, v + 1, hi)
  {
  }

  lemma FreshMore(t: State, u: State, p: Owner, q: Owner, d: nat, lo: nat, v: nat, m: nat)
    requires Own(t, p) && Own(u, q) && Steady(t, u, p, q) && OnlyEntries(t, u, p, d, v, v + 1) && IsDirectory(p, d)
    requires FreshPages(t, d, lo, v) && lo <= v < USERPAGES
    requires Entry(u.mem, d, v) == Pte(m, PTE_W + PTE_U) && m < |u.mem| && u.mem[m] == Zeros(NENTRIES)
    ensures FreshPages(u, d, lo, v + 1)
  {
    hide Entry, Zeros;
    PteParts(m, PTE_W + PTE_U);
    forall x | lo <= x < v + 1 ensures Fresh(u, d, x) {
      if x < v {
        assert Fresh(t, d, x);
        assert Entry(u.mem, d, x) == Entry(t.mem, d, x);
        assert UserOk(t, p, d, x);
      } else {
        assert IsDirectory(q, d);
        assert UserOk(u, q, d, v) && RoleOk(u, q, m);
      }
    }
  }

  lemma SameWithin(s: State, t: State, m: nat)
    requires Within(s, m) && t.base == s.base && |t.mem| == |s.mem|
    ensures Within(t, m)
  {
  }

  /** Pages `lo` to `hi` - 1 of `d` may have changed, and tables may have been made; all
      other entries and user pages are as before. */
  ghost predicate Changed(s: State, s': State, owner: Owner, owner': Owner, d: nat, lo: nat, hi: nat) {
    && Steady(s, s', Minus(owner, d, lo, hi), owner') && OnlyEntries(s, s', owner, d, lo, hi)
    && Extends(Minus(owner, d, lo, hi), owner', d) && IsDirectory(owner', d)
  }

  /** None of the pages is mapped, and there are frames enough to map them. */
  ghost predicate Growable(s: State, d: nat, lo: nat, hi: nat) {
    Unmapped(s, d, lo, hi) && |s.free| >= Need(s.mem, d, lo, hi)
  }

  lemma MinusUnmapped(s: State, owner: Owner, d: nat, lo: nat, hi: nat)
    requires Own(s, owner) && Unmapped(s, d, lo, hi)
    ensures Minus(owner, d, lo, hi) == owner
  {
    hide Entry;
    forall p | p in owner && owner[p].UserOf? && owner[p].dir == d ensures !(lo <= owner[p].v < hi) {
      assert RoleOk(s, owner, p);
    }
  }

  lemma UndoFacts(s: State, t: State, u: State, o: Owner, p: Owner, q: Owner, d: nat, oldsz: nat, newsz: nat)
    requires Own(s, o) && Own(t, p) && Steady(s, t, o, p) && OnlyEntries(s, t, o, d, Pages(oldsz), Pages(newsz))
    requires oldsz <= newsz < KERNBASE
    requires IsDirectory(o, d) && Extends(o, p, d)
    requires oldsz == newsz ==> u == t && q == p
    requires oldsz < newsz ==>
              Released(t, u, p, d, Pages(oldsz), Pages(newsz)) && q == Minus(p, d, Pages(oldsz), Pages(newsz))
    ensures Own(u, q) && Pool(u, q) == Pool(t, p) && u.base == t.base && |u.mem| == |t.mem|
    ensures Changed(s, u, o, q, d, Pages(oldsz), Pages(newsz)) && Unmapped(u, d, Pages(oldsz), Pages(newsz))
    ensures IsDirectory(q, d)
  {
    var lo, hi := Pages(oldsz), Pages(newsz);
    PagesMono(oldsz, newsz);
    hide Entry, Pages, Own;
    if oldsz < newsz {
      forall e: nat, x: nat | IsDirectory(o, e) && x < NPAGES && !(e == d && lo <= x < hi)
        ensures Entry(u.mem, e, x) == Entry(s.mem, e, x)
      {
        assert IsDirectory(p, e);
        assert Entry(t.mem, e, x) == Entry(s.mem, e, x);
      }
    } else {
      MinusNone(o, d, lo);
    }
  }

  lemma ChangedOn(s: State, u: State, t: State, o: Owner, q: Owner, d: nat, lo: nat, hi: nat)
    requires Changed(s, u, o, q, d, lo, hi) && Steady(u, t, q, q) && OnlyEntries(u, t, q, d, 0, 0)
    ensures Changed(s, t, o, q, d, lo, hi)
  {
    hide Entry;
    forall e: nat, x: nat | IsDirectory(o, e) && x < NPAGES && !(e == d && lo <= x < hi)
      ensures Entry(t.mem, e, x) == Entry(s.mem, e, x)
    {
      assert IsDirectory(q, e);
      assert Entry(u.mem, e, x) == Entry(s.mem, e, x);
    }
  }

  lemma SameEntryAt(s: State, t: State, owner: Owner, d: nat, lo: nat, v: nat)
    requires OnlyEntries(s, t, owner, d, lo, v) && IsDirectory(owner, d) && v < NPAGES
    ensures Entry(t.mem, d, v) == Entry(s.mem, d, v)
  {
  }

  lemma NeedNothing(m: Memory, d: nat, lo: nat)
    ensures Need(m, d, lo, lo) == 0
  {
  }

  lemma NeedMore(m: Memory, t: Memory, d: nat, lo: nat, v: nat)
    requires lo <= v
    ensures Tables(m, d, lo, v + 1) == Tables(m, d, lo, v) + (if Table(t, d, v / NENTRIES) == 0 then 1 else 0) ==>
              Need(m, d, lo, v + 1) == Need(m, d, lo, v) + 1 + (if Table(t, d, v / NENTRIES) == 0 then 1 else 0)
  {
    hide Tables;
  }

  /** The loop of allocuvm() meets a mapped page: the first one. */
  lemma MappedAt(s: State, d: nat, lo: nat, hi: nat, v: nat)
    requires Unmapped(s, d, lo, v) && lo <= v < hi && Present(Entry(s.mem, d, v)) && |s.free| > Need(s.mem, d, lo, v)
    ensures FirstMapped(s, d, lo, hi, v)
  {
  }

  /** Out of frames at page `v`: neither the whole range nor a mapped page is in reach. */
  lemma NotEnough(s: State, d: nat, lo: nat, hi: nat, v: nat, m: nat)
    requires Unmapped(s, d, lo, v) && lo <= v < hi
    requires |s.free| < Need(s.mem, d, lo, v + 1) && (m != 0 ==> !Present(Entry(s.mem, d, v)))
    requires m == 0 ==> |s.free| == Need(s.mem, d, lo, v)
    ensures !Growable(s, d, lo, hi)
    ensures forall u :: FirstMapped(s, d, lo, hi, u) ==> |s.free| <= Need(s.mem, d, lo, u)
  {
    hide Entry, Need;
    NeedMono(s.mem, d, lo, v + 1, hi);
    forall u: nat | FirstMapped(s, d, lo, hi, u) ensures |s.free| <= Need(s.mem, d, lo, u) {
      if u >= v + 1 { NeedMono(s.mem, d, lo, v + 1, u); }
    }
  }

  lemma Enough(s: State, t: State, o: Owner, p: Owner, d: nat, lo: nat, hi: nat)
    requires Own(s, o) && Unmapped(s, d, lo, hi) && |s.free| == |t.free| + Need(s.mem, d, lo, hi)
    requires Steady(s, t, o, p) && OnlyEntries(s, t, o, d, lo, hi) && Extends(o, p, d) && IsDirectory(o, d)
    ensures Growable(s, d, lo, hi) && Changed(s, t, o, p, d, lo, hi)
    ensures forall u :: !FirstMapped(s, d, lo, hi, u)
  {
    MinusUnmapped(s, o, d, lo, hi);
    hide Entry, Need, Own;
  }

  lemma OnlyTwo(s: State, t: State, u: State, o: Owner, p: Owner, d: nat, lo: nat, v: nat, hi: nat)
    requires OnlyEntries(s, t, o, d, lo, v) && OnlyEntries(t, u, p, d, v, v) && lo <= v <= hi
    requires Steady(s, t, o, p)
    ensures OnlyEntries(s, u, o, d, lo, hi)
  {
    hide Entry;
    forall e: nat, x: nat | IsDirectory(o, e) && x < NPAGES && !(e == d && lo <= x < hi)
      ensures Entry(u.mem, e, x) == Entry(s.mem, e, x)
    {
      assert IsDirectory(p, e);
      assert Entry(t.mem, e, x) == Entry(s.mem, e, x);
    }
  }

  lemma FreePool(s: State, owner: Owner, m: nat)
    ensures m in s.free ==> m in Pool(s, owner)
  {
  }

  lemma FreeInPool(s: State, owner: Owner, m: nat)
    ensures m in s.free ==> Pool(s, owner) - {m} + {m} == Pool(s, owner)
  {
  }

  lemma SpareAway(s: State, owner: Owner, m: nat)
    ensures Spare(s, owner, m) ==> Within(s, m) && m !in Pool(s, owner)
  {
  }

  lemma PoolBack(s: State, t: State, owner: Owner, m: nat)
    requires Pool(t, owner) == Pool(s, owner) - {m} && m in Pool(s, owner)
    ensures PoolAnd(t, owner, m, 1) == Pool(s, owner) && PoolAnd(t, owner, m, 0) == Pool(t, owner)
  {
    PoolAndMore(t, owner, m, 0);
  }

  lemma UserFrame(s: State, owner: Owner, d: nat, v: nat)
    requires Own(s, owner) && IsDirectory(owner, d) && v < USERPAGES && Present(Entry(s.mem, d, v))
    ensures Within(s, Frame(Entry(s.mem, d, v)))
  {
    assert UserOk(s, owner, d, v);
    assert RoleOk(s, owner, Frame(Entry(s.mem, d, v)));
  }

  /** Which pages mappages() can find mapped, or without a table. */
  lemma OutcomeFacts(s: State, d: nat, v: nat)
    ensures Unmapped(s, d, v, v + 1) ==> !Present(Entry(s.mem, d, v))
    ensures NewTable(s.mem, d, v, v) ==> !Present(Entry(s.mem, d, v))
  {
  }

  lemma TablesOne(m: Memory, d: nat, v: nat)
    ensures NewTable(m, d, v, v) <==> Table(m, d, v / NENTRIES) == 0
    ensures Tables(m, d, v, v) == 0 && Tables(m, d, v, v + 1) == if Table(m, d, v / NENTRIES) == 0 then 1 else 0
  {
  }

  lemma FreedRole(s: State, t: State, owner: Owner, m: nat)
    requires Own(s, owner) && Within(s, m) && m !in Pool(s, owner)
    requires t == State(s.base, s.mem[m := Junk(NENTRIES)], [m] + s.free)
    ensures Own(t, owner) && Pool(t, owner) == Pool(s, owner) + {m}
  {
    hide Junk;
    SameTablesOwn(s, t, owner);
  }

  /** kfree() of a frame that is not in use. */
  lemma FreedFrame(s: State, t: State, owner: Owner, m: nat, d: nat, lo: nat, hi: nat)
    requires Own(s, owner) && Within(s, m) && m !in Pool(s, owner) && hi <= NPAGES && IsDirectory(owner, d)
    requires t == State(s.base, s.mem[m := Junk(NENTRIES)], [m] + s.free)
    ensures Own(t, owner) && Pool(t, owner) == Pool(s, owner) + {m}
    ensures Steady(s, t, owner, owner) && OnlyEntries(s, t, owner, d, 0, 0)
    ensures Unmapped(s, d, lo, hi) ==> Unmapped(t, d, lo, hi)
  {
    hide Junk;
    SameTablesOwn(s, t, owner);
    hide Entry, Own;
    forall e: nat, u: nat | IsDirectory(owner, e) && u < NPAGES ensures Entry(t.mem, e, u) == Entry(s.mem, e, u) {
      SameEntry(s, t, owner, e, u);
    }
  }

  lemma PageAddr(v: nat)
    ensures v * PGSIZE / PGSIZE == v && (v * PGSIZE + PGSIZE - 1) / PGSIZE == v
    ensures v < USERPAGES ==> v * PGSIZE + PGSIZE <= KERNBASE
  {
  }

  /** A frame taken off the free list and filled: nothing that is in use changed. */
  lemma FilledFrame(s: State, t: State, owner: Owner, d: nat, m: nat, v: nat)
    requires Own(s, owner) && s.free == [m] + t.free && m < |s.mem| && m !in t.free && m !in owner
    requires t.base == s.base && |t.mem| == |s.mem| && |t.mem[m]| == NENTRIES
    requires forall p :: 0 <= p < |s.mem| && p != m ==> t.mem[p] == s.mem[p]
    ensures Own(t, owner) && Steady(s, t, owner, owner) && OnlyEntries(s, t, owner, d, v, v)
    ensures Pool(t, owner) == Pool(s, owner) - {m} && m in Pool(s, owner)
    ensures IsDirectory(owner, d) && v < NPAGES ==> Entry(t.mem, d, v) == Entry(s.mem, d, v)
    ensures IsDirectory(owner, d) ==> TablesMade(s.mem, t.mem, d, v, v)
  {
    forall k | 0 <= k < |t.free| ensures t.free[k] == s.free[k + 1] {}
    SameTablesOwn(s, t, owner);
    if IsDirectory(owner, d) {
      forall i: nat | i < NENTRIES ensures Table(t.mem, d, i) == Table(s.mem, d, i) { TableRole(s, owner, d, i); }
    }
    hide Entry, Own;
    forall e: nat, u: nat | IsDirectory(owner, e) && u < NPAGES ensures Entry(t.mem, e, u) == Entry(s.mem, e, u) {
      SameEntry(s, t, owner, e, u);
    }
  }

  lemma PagesLess(v: nat, sz: nat)
    ensures v * PGSIZE < sz <==> v < Pages(sz)
  {
  }

  lemma PagesMono(a: nat, b: nat)
    requires a <= b
    ensures Pages(a) <= Pages(b) && (b <= KERNBASE ==> Pages(b) <= USERPAGES)
  {
  }

  lemma SkipStep(s: State, owner: Owner, o: Owner, d: nat, lo: nat, v: nat, hi: nat)
    requires Own(s, owner) && IsDirectory(owner, d) && Table(s.mem, d, v / NENTRIES) == 0
    requires lo <= v < hi <= USERPAGES && owner == Minus(o, d, lo, v)
    ensures var w := (v / NENTRIES + 1) * NENTRIES;
            && v < w <= USERPAGES && Sweep(s, d, v, hi) == Sweep(s, d, w, hi)
            && owner == Minus(o, d, lo, if w < hi then w else hi)
  {
    hide Own, Table, Sweep, Minus;
    var w := (v / NENTRIES + 1) * NENTRIES;
    var next := if w < hi then w else hi;
    SkipTable(s, d, v, next, hi);
    SkipOwner(s, owner, o, d, lo, v, next);
    SweepDone(s, d, next, w, hi);
  }

  lemma SteadySame(s: State, owner: Owner, d: nat, v: nat)
    ensures Steady(s, s, owner, owner) && OnlyEntries(s, s, owner, d, v, v)
  {
  }

  lemma OnlyWider(s: State, t: State, owner: Owner, d: nat, lo: nat, mid: nat, hi: nat)
    requires OnlyEntries(s, t, owner, d, lo, mid) && mid <= hi
    ensures OnlyEntries(s, t, owner, d, lo, hi)
  {
    hide Entry;
  }

  lemma SteadyTwice(s: State, t: State, u: State, o: Owner, p: Owner, q: Owner)
    requires Steady(s, t, o, p) && Steady(t, u, p, q)
    ensures Steady(s, u, o, q) && (forall e :: IsDirectory(o, e) <==> IsDirectory(q, e))
  {
  }

  lemma MapMore(s: State, t: State, u: State, o: Owner, p: Owner, q: Owner, d: nat, lo: nat, a: nat)
    requires Steady(s, t, o, p) && Steady(t, u, p, q) && lo <= a < NPAGES && IsDirectory(o, d)
    requires OnlyEntries(s, t, o, d, lo, a) && OnlyEntries(t, u, p, d, a, a + 1)
    ensures Steady(s, u, o, q) && OnlyEntries(s, u, o, d, lo, a + 1) && IsDirectory(q, d)
    ensures forall x :: lo <= x < a ==> Entry(u.mem, d, x) == Entry(t.mem, d, x)
  {
    hide Entry;
    SteadyTwice(s, t, u, o, p, q);
    forall e: nat, x: nat | IsDirectory(o, e) && x < NPAGES && !(e == d && lo <= x < a + 1)
      ensures Entry(u.mem, e, x) == Entry(s.mem, e, x)
    {
      assert IsDirectory(p, e);
      assert Entry(t.mem, e, x) == Entry(s.mem, e, x);
    }
    assert IsDirectory(p, d);
  }

  lemma MinusNone(owner: Owner, d: nat, v: nat)
    ensures Minus(owner, d, v, v) == owner
  {
  }

  lemma SweepDone(s: State, d: nat, a: nat, b: nat, hi: nat)
    requires a == b || (a >= hi && b >= hi)
    ensures Sweep(s, d, a, hi) == Sweep(s, d, b, hi) && (a >= hi ==> Sweep(s, d, a, hi) == s)
  {
  }

  lemma SkipOwner(s: State, owner: Owner, o: Owner, d: nat, lo: nat, v: nat, next: nat)
    requires Own(s, owner) && IsDirectory(owner, d) && Table(s.mem, d, v / NENTRIES) == 0
    requires lo <= v <= next <= (v / NENTRIES + 1) * NENTRIES && owner == Minus(o, d, lo, v)
    ensures owner == Minus(o, d, lo, next)
  {
    forall p | p in owner && owner[p].UserOf? && owner[p].dir == d ensures !(v <= owner[p].v < next) {
      assert RoleOk(s, owner, p);
    }
  }

  lemma SweepNext(s: State, owner: Owner, o: Owner, d: nat, lo: nat, v: nat, hi: nat)
    requires Own(s, owner) && IsDirectory(owner, d) && lo <= v < hi && v < USERPAGES && owner == Minus(o, d, lo, v)
    requires Table(s.mem, d, v / NENTRIES) != 0
    ensures Sweep(s, d, v, hi) == Sweep(Swept(s, d, v), d, v + 1, hi) && Own(Swept(s, d, v), Minus(owner, d, v, v + 1))
    ensures Minus(owner, d, v, v + 1) == Minus(o, d, lo, v + 1) && IsDirectory(Minus(owner, d, v, v + 1), d)
  {
    hide Own, Table, Swept;
    SweepStep(s, owner, o, d, lo, v, hi);
  }

  lemma SweepStep(s: State, owner: Owner, o: Owner, d: nat, lo: nat, v: nat, hi: nat)
    requires Own(s, owner) && IsDirectory(owner, d) && lo <= v < hi && v < USERPAGES && owner == Minus(o, d, lo, v)
    requires Table(s.mem, d, v / NENTRIES) != 0
    ensures var t := Table(s.mem, d, v / NENTRIES);
            && 0 <= t < |s.mem| && |s.mem[t]| == NENTRIES
            && var w := s.mem[t][v % NENTRIES];
               var s' := Swept(s, d, v);
               && (if Present(w) then Within(s, Frame(w)) && Frame(w) != t
                     && s' == State(s.base, s.mem[Frame(w) := Junk(NENTRIES)][t := s.mem[t][v % NENTRIES := 0]],
                                    [Frame(w)] + s.free)
                   else s' == s)
               && Sweep(s, d, v, hi) == Sweep(s', d, v + 1, hi) && Own(s', Minus(owner, d, v, v + 1))
    ensures Minus(owner, d, v, v + 1) == Minus(o, d, lo, v + 1) && IsDirectory(Minus(owner, d, v, v + 1), d)
  {
    TableRole(s, owner, d, v / NENTRIES);
    SweptReleases(s, owner, d, v);
    hide Own;
    if Present(Entry(s.mem, d, v)) { PageFreedOwn(s, owner, d, v); }
  }

  /** How many of the pages `lo` to `hi` - 1 are below KERNBASE. */
  function UserPart(lo: nat, hi: nat): nat {
    if hi <= lo || lo >= USERPAGES then 0 else if hi <= USERPAGES then hi - lo else USERPAGES - lo
  }

  lemma AbsentEntry(s: State, d: nat, v: nat)
    ensures Table(s.mem, d, v / NENTRIES) == 0 ==> !Present(Entry(s.mem, d, v))
  {
  }

  lemma EntryAt(s: State, owner: Owner, d: nat, v: nat)
    requires Own(s, owner) && IsDirectory(owner, d) && v < NPAGES && Table(s.mem, d, v / NENTRIES) != 0
    ensures var t := Table(s.mem, d, v / NENTRIES);
            0 <= t < |s.mem| && |s.mem[t]| == NENTRIES && s.mem[t][v % NENTRIES] == Entry(s.mem, d, v)
  {
    TableRole(s, owner, d, v / NENTRIES);
  }

  lemma EntrySetMade(m: Memory, s: State, owner: Owner, d: nat, v: nat, w: int)
    requires Own(s, owner) && IsDirectory(owner, d) && v < NPAGES && Table(s.mem, d, v / NENTRIES) != 0
    ensures 0 <= Table(s.mem, d, v / NENTRIES) < |s.mem| && |s.mem[Table(s.mem, d, v / NENTRIES)]| == NENTRIES
    ensures TablesMade(m, s.mem, d, v, v + 1) ==> TablesMade(m, EntrySet(s, d, v, w).mem, d, v, v + 1)
  {
    TableRole(s, owner, d, v / NENTRIES);
    forall i: nat | i < NENTRIES ensures Table(EntrySet(s, d, v, w).mem, d, i) == Table(s.mem, d, i) {
      TableRole(s, owner, d, i);
    }
  }

  lemma NothingUnmapped(s: State, d: nat, v: nat)
    ensures Unmapped(s, d, v, v)
  {
  }

  lemma UnmappedMore(s: State, d: nat, lo: nat, v: nat)
    requires Unmapped(s, d, lo, v) && !Present(Entry(s.mem, d, v))
    ensures Unmapped(s, d, lo, v + 1)
  {
  }

  /** Frames that nobody used hold what they held, and have at most become user pages. */
  ghost predicate SparesKept(s: State, s': State, owner: Owner, owner': Owner) {
    forall f :: Spare(s, owner, f) ==>
      f < |s'.mem| && s'.mem[f] == s.mem[f] && (Spare(s', owner', f) || (f in owner' && owner'[f].UserOf?))
  }

  /** The frames accounted for, and `n` more from `f0` on. */
  ghost function PoolAnd(s: State, owner: Owner, f0: nat, n: nat): set<int> {
    Pool(s, owner) + Range(f0, f0 + n)
  }

  lemma PoolAndMore(s: State, owner: Owner, f0: nat, n: nat)
    ensures PoolAnd(s, owner, f0, 0) == Pool(s, owner)
    ensures PoolAnd(s, owner, f0, n + 1) == PoolAnd(s, owner, f0, n) + {f0 + n}
  {
    hide Pool;
  }

  /** Pages `first` to `a` - 1 of `d` have been mapped to the frames from `f0` on. */
  ghost predicate MapInv(s: State, t: State, o: Owner, p: Owner, d: nat, first: nat, a: nat, f0: nat, perm: nat) {
    && Steady(s, t, o, p) && OnlyEntries(s, t, o, d, first, a) && Extends(o, p, d)
    && Pool(t, p) == PoolAnd(s, o, f0, UserPart(first, a))
    && (forall u :: first <= u < a ==> Entry(t.mem, d, u) == Pte(f0 + (u - first), perm))
    && Unmapped(s, d, first, a) && TablesMade(s.mem, t.mem, d, first, a)
        && |t.free| == |s.free| - Tables(s.mem, d, first, a)
    && SparesKept(s, t, o, p)
  }

  lemma MapStart(s: State, o: Owner, d: nat, a: nat, f0: nat, perm: nat)
    ensures MapInv(s, s, o, o, d, a, a, f0, perm)
  {
    hide Pool, PoolAnd, Entry, Table, Pte;
    PoolAndMore(s, o, f0, 0);
  }

  lemma MapInvFacts(s: State, t: State, o: Owner, p: Owner, d: nat, first: nat, a: nat, f0: nat, perm: nat)
    requires MapInv(s, t, o, p, d, first, a, f0, perm) && first <= a <= NPAGES && IsDirectory(o, d)
    ensures Steady(s, t, o, p) && OnlyEntries(s, t, o, d, first, a) && Extends(o, p, d)
    ensures Pool(t, p) == PoolAnd(s, o, f0, UserPart(first, a))
    ensures forall u :: first <= u < a ==> Entry(t.mem, d, u) == Pte(f0 + (u - first), perm)
    ensures Unmapped(s, d, first, a) && TablesMade(s.mem, t.mem, d, first, a)
    ensures |t.free| == |s.free| - Tables(s.mem, d, first, a)
    ensures SparesKept(s, t, o, p)
    ensures a < NPAGES ==>
              Entry(t.mem, d, a) == Entry(s.mem, d, a)
                  && (Table(t.mem, d, a / NENTRIES) == 0 <==> NewTable(s.mem, d, first, a))
  {
    hide Entry, Table, Pool, PoolAnd, Tables, Pte;
    if a < NPAGES { TablesMore(s.mem, t.mem, t.mem, d, first, a); }
  }

  lemma MapInvMore(s: State, t: State, u: State, o: Owner, p: Owner, q: Owner, d: nat, first: nat, a: nat, f0: nat,
                   perm: nat)
    requires MapInv(s, t, o, p, d, first, a, f0, perm) && first <= a < NPAGES && IsDirectory(o, d)
    requires !Present(Entry(t.mem, d, a)) && Entry(u.mem, d, a) == Pte(f0 + (a - first), perm)
    requires Steady(t, u, p, q) && OnlyEntries(t, u, p, d, a, a + 1) && Extends(p, q, d) && SparesKept(t, u, p, q)
    requires Pool(u, q) == Pool(t, p) + (if a < USERPAGES then {f0 + (a - first)} else {})
    requires TablesMade(t.mem, u.mem, d, a, a + 1)
    requires |u.free| == |t.free| - (if Table(t.mem, d, a / NENTRIES) == 0 then 1 else 0)
    ensures MapInv(s, u, o, q, d, first, a + 1, f0, perm) && IsDirectory(q, d)
  {
    hide Entry, Table, Pool, PoolAnd, Tables, Pte, Steady, TablesMade, SparesKept, Extends, OnlyEntries, Unmapped;
    MapInvFacts(s, t, o, p, d, first, a, f0, perm);
    TablesMore(s.mem, t.mem, u.mem, d, first, a);
    SparesTwice(s, t, u, o, p, q);
    MapMore(s, t, u, o, p, q, d, first, a);
    ExtendsTwice(o, p, q, d);
    UnmappedMore(s, d, first, a);
    PoolAndMore(s, o, f0, UserPart(first, a));
  }

  lemma SpareKept(s: State, t: State, o: Owner, p: Owner, f: nat)
    requires SparesKept(s, t, o, p) && Spare(s, o, f)
    ensures f < |t.mem| && t.mem[f] == s.mem[f]
  {
  }

  lemma SparesTwice(s: State, t: State, u: State, o: Owner, p: Owner, q: Owner)
    requires SparesKept(s, t, o, p) && SparesKept(t, u, p, q) && Steady(t, u, p, q)
    ensures SparesKept(s, u, o, q)
  {
  }

  lemma MapPageFacts(s: State, t: State, owner: Owner, owner': Owner, d: nat, v: nat)
    requires OnlyEntries(s, t, owner, d, 0, 0) && IsDirectory(owner, d) && v < NPAGES && Steady(s, t, owner, owner')
    ensures Entry(t.mem, d, v) == Entry(s.mem, d, v) && IsDirectory(owner', d)
  {
  }

  lemma EntrySetOnly(s: State, owner: Owner, d: nat, v: nat, w: int)
    requires Own(s, owner) && IsDirectory(owner, d) && v < NPAGES && Table(s.mem, d, v / NENTRIES) != 0
    ensures 0 <= Table(s.mem, d, v / NENTRIES) < |s.mem| && |s.mem[Table(s.mem, d, v / NENTRIES)]| == NENTRIES
    ensures OnlyEntries(s, EntrySet(s, d, v, w), owner, d, v, v + 1) && Entry(EntrySet(s, d, v, w).mem, d, v) == w
    ensures forall p :: p in owner && owner[p].UserOf? && 0 <= p < |s.mem| ==> EntrySet(s, d, v, w).mem[p] == s.mem[p]
    ensures forall p :: p !in owner && 0 <= p < |s.mem| ==> EntrySet(s, d, v, w).mem[p] == s.mem[p]
  {
    TableRole(s, owner, d, v / NENTRIES);
    forall e: nat, u: nat | IsDirectory(owner, e) && u < NPAGES
      ensures Entry(EntrySet(s, d, v, w).mem, e, u) == if e == d && u == v then w else Entry(s.mem, e, u)
    {
      EntrySetEntry(s, owner, d, v, w, e, u);
    }
  }

  lemma OnlyTwice(s: State, t: State, u: State, owner: Owner, owner': Owner, d: nat, lo: nat, hi: nat)
    requires OnlyEntries(s, t, owner, d, 0, 0) && OnlyEntries(t, u, owner', d, lo, hi)
    requires forall e :: IsDirectory(owner, e) ==> IsDirectory(owner', e)
    ensures OnlyEntries(s, u, owner, d, lo, hi)
  {
    forall e: nat, x: nat | IsDirectory(owner, e) && x < NPAGES && !(e == d && lo <= x < hi)
      ensures Entry(u.mem, e, x) == Entry(s.mem, e, x)
    {
      assert IsDirectory(owner', e);
      assert Entry(t.mem, e, x) == Entry(s.mem, e, x);
    }
  }

  // ------------------------------------------------------------ what growing costs

  /** What mappages() comes to; "remap" is the kernel's panic. */
  datatype Mapping = Mapped | NoMemory | Remap

  /** A frame that nobody uses and that is not on the free list. */
  predicate Spare(s: State, owner: Owner, f: int) {
    Within(s, f) && f !in owner && f !in s.free
  }

  /** Of the tables of `d`, exactly those for pages `lo` to `hi` - 1 that were missing have been made. */
  ghost predicate TablesMade(m: Memory, m': Memory, d: nat, lo: nat, hi: nat) {
    forall i: nat :: i < NENTRIES ==>
      (Table(m', d, i) == 0 <==> Table(m, d, i) == 0 && !(lo < hi && lo / NENTRIES <= i <= (hi - 1) / NENTRIES))
  }

  /** Mapping pages from `lo` on makes a table at page `v`. */
  predicate NewTable(m: Memory, d: nat, lo: nat, v: nat) {
    Table(m, d, v / NENTRIES) == 0 && (v == lo || v % NENTRIES == 0)
  }

  function Tables(m: Memory, d: nat, lo: nat, hi: nat): nat
    decreases hi
  {
    if hi <= lo then 0 else Tables(m, d, lo, hi - 1) + (if NewTable(m, d, lo, hi - 1) then 1 else 0)
  }

  /** The frames it takes to map pages `lo` to `hi` - 1: one each, and the missing tables. */
  function Need(m: Memory, d: nat, lo: nat, hi: nat): nat {
    (if lo < hi then hi - lo else 0) + Tables(m, d, lo, hi)
  }

  lemma {:induction false} NeedMono(m: Memory, d: nat, lo: nat, a: nat, b: nat)
    requires lo <= a <= b
    ensures Need(m, d, lo, a) + (b - a) <= Need(m, d, lo, b)
    decreases b
  {
    if a < b { NeedMono(m, d, lo, a, b - 1); }
  }

  lemma TablesMore(m: Memory, t: Memory, u: Memory, d: nat, lo: nat, v: nat)
    requires lo <= v < NPAGES && TablesMade(m, t, d, lo, v)
    ensures Table(t, d, v / NENTRIES) == 0 <==> NewTable(m, d, lo, v)
    ensures TablesMade(t, u, d, v, v + 1) ==> TablesMade(m, u, d, lo, v + 1)
    ensures Tables(m, d, lo, v + 1) == Tables(m, d, lo, v) + (if Table(t, d, v / NENTRIES) == 0 then 1 else 0)
  {
    hide Table;
  }

  lemma {:induction false} TablesMono(m: Memory, d: nat, lo: nat, a: nat, b: nat)
    requires a <= b
    ensures Tables(m, d, lo, a) <= Tables(m, d, lo, b) <= Tables(m, d, lo, a) + (b - a)
    decreases b
  {
    if a < b { TablesMono(m, d, lo, a, b - 1); }
  }

  /** With the tables of the range there up to number `a` and missing from it on, the
      missing ones are counted once each. */
  lemma {:induction false} TablesCounted(m: Memory, d: nat, lo: nat, hi: nat, a: nat)
    requires lo < hi && lo / NENTRIES <= a
    requires forall i: nat :: lo / NENTRIES <= i <= (hi - 1) / NENTRIES ==> (Table(m, d, i) == 0 <==> i >= a)
    ensures Tables(m, d, lo, hi) == if a <= (hi - 1) / NENTRIES then (hi - 1) / NENTRIES + 1 - a else 0
    decreases hi
  {
    hide Table;
    assert Tables(m, d, lo, hi) == Tables(m, d, lo, hi - 1) + (if NewTable(m, d, lo, hi - 1) then 1 else 0);
    if lo == hi - 1 {
      assert Tables(m, d, lo, lo) == 0;
    } else {
      TablesCounted(m, d, lo, hi - 1, a);
    }
  }

  lemma NoTablesMade(m: Memory, d: nat, v: nat)
    ensures TablesMade(m, m, d, v, v) && Tables(m, d, v, v) == 0
  {
  }

  /** Page `u` is the first mapped one from `lo` on. */
  ghost predicate FirstMapped(s: State, d: nat, lo: nat, hi: nat, u: nat) {
    lo <= u < hi && Present(Entry(s.mem, d, u)) && Unmapped(s, d, lo, u)
  }

  // ------------------------------------------------------------ how much fits into memory

  ghost function UserFrames(s: State, d: nat, lo: nat, hi: nat): set<int>
    decreases hi
  {
    if hi <= lo then {} else UserFrames(s, d, lo, hi - 1) + {Frame(Entry(s.mem, d, hi - 1))}
  }

  lemma {:induction false} UserFramesCounted(s: State, owner: Owner, d: nat, lo: nat, hi: nat)
    requires Own(s, owner) && IsDirectory(owner, d) && lo <= hi <= USERPAGES
    requires forall v :: lo <= v < hi ==> Present(Entry(s.mem, d, v))
    ensures |UserFrames(s, d, lo, hi)| == hi - lo
    ensures forall p :: p in UserFrames(s, d, lo, hi) ==>
              p in owner && owner[p].UserOf? && lo <= owner[p].v < hi && Within(s, p)
    decreases hi
  {
    if lo < hi {
      UserFramesCounted(s, owner, d, lo, hi - 1);
      hide Entry, Table;
      var f := Frame(Entry(s.mem, d, hi - 1));
      assert UserOk(s, owner, d, hi - 1);
      assert RoleOk(s, owner, f);
      assert f !in UserFrames(s, d, lo, hi - 1);
    }
  }

  /** Two mapped ranges of a space, the free frames and the directory itself fit into memory. */
  lemma FramesFit(s: State, owner: Owner, d: nat, lo: nat, hi: nat)
    requires Own(s, owner) && IsDirectory(owner, d) && lo <= hi <= USERPAGES
    requires forall v :: 0 <= v < lo || hi <= v < USERPAGES ==> Present(Entry(s.mem, d, v))
    ensures lo + (USERPAGES - hi) + |s.free| + 1 < |s.mem|
  {
    hide Own, Entry, Table, Present, UserFrames;
    var low, high := UserFrames(s, d, 0, lo), UserFrames(s, d, hi, USERPAGES);
    UserFramesCounted(s, owner, d, 0, lo);
    UserFramesCounted(s, owner, d, hi, USERPAGES);
    FreeCounted(s, owner);
    DirWithin(s, owner, d);
    forall p | p in low ensures p !in high && p !in ToSet(s.free) { assert owner[p].v < lo; }
    FourFit(|s.mem|, low, high, ToSet(s.free), d);
  }

  lemma DirWithin(s: State, owner: Owner, d: nat)
    requires Own(s, owner) && IsDirectory(owner, d)
    ensures Within(s, d)
  {
    assert RoleOk(s, owner, d);
  }

  lemma FreeCounted(s: State, owner: Owner)
    requires Own(s, owner)
    ensures |ToSet(s.free)| == |s.free|
    ensures forall f :: f in s.free ==> Within(s, f) && f !in owner
  {
    hide Entry, Table;
    DistinctSize(s.free);
  }

  lemma FourFit(n: nat, a: set<int>, b: set<int>, c: set<int>, d: int)
    requires a !! b && a !! c && b !! c && d !in a && d !in b && d !in c
    requires 0 < d < n && forall x :: x in a || x in b || x in c ==> 0 < x < n
    ensures |a| + |b| + |c| + 1 < n
  {
    var all := a + b + c + {d};
    assert |all| == |a + b + c| + 1;
    SubsetSize(all, Range(1, n));
  }

  // ------------------------------------------------------------ what setupkvm() and copyuvm() take

  const USERTABLES := 512         // page tables below KERNBASE
  const DEVTABLE := 1016          // the first table of DEVSPACE
  const KERNEL_FRAMES := 65       // a directory, 56 tables up to PHYSTOP and 8 for devices

  /** The tables up to PHYSTOP that the first `k` of the kernel's mappings need. */
  function KernelTables(data: nat, k: nat): nat {
    if k == 0 then 0 else if k == 1 then 1 else if k == 2 then (data + NENTRIES - 1) / NENTRIES else 56
  }

  /** A new directory has exactly the tables of the first `k` of the kernel's mappings. */
  ghost predicate KernelTablesOnly(m: Memory, d: nat, data: nat, k: nat) {
    forall i: nat :: i < NENTRIES ==>
      (Table(m, d, i) != 0 <==> USERTABLES <= i < USERTABLES + KernelTables(data, k) || (k > 3 && i >= DEVTABLE))
  }

  /** The frames taken after the first `k` mappings. */
  function KernelTaken(data: nat, k: nat): nat {
    1 + KernelTables(data, k) + (if k > 3 then NENTRIES - DEVTABLE else 0)
  }

  lemma KernelTablesMore(m: Memory, u: Memory, d: nat, data: nat, k: nat)
    requires EXTPAGES < data < PHYSPAGES && k < 4 && KernelTablesOnly(m, d, data, k)
    ensures var x := KmapAt(data, k);
            && Tables(m, d, x.virt, x.virt + x.size) == KernelTaken(data, k + 1) - KernelTaken(data, k)
            && (TablesMade(m, u, d, x.virt, x.virt + x.size) ==> KernelTablesOnly(u, d, data, k + 1))
  {
    hide Table;
    var x := KmapAt(data, k);
    KernelTableRange(data, k);
    TablesCounted(m, d, x.virt, x.virt + x.size, if k < 3 then USERTABLES + KernelTables(data, k) else DEVTABLE);
  }

  lemma KernelTakenMono(data: nat, k: nat)
    requires data < PHYSPAGES && k <= 4
    ensures 1 == KernelTaken(data, 0) && KernelTaken(data, k) <= KERNEL_FRAMES == KernelTaken(data, 4)
  {
  }

  lemma TableMissing(m: Memory, d: nat, lo: nat, v: nat, hi: nat)
    requires lo <= v < hi && NewTable(m, d, lo, v)
    ensures Tables(m, d, lo, v) < Tables(m, d, lo, hi)
  {
    TablesMono(m, d, lo, v + 1, hi);
  }

  lemma KernelTableRange(data: nat, k: nat)
    requires EXTPAGES < data < PHYSPAGES && k < 4
    ensures var x := KmapAt(data, k);
            && (k < 3 ==> x.virt / NENTRIES <= USERTABLES + KernelTables(data, k) && x.virt / NENTRIES >= USERTABLES
                          && (x.virt + x.size - 1) / NENTRIES == USERTABLES + KernelTables(data, k + 1) - 1)
            && (k == 3 ==> x.virt / NENTRIES == DEVTABLE && (x.virt + x.size - 1) / NENTRIES == NENTRIES - 1)
            && x.size > 0 && KernelTables(data, k) <= KernelTables(data, k + 1) <= 56
  {
  }

  /** Page number `j` in the order of copyuvm(): the heap of `n` pages, then the stack from
      the top down. */
  function CopyPageAt(n: nat, j: nat): int {
    if j < n then j else USERPAGES - 1 - (j - n)
  }

  /** After `j` pages the copy has table `i`. */
  predicate CopyTable(n: nat, j: nat, i: nat) {
    (i * NENTRIES < j && i * NENTRIES < n) || (j > n && (USERPAGES - (j - n)) / NENTRIES <= i < USERTABLES)
  }

  predicate CopyOpens(n: nat, j: nat) {
    0 <= CopyPageAt(n, j) && !CopyTable(n, j, CopyPageAt(n, j) / NENTRIES)
  }

  /** The frames that the first `j` pages of a copy take: one each, and one for each table. */
  function CopyNeed(n: nat, j: nat): nat {
    if j == 0 then 0 else CopyNeed(n, j - 1) + 1 + (if CopyOpens(n, j - 1) then 1 else 0)
  }

  lemma {:induction false} CopyNeedMono(n: nat, a: nat, b: nat)
    requires a <= b
    ensures CopyNeed(n, a) + (b - a) <= CopyNeed(n, b)
    decreases b
  {
    if a < b { CopyNeedMono(n, a, b - 1); }
  }

  lemma CopyTableMore(n: nat, j: nat, i: nat)
    requires n <= USERPAGES && j < USERPAGES && i < USERTABLES
    ensures CopyTable(n, j + 1, i) <==> CopyTable(n, j, i) || i == CopyPageAt(n, j) / NENTRIES
  {
  }

  /** The copy `c` has the tables of its first `j` pages. */
  ghost predicate CopyTables(m: Memory, c: nat, n: nat, j: nat) {
    forall i: nat :: i < USERTABLES ==> (Table(m, c, i) != 0 <==> CopyTable(n, j, i))
  }

  lemma CopyTablesMore(m: Memory, u: Memory, c: nat, n: nat, j: nat, v: nat)
    requires n <= USERPAGES && j < USERPAGES && v == CopyPageAt(n, j) < USERPAGES
    requires CopyTables(m, c, n, j) && TablesMade(m, u, c, v, v + 1)
    ensures CopyTables(u, c, n, j + 1)
  {
    hide Table, CopyTable, CopyPageAt;
    forall i: nat | i < USERTABLES ensures Table(u, c, i) != 0 <==> CopyTable(n, j + 1, i) { CopyTableMore(n, j, i); }
  }

  /** The frames run out at the table of a page for which a frame has been taken. */
  ghost predicate CopyLoses(free: nat, n: nat, pages: nat) {
    exists j :: 0 <= j < pages && CopyOpens(n, j) && free == CopyNeed(n, j) + 1
  }

  /** A copy stops at page `j`, and loses a frame or not. */
  ghost predicate CopyStops(free: nat, n: nat, j: nat, lost: bool) {
    CopyNeed(n, j) <= free < CopyNeed(n, j + 1) && (lost <==> CopyOpens(n, j) && free == CopyNeed(n, j) + 1)
  }

  ghost predicate CopyFails(free: nat, n: nat, pages: nat, lost: bool) {
    exists j: nat :: j < pages && CopyStops(free, n, j, lost)
  }

  lemma CopyStopsOnce(free: nat, n: nat, j: nat, i: nat, lost: bool)
    requires CopyStops(free, n, j, lost) && CopyOpens(n, i) && free == CopyNeed(n, i) + 1
    ensures i == j
  {
    hide CopyOpens;
    assert CopyNeed(n, i + 1) == CopyNeed(n, i) + 2;
    hide CopyNeed;
    if i < j { CopyNeedMono(n, i + 1, j); } else if i > j { CopyNeedMono(n, j + 1, i); }
  }

  lemma CopyFailed(free: nat, n: nat, pages: nat, lost: bool)
    requires CopyFails(free, n, pages, lost)
    ensures free < CopyNeed(n, pages) && (CopyLoses(free, n, pages) <==> lost)
  {
    var j: nat :| j < pages && CopyStops(free, n, j, lost);
    hide CopyNeed, CopyOpens;
    CopyNeedMono(n, j + 1, pages);
    forall i: nat | i < pages && CopyOpens(n, i) && free == CopyNeed(n, i) + 1 ensures i == j {
      CopyStopsOnce(free, n, j, i, lost);
    }
  }

  /** One page of a copy: it succeeds, or the whole copy fails here. */
  lemma CopyStep(m: Memory, u: Memory, c: nat, n: nat, j: nat, pages: nat, v: nat, all: nat, free: nat,
                 ok: bool, lost: bool)
    requires n <= USERPAGES && j < pages <= USERPAGES && v == CopyPageAt(n, j) && CopyTables(m, c, n, j)
    requires all == free + CopyNeed(n, j)
    requires var table := if Table(m, c, v / NENTRIES) == 0 then 1 else 0;
             && (ok <==> free > table) && (lost <==> table == 1 == free)
    requires ok ==> TablesMade(m, u, c, v, v + 1)
    ensures ok ==>
              CopyTables(u, c, n, j + 1)
                  && all == free - 1 - (if Table(m, c, v / NENTRIES) == 0 then 1 else 0) + CopyNeed(n, j + 1)
    ensures !ok ==> CopyFails(all, n, pages, lost)
  {
    assert CopyOpens(n, j) <==> Table(m, c, v / NENTRIES) == 0;
    if ok { CopyTablesMore(m, u, c, n, j, v); }
    hide Table, CopyTables, CopyOpens, CopyTable, TablesMade;
    assert CopyNeed(n, j + 1) == CopyNeed(n, j) + 1 + (if CopyOpens(n, j) then 1 else 0);
    hide CopyNeed;
    if !ok { assert CopyStops(all, n, j, lost); }
  }

  lemma CopyNeedStart(n: nat)
    ensures CopyNeed(n, 0) == 0
  {
  }

  lemma NoUserTables(m: Memory, c: nat, data: nat, n: nat)
    requires KernelTablesOnly(m, c, data, 4)
    ensures CopyTables(m, c, n, 0)
  {
    hide Table;
  }

  lemma CopyLasts(free: nat, n: nat, pages: nat)
    requires free >= CopyNeed(n, pages)
    ensures !CopyLoses(free, n, pages)
  {
    forall j | 0 <= j < pages && CopyOpens(n, j) ensures free != CopyNeed(n, j) + 1 {
      CopyNeedMono(n, j + 1, pages);
    }
  }

  class Vm {
    const base: nat       // the first page after the kernel
    const dataPage: nat   // where the kernel's data starts
    var mem: Memory
    var free: seq<nat>
    ghost var owner: Owner

    function St(): State
      reads this
    {
      State(base, mem, free)
    }

    /** Nothing is in use, and every frame from the kernel's end to PHYSTOP is free. */
    constructor (base: nat, dataPage: nat)
      requires 0 < base <= PHYSPAGES && EXTPAGES < dataPage < PHYSPAGES
      ensures this.base == base && this.dataPage == dataPage && |mem| == PHYSPAGES && |free| == PHYSPAGES - base
      ensures Own(St(), owner) && owner == map[] && forall p :: p in Pool(St(), owner) <==> base <= p < PHYSPAGES
    {
      this.base, this.dataPage := base, dataPage;
      mem := seq(PHYSPAGES, _ => Zeros(NENTRIES));
      free := [];
      owner := map[];
      new;
      Freerange(base * PGSIZE, PHYSPAGES * PGSIZE);
    }

    /** freerange(): every whole page of the range becomes free. */
    method Freerange(start: nat, end: nat)
      requires Own(St(), owner) && end <= |mem| * PGSIZE && 0 < base * PGSIZE <= start
      requires forall p :: Pages(start) <= p < end / PGSIZE ==> p !in Pool(St(), owner)
      modifies this`free, this`mem
      ensures |mem| == |old(mem)| && Own(St(), owner)
      ensures |free| == |old(free)| + (if Pages(start) <= end / PGSIZE then end / PGSIZE - Pages(start) else 0)
      ensures forall p :: p in Pool(St(), owner) <==> p in old(Pool(St(), owner)) || Pages(start) <= p < end / PGSIZE
    {
      hide Own, Junk;
      var p := Pages(start);
      while (p + 1) * PGSIZE <= end
        invariant Pages(start) <= p && |mem| == |old(mem)| && Own(St(), owner)
        invariant (p <= end / PGSIZE || p == Pages(start)) && |free| == |old(free)| + (p - Pages(start))
        invariant forall q :: q in Pool(St(), owner) <==> q in old(Pool(St(), owner)) || Pages(start) <= q < p
      {
        ghost var s := St();
        Kfree(p);
        FreedRole(s, St(), owner, p);
        p := p + 1;
      }
    }

    method Kalloc() returns (p: nat)
      requires Own(St(), owner)
      modifies this`free
      ensures Own(St(), owner)
      ensures p == 0 <==> old(free) == []
      ensures p == 0 ==> free == old(free)
      ensures p != 0 ==> old(free) == [p] + free && Within(St(), p) && p !in owner && p !in free
    {
      if free == [] { return 0; }
      p := free[0];
      free := free[1..];
      assert old(free) == [p] + free;
      SameTablesOwn(old(St()), St(), owner);
    }

    /** The panic is the failure of the precondition. */
    method Kfree(p: nat)
      requires Within(St(), p)
      modifies this`free, this`mem
      ensures free == [p] + old(free) && mem == old(mem)[p := Junk(NENTRIES)]
    {
      mem := mem[p := Junk(NENTRIES)];
      free := [p] + free;
    }

    /** walkpgdir() without `alloc`: the table for page `v`, or 0. */
    method Lookup(d: nat, v: nat) returns (t: int)
      requires Own(St(), owner) && IsDirectory(owner, d) && v < NPAGES
      ensures t == Table(mem, d, v / NENTRIES)
      ensures t != 0 ==> 0 < t < |mem| && |mem[t]| == NENTRIES && mem[t][v % NENTRIES] == Entry(mem, d, v)
    {
      TableRole(St(), owner, d, v / NENTRIES);
      t := if Present(mem[d][v / NENTRIES]) then Frame(mem[d][v / NENTRIES]) else 0;
    }

    /** walkpgdir() with `alloc`: the table for page `v`, made if need be, or 0. */
    method Walkpgdir(d: nat, v: nat) returns (t: int)
      requires Own(St(), owner) && IsDirectory(owner, d) && v < NPAGES
      modifies this`free, this`mem, this`owner
      ensures Own(St(), owner) && Steady(old(St()), St(), old(owner), owner)
      ensures Pool(St(), owner) == old(Pool(St(), owner))
      ensures OnlyEntries(old(St()), St(), old(owner), d, 0, 0) && Extends(old(owner), owner, d)
      ensures t == Table(mem, d, v / NENTRIES)
      ensures t == 0 <==> old(Table(mem, d, v / NENTRIES)) == 0 && old(free) == []
      ensures old(Table(mem, d, v / NENTRIES)) != 0 || t == 0 ==> St() == old(St()) && owner == old(owner)
      ensures forall p :: 0 <= p < |mem| && p !in owner && p !in old(free) ==> mem[p] == old(mem)[p]
      ensures forall p :: p in free ==> p in old(free)
      ensures forall p :: p in owner ==> p in old(owner) || p in old(free)
      ensures TablesMade(old(mem), mem, d, v, if t == 0 then v else v + 1)
      ensures |free| == |old(free)| - (if old(Table(mem, d, v / NENTRIES)) == 0 && t != 0 then 1 else 0)
    {
      ghost var s, o := St(), owner;
      t := Lookup(d, v);
      if t != 0 { return; }
      t := Kalloc();
      if t == 0 { return 0; }
      assert free == s.free[1..];
      TableMadeOwn(s, o, d, v / NENTRIES);
      TableMadeTable(s, o, d, v / NENTRIES, d, v / NENTRIES);
      mem := mem[t := Zeros(NENTRIES)];
      mem := mem[d := mem[d][v / NENTRIES := Pte(t, PTE_P + PTE_W + PTE_U)]];
      assert St() == TableMade(s, d, v / NENTRIES);
      owner := owner[t := TableOf(d, v / NENTRIES)];
      forall e: nat, u: nat | IsDirectory(o, e) && u < NPAGES ensures Entry(mem, e, u) == Entry(s.mem, e, u) {
        TableMadeEntry(s, o, d, v / NENTRIES, e, u);
      }
      forall i: nat | i < NENTRIES ensures Table(mem, d, i) == if i == v / NENTRIES then t else Table(s.mem, d, i) {
        TableMadeTable(s, o, d, v / NENTRIES, d, i);
      }
    }

    /** The loop body of mappages(). */
    method MapPage(d: nat, v: nat, frame: int, perm: nat) returns (r: Mapping)
      requires Own(St(), owner) && IsDirectory(owner, d) && v < NPAGES && perm < PGSIZE
      requires v < USERPAGES ==> Spare(St(), owner, frame)
      modifies this`free, this`mem, this`owner
      ensures Own(St(), owner)
      ensures r.Remap? <==> old(Present(Entry(mem, d, v)))
      ensures r.NoMemory? <==> old(Table(mem, d, v / NENTRIES)) == 0 && old(free) == []
      ensures !r.Mapped? ==> St() == old(St()) && owner == old(owner)
      ensures r.Mapped? ==>
                && Steady(old(St()), St(), old(owner), owner) && OnlyEntries(old(St()), St(), old(owner), d, v, v + 1)
                && Entry(mem, d, v) == Pte(frame, perm) && Extends(old(owner), owner, d)
                && Pool(St(), owner) == old(Pool(St(), owner)) + (if v < USERPAGES then {frame} else {})
                && TablesMade(old(mem), mem, d, v, v + 1)
                && |free| == |old(free)| - (if old(Table(mem, d, v / NENTRIES)) == 0 then 1 else 0)
                && SparesKept(old(St()), St(), old(owner), owner)
                && (forall f :: old(Spare(St(), owner, f)) && !(v < USERPAGES && f == frame) ==> Spare(St(), owner, f))
    {
      hide Own, Entry, Table, Present, Frame, Pte, Pool, OnlyEntries, TablesMade;
      AbsentEntry(St(), d, v);
      var t := Walkpgdir(d, v);
      if t == 0 { return NoMemory; }
      ghost var s, o := St(), owner;
      MapPageFacts(old(St()), s, old(owner), o, d, v);
      EntryAt(s, o, d, v);
      if Present(mem[t][v % NENTRIES]) { return Remap; }
      ghost var w := Pte(frame, perm);
      PteParts(frame, perm);
      TableRole(s, o, d, v / NENTRIES);
      if v < USERPAGES {
        UserMapped(s, o, d, v, w);
        owner := owner[frame := UserOf(d, v)];
      } else {
        KernelMapped(s, o, d, v, w);
      }
      mem := mem[t := mem[t][v % NENTRIES := Pte(frame, perm)]];
      assert St() == EntrySet(s, d, v, w);
      EntrySetOnly(s, o, d, v, w);
      EntrySetMade(old(mem), s, o, d, v, w);
      OnlyTwice(old(St()), s, St(), old(owner), o, d, v, v + 1);
      r := Mapped;
    }

    /** mappages(): the first `k` pages of the range are mapped to consecutive frames; it
        stops at a page that is mapped already, or when there is no memory for a table.
        Frames for user pages must be ones that nobody uses. */
    method Mappages(d: nat, va: nat, size: nat, pa: nat, perm: nat) returns (r: Mapping, ghost k: nat)
      requires Own(St(), owner) && IsDirectory(owner, d) && perm < PGSIZE && size > 0 && va + size <= NPAGES * PGSIZE
      requires forall f :: pa / PGSIZE <= f < pa / PGSIZE + UserPart(va / PGSIZE, (va + size - 1) / PGSIZE + 1) ==>
                Spare(St(), owner, f)
      modifies this`free, this`mem, this`owner
      ensures Own(St(), owner) && Steady(old(St()), St(), old(owner), owner) && Extends(old(owner), owner, d)
      ensures va / PGSIZE + k <= (va + size - 1) / PGSIZE + 1
      ensures OnlyEntries(old(St()), St(), old(owner), d, va / PGSIZE, va / PGSIZE + k)
      ensures old(Unmapped(St(), d, va / PGSIZE, va / PGSIZE + k))
      ensures forall u :: va / PGSIZE <= u < va / PGSIZE + k ==>
                Entry(mem, d, u) == Pte(pa / PGSIZE + (u - va / PGSIZE), perm)
      ensures r.Mapped? <==> va / PGSIZE + k == (va + size - 1) / PGSIZE + 1
      ensures r.Remap? ==> old(Present(Entry(mem, d, va / PGSIZE + k)))
      ensures r.NoMemory? ==> free == [] && NewTable(old(mem), d, va / PGSIZE, va / PGSIZE + k)
      ensures |free| == |old(free)| - Tables(old(mem), d, va / PGSIZE, va / PGSIZE + k)
      ensures TablesMade(old(mem), mem, d, va / PGSIZE, va / PGSIZE + k)
      ensures Pool(St(), owner) == old(PoolAnd(St(), owner, pa / PGSIZE, UserPart(va / PGSIZE, va / PGSIZE + k)))
      ensures SparesKept(old(St()), St(), old(owner), owner)
      ensures k == 0 ==> St() == old(St()) && owner == old(owner)
    {
      hide Own, Entry, Table, Pool, PoolAnd, Present, MapInv, TablesMade, Tables, NewTable, Unmapped, Steady, Extends;
      hide OnlyEntries, SparesKept, Pte;
      ghost var s, o := St(), owner;
      var a, last, frame := va / PGSIZE, (va + size - 1) / PGSIZE, pa / PGSIZE;
      ghost var first, f0 := a, frame;
      k := 0;
      MapStart(s, o, d, a, f0, perm);
      while true
        invariant first <= a <= last < NPAGES && frame == f0 + (a - first) && k == a - first
        invariant k == 0 ==> St() == s && owner == o
        invariant Own(St(), owner) && IsDirectory(owner, d) && MapInv(s, St(), o, owner, d, first, a, f0, perm)
        invariant forall f :: f0 + UserPart(first, a) <= f < f0 + UserPart(first, last + 1) ==> Spare(St(), owner, f)
        decreases last - a
      {
        ghost var t, p := St(), owner;
        MapInvFacts(s, t, o, p, d, first, a, f0, perm);
        r := MapPage(d, a, frame, perm);
        if !r.Mapped? { return; }
        MapInvMore(s, t, St(), o, p, owner, d, first, a, f0, perm);
        k := k + 1;
        if a == last {
          MapInvFacts(s, St(), o, owner, d, first, a + 1, f0, perm);
          return;
        }
        a := a + 1;
        frame := frame + 1;
      }
    }

    /** deallocuvm(): the loop skips to the next table where there is none, and does
        exactly what the page-by-page sweep does. */
    method Deallocuvm(d: nat, oldsz: nat, newsz: nat) returns (r: nat)
      requires Own(St(), owner) && IsDirectory(owner, d) && oldsz <= KERNBASE
      modifies this`free, this`mem, this`owner
      ensures r == if newsz >= oldsz then oldsz else newsz
      ensures newsz >= oldsz ==> St() == old(St()) && owner == old(owner)
      ensures newsz < oldsz ==>
                && St() == Sweep(old(St()), d, Pages(newsz), Pages(oldsz))
                && owner == Minus(old(owner), d, Pages(newsz), Pages(oldsz))
                && Released(old(St()), St(), old(owner), d, Pages(newsz), Pages(oldsz))
    {
      hide Own, Entry, Table, Sweep, Released, Minus, Swept, Pages;
      if newsz >= oldsz { return oldsz; }
      ghost var s, o, lo, hi := St(), owner, Pages(newsz), Pages(oldsz);
      MinusNone(o, d, lo);
      PagesMono(newsz, oldsz);
      var v := Pages(newsz);
      while v * PGSIZE < oldsz
        invariant lo <= v <= USERPAGES && Own(St(), owner) && IsDirectory(owner, d)
        invariant Sweep(St(), d, v, hi) == Sweep(s, d, lo, hi)
        invariant owner == Minus(o, d, lo, if v < hi then v else hi)
      {
        PagesLess(v, oldsz);
        ghost var u, p := St(), owner;
        var t := Lookup(d, v);
        if t == 0 {
          SkipStep(u, p, o, d, lo, v, hi);
          v := (v / NENTRIES + 1) * NENTRIES - 1;
        } else {
          SweepNext(u, p, o, d, lo, v, hi);
          FreePage(d, v, t);
        }
        v := v + 1;
      }
      PagesLess(v, oldsz);
      SweepDone(St(), d, v, v, hi);
      SweepReleases(s, o, d, lo, hi);
      r := newsz;
    }

    /** deallocuvm() at a page whose table is there. */
    method FreePage(d: nat, v: nat, t: nat)
      requires Own(St(), owner) && IsDirectory(owner, d) && v < USERPAGES && t == Table(mem, d, v / NENTRIES) != 0
      modifies this`free, this`mem, this`owner
      ensures St() == Swept(old(St()), d, v) && owner == Minus(old(owner), d, v, v + 1)
    {
      hide Own, Table, Swept, Minus;
      MinusNone(owner, d, v);
      SweepStep(St(), owner, owner, d, v, v, v + 1);
      if Present(mem[t][v % NENTRIES]) {
        var pa := Frame(mem[t][v % NENTRIES]);
        Kfree(pa);
        mem := mem[t := mem[t][v % NENTRIES := 0]];
      }
      owner := Minus(owner, d, v, v + 1);
    }

    /** A new user page with the given contents: kalloc(), the fill, and mappages(). When
        the page is not mapped, frame `m`, if not 0, is left to the caller. */
    method AddPage(d: nat, v: nat, page: Page, perm: nat) returns (m: nat, r: Mapping)
      requires Own(St(), owner) && IsDirectory(owner, d) && v < USERPAGES && perm < PGSIZE && |page| == NENTRIES
      modifies this`free, this`mem, this`owner
      ensures Own(St(), owner) && Steady(old(St()), St(), old(owner), owner) && Extends(old(owner), owner, d)
      ensures OnlyEntries(old(St()), St(), old(owner), d, v, if r.Mapped? then v + 1 else v)
      ensures m == 0 <==> old(free) == []
      ensures r.Remap? <==> m != 0 && old(Present(Entry(mem, d, v)))
      ensures r.NoMemory? && m != 0 ==> old(Table(mem, d, v / NENTRIES)) == 0 && |old(free)| == 1
      ensures r.Mapped? ==>
                && m != 0 && Entry(mem, d, v) == Pte(m, perm) && m < |mem| && mem[m] == page && m !in old(owner)
                && TablesMade(old(mem), mem, d, v, v + 1)
                && |free| == |old(free)| - 1 - (if old(Table(mem, d, v / NENTRIES)) == 0 then 1 else 0)
      ensures !r.Mapped? ==> owner == old(owner) && (m != 0 ==> Spare(St(), owner, m) && m in old(free))
      ensures Pool(St(), owner) == old(Pool(St(), owner)) - (if !r.Mapped? && m != 0 then {m} else {})
    {
      hide Own, Entry, Table, Pte, Frame, OnlyEntries, Present, Extends, TablesMade, Pool, PoolAnd, Steady, Tables;
      hide NewTable, Unmapped, SparesKept;
      ghost var s, o := St(), owner;
      SteadySame(s, o, d, v);
      ExtendsSame(o, d);
      m := Kalloc();
      if m == 0 { return 0, NoMemory; }
      mem := mem[m := page];
      FilledFrame(s, St(), o, d, m, v);
      ghost var t := St();
      PageAddr(v);
      PageAddr(m);
      ghost var k;
      r, k := Mappages(d, v * PGSIZE, PGSIZE, m * PGSIZE, perm);
      PoolBack(s, t, o, m);
      OutcomeFacts(t, d, v);
      SpareKept(t, St(), o, owner, m);
      TablesOne(t.mem, d, v);
      TablesMore(s.mem, t.mem, mem, d, v, v);
      TablesOne(s.mem, d, v);
      SteadyTwice(s, t, St(), o, o, owner);
      if r.Mapped? { MapMore(s, t, St(), o, o, owner, d, v, v); }
    }

    /** allocuvm(): fresh zeroed pages from `oldsz` up to `newsz` if none of them is mapped
        and there are frames enough. It panics with "remap" at the first mapped page if the
        frames last so far. Otherwise it fails, and has unmapped the whole range. */
    method Allocuvm(d: nat, oldsz: nat, newsz: nat) returns (r: nat, panicked: bool)
      requires Own(St(), owner) && IsDirectory(owner, d)
      modifies this`free, this`mem, this`owner
      ensures !(oldsz <= newsz < KERNBASE) ==>
                && r == (if newsz >= KERNBASE then 0 else oldsz) && !panicked && St() == old(St())
                    && owner == old(owner)
      ensures oldsz <= newsz < KERNBASE ==> (panicked <==>
                exists u :: old(FirstMapped(St(), d, Pages(oldsz), Pages(newsz), u))
                    && |old(free)| > Need(old(mem), d, Pages(oldsz), u))
      ensures !panicked ==> Own(St(), owner) && Pool(St(), owner) == old(Pool(St(), owner))
      ensures oldsz <= newsz < KERNBASE && !panicked ==>
                && r == (if old(Growable(St(), d, Pages(oldsz), Pages(newsz))) then newsz else 0)
                && Changed(old(St()), St(), old(owner), owner, d, Pages(oldsz), Pages(newsz))
                && (if old(Growable(St(), d, Pages(oldsz), Pages(newsz)))
                    then FreshPages(St(), d, Pages(oldsz), Pages(newsz))
                         && TablesMade(old(mem), mem, d, Pages(oldsz), Pages(newsz))
                         && |free| == |old(free)| - Need(old(mem), d, Pages(oldsz), Pages(newsz))
                    else Unmapped(St(), d, Pages(oldsz), Pages(newsz)))
    {
      hide Own, Entry, Present, Frame, Flags, Pages, Pte, FreshPages, Unmapped, Zeros, Steady, OnlyEntries, Extends;
      hide TablesMade, Table, Need, Pool, Changed, Growable, FirstMapped;
      panicked := false;
      if newsz >= KERNBASE { return 0, false; }
      if newsz < oldsz { return oldsz, false; }
      ghost var s, o, lo, hi := St(), owner, Pages(oldsz), Pages(newsz);
      PagesMono(oldsz, newsz);
      SteadySame(s, o, d, lo);
      NoFreshPages(s, d, lo);
      ExtendsSame(o, d);
      NoTablesMade(s.mem, d, lo);
      NothingUnmapped(s, d, lo);
      NeedNothing(s.mem, d, lo);
      var v := Pages(oldsz);
      while v * PGSIZE < newsz
        invariant lo <= v <= hi && Own(St(), owner) && IsDirectory(owner, d) && Pool(St(), owner) == Pool(s, o)
        invariant Steady(s, St(), o, owner) && OnlyEntries(s, St(), o, d, lo, v) && Extends(o, owner, d)
        invariant FreshPages(St(), d, lo, v) && Unmapped(s, d, lo, v)
        invariant TablesMade(s.mem, mem, d, lo, v) && |s.free| == |free| + Need(s.mem, d, lo, v)
      {
        PagesLess(v, newsz);
        ghost var t, p := St(), owner;
        SameEntryAt(s, t, o, d, lo, v);
        var m, a := AddPage(d, v, Zeros(NENTRIES), PTE_W + PTE_U);
        TablesMore(s.mem, t.mem, mem, d, lo, v);
        NeedMore(s.mem, t.mem, d, lo, v);
        if a.Remap? {
          MappedAt(s, d, lo, hi, v);
          return 0, true;
        }
        if a.NoMemory? {
          NotEnough(s, d, lo, hi, v, m);
          OnlyTwo(s, t, St(), o, p, d, lo, v, hi);
          SteadyTwice(s, t, St(), o, p, owner);
          SpareAway(St(), owner, m);
          FreeInPool(t, p, m);
          Undo(d, newsz, oldsz, m, s, o);
          return 0, false;
        }
        MapMore(s, t, St(), o, p, owner, d, lo, v);
        ExtendsTwice(o, p, owner, d);
        UnmappedMore(s, d, lo, v);
        FreshMore(t, St(), p, owner, d, lo, v, m);
        v := v + 1;
      }
      PagesLess(v, newsz);
      Enough(s, St(), o, owner, d, lo, hi);
      r := newsz;
    }

    /** The failure paths of allocuvm(): `m` is the frame that could not be mapped, or 0. */
    method Undo(d: nat, newsz: nat, oldsz: nat, m: nat, ghost s: State, ghost o: Owner)
      requires Own(s, o) && Own(St(), owner) && IsDirectory(o, d) && IsDirectory(owner, d) && oldsz <= newsz < KERNBASE
      requires Steady(s, St(), o, owner) && OnlyEntries(s, St(), o, d, Pages(oldsz), Pages(newsz))
      requires Extends(o, owner, d)
      requires m != 0 ==> Within(St(), m) && m !in Pool(St(), owner)
      modifies this`free, this`mem, this`owner
      ensures Own(St(), owner) && Pool(St(), owner) == old(Pool(St(), owner)) + (if m != 0 then {m} else {})
      ensures Changed(s, St(), o, owner, d, Pages(oldsz), Pages(newsz)) && Unmapped(St(), d, Pages(oldsz), Pages(newsz))
    {
      hide Own, Entry, Present, Pages, Steady, OnlyEntries, Unmapped, Released, Sweep, Minus, Pool, Extends, Changed;
      ghost var t, p := St(), owner;
      PagesMono(oldsz, newsz);
      var r := Deallocuvm(d, newsz, oldsz);
      UndoFacts(s, t, St(), o, p, owner, d, oldsz, newsz);
      if m != 0 {
        ghost var u := St();
        SameWithin(t, u, m);
        Kfree(m);
        FreedFrame(u, St(), owner, m, d, Pages(oldsz), Pages(newsz));
        ChangedOn(s, u, St(), o, owner, d, Pages(oldsz), Pages(newsz));
      }
    }

    /** freevm(): the user pages, the tables and the directory itself go back to the free
        list; nothing else changes. */
    method Freevm(d: nat)
      requires Own(St(), owner) && IsDirectory(owner, d)
      modifies this`free, this`mem, this`owner
      ensures Own(St(), owner) && owner == WithoutDir(old(owner), d)
      ensures Pool(St(), owner) == old(Pool(St(), owner)) && Others(old(St()), St(), old(owner), d)
    {
      hide Own, Released, Minus, Sweep, Others, WithoutDir, TablesLeft, Pool, Entry, Frame, Present;
      ghost var s, o := St(), owner;
      PagesOfSpace();
      var r := Deallocuvm(d, KERNBASE, 0);
      ghost var t, p, x := St(), owner, WithoutDir(o, d);
      FreevmStart(s, t, o, d);
      owner := x;
      var i := 0;
      while i < NENTRIES
        invariant 0 <= i <= NENTRIES && Own(St(), x) && owner == x && Others(s, St(), o, d)
        invariant base == t.base && |mem| == |t.mem| && d < |mem| && mem[d] == t.mem[d] && |mem[d]| == NENTRIES
        invariant Rest(St(), x, TablesLeft(p, d, i) + {d}) && PoolWith(St(), x, TablesLeft(p, d, i) + {d}) == Pool(s, o)
      {
        TableLeft(t, p, d, i);
        if Present(mem[d][i]) {
          ghost var u, left := St(), TablesLeft(p, d, i) + {d};
          var v := Frame(mem[d][i]);
          FreeNext(u, x, left, v, s, o, d);
          Kfree(v);
          assert left - {v} == TablesLeft(p, d, i + 1) + {d};
        }
        i := i + 1;
      }
      NoTablesLeft(t, p, d);
      assert TablesLeft(p, d, NENTRIES) + {d} == {d};
      FreeNext(St(), x, {d}, d, s, o, d);
      Kfree(d);
      PoolAlone(St(), x);
    }

    /** setupkvm(): a directory with only the kernel's part, or 0 with nothing taken. */
    method Setupkvm() returns (d: nat)
      requires Own(St(), owner) && EXTPAGES < dataPage < PHYSPAGES
      modifies this`free, this`mem, this`owner
      ensures Own(St(), owner) && Pool(St(), owner) == old(Pool(St(), owner)) && KeptAll(old(St()), St(), old(owner))
      ensures d == 0 <==> |old(free)| < KERNEL_FRAMES
      ensures d == 0 ==> owner == old(owner)
      ensures d != 0 ==>
                && |free| == |old(free)| - KERNEL_FRAMES && KernelTablesOnly(mem, d, dataPage, 4)
                && IsDirectory(owner, d) && d !in old(owner) && Extends(old(owner), owner, d)
                && (forall v :: 0 <= v < NPAGES ==> Entry(mem, d, v) == KernelEntry(dataPage, 4, v))
    {
      hide Own, Entry, Pool, PoolAnd, KeptAll, Extends, KernelEntry, Steady, OnlyEntries, IsDirectory, Pte;
      hide Table, TablesMade, Tables, NewTable, SparesKept, Unmapped, Present, KernelTablesOnly, KernelTaken;
      ghost var s, o := St(), owner;
      d := Kalloc();
      if d == 0 {
        SameAll(s, St(), o);
        return;
      }
      mem := mem[d := Zeros(NENTRIES)];
      owner := owner[d := IsDir];
      NewDir(s, St(), o, d);
      KernelTakenMono(dataPage, 0);
      var k := 0;
      while k < 4
        invariant 0 <= k <= 4 && Own(St(), owner) && IsDirectory(owner, d) && Pool(St(), owner) == Pool(s, o)
        invariant KeptAll(s, St(), o) && Extends(o, owner, d) && d !in o
        invariant forall v :: 0 <= v < NPAGES ==> Entry(mem, d, v) == KernelEntry(dataPage, k, v)
        invariant KernelTablesOnly(mem, d, dataPage, k) && |s.free| == |free| + KernelTaken(dataPage, k)
      {
        var m := KmapAt(dataPage, k);
        ghost var t, p := St(), owner;
        KmapRange(dataPage, k);
        assert forall u :: m.virt <= u < m.virt + m.size ==> Entry(mem, d, u) == KernelEntry(dataPage, k, u);
        KmapAddr(m.virt, m.size, m.phys);
        ghost var done;
        var r;
        r, done := Mappages(d, m.virt * PGSIZE, m.size * PGSIZE, m.phys * PGSIZE, m.perm);
        KmapMore(s, t, St(), o, p, owner, d, m.virt, m.virt + done);
        PoolAndMore(t, p, m.phys, 0);
        KernelTablesMore(t.mem, mem, d, dataPage, k);
        assert !r.Remap?;
        if !r.Mapped? {
          ghost var u, q := St(), owner;
          TableMissing(t.mem, d, m.virt, m.virt + done, m.virt + m.size);
          KernelTakenMono(dataPage, k + 1);
          Freevm(d);
          SetupUndone(s, u, St(), o, q, d);
          return 0;
        }
        forall v | 0 <= v < NPAGES ensures Entry(mem, d, v) == KernelEntry(dataPage, k + 1, v) {
          KmapEntry(t, St(), p, d, dataPage, k, v);
        }
        k := k + 1;
      }
    }

    /** inituvm(): the first page of the first process. The source does not look whether
        there is memory. */
    method Inituvm(d: nat, image: Page)
      requires Own(St(), owner) && IsDirectory(owner, d) && |image| == NENTRIES && |free| >= 2
      requires !Present(Entry(mem, d, 0))
      modifies this`free, this`mem, this`owner
      ensures Own(St(), owner) && Pool(St(), owner) == old(Pool(St(), owner))
      ensures Changed(old(St()), St(), old(owner), owner, d, 0, 1) && TablesMade(old(mem), mem, d, 0, 1)
      ensures Present(Entry(mem, d, 0)) && Within(St(), Frame(Entry(mem, d, 0)))
      ensures mem[Frame(Entry(mem, d, 0))] == image
      ensures |free| == |old(free)| - 1 - (if old(Table(mem, d, 0)) == 0 then 1 else 0)
    {
      hide Own, Entry, Table, Pte, Pool, TablesMade, OnlyEntries, Extends, Unmapped, Present, Frame;
      ghost var s, o := St(), owner;
      var m, r := AddPage(d, 0, image, PTE_W + PTE_U);
      PteParts(m, PTE_W + PTE_U);
      NothingUnmapped(s, d, 0);
      UnmappedMore(s, d, 0, 0);
      MinusUnmapped(s, o, d, 0, 1);
      UserFrame(St(), owner, d, 0);
    }

    /** The loop body of copyuvm(): page `v` of `d` is copied into the new space `c`. When
        mappages() fails, the frame just taken is in `leak`. */
    method CopyPage(d: nat, c: nat, v: nat, ghost s: State, ghost o: Owner) returns (ok: bool, ghost leak: set<int>)
      requires Copying(s, St(), o, owner, d, c) && v < USERPAGES
      requires Present(Entry(s.mem, d, v)) && !Present(Entry(mem, c, v))
      modifies this`free, this`mem, this`owner
      ensures Copying(s, St(), o, owner, d, c)
      ensures Steady(old(St()), St(), old(owner), owner) && OnlyEntries(old(St()), St(), old(owner), c, v, v + 1)
      ensures Pool(St(), owner) == old(Pool(St(), owner)) - leak && leak <= old(Pool(St(), owner))
      ensures ok ==> leak == {} && Copied(s, St(), d, c, v) && TablesMade(old(mem), mem, c, v, v + 1)
      ensures !ok ==> |leak| <= 1
      ensures var table := if old(Table(mem, c, v / NENTRIES)) == 0 then 1 else 0;
              && (ok <==> |old(free)| > table)
              && (ok ==> |free| == |old(free)| - 1 - table)
              && (leak != {} <==> table == 1 == |old(free)|)
    {
      hide Own, Entry, Table, Pool, Pte, Extends, Steady, OnlyEntries, Copied, KeptAll, Frame, Present, Flags;
      hide TablesMade;
      ghost var t, p := St(), owner;
      ParentEntry(s, t, o, p, d, c, v);
      var table := Lookup(d, v);
      var pte := mem[table][v % NENTRIES];
      var pa, flags := Frame(pte), Flags(pte);
      var m, r := AddPage(c, v, mem[pa], flags);
      ok := r.Mapped?;
      leak := if !ok && m != 0 then {m} else {};
      FreePool(t, p, m);
      if !ok { OnlyWider(t, St(), p, c, v, v, v + 1); }
      CopyingOn(s, t, St(), o, p, owner, d, c, v);
      if ok { CopiedNow(s, t, St(), o, p, owner, d, c, v, m); }
    }

    /** The loop of copyuvm() over the pages below `sz`. */
    method CopyHeap(d: nat, c: nat, sz: nat, ghost ss: nat, ghost s: State, ghost o: Owner)
      returns (ok: bool, ghost leak: set<int>)
      requires Copying(s, St(), o, owner, d, c) && sz <= KERNBASE && Pages(sz) + ss <= USERPAGES
      requires forall v :: 0 <= v < Pages(sz) ==> Present(Entry(s.mem, d, v))
      requires Unmapped(St(), c, 0, USERPAGES) && CopyTables(mem, c, Pages(sz), 0)
      modifies this`free, this`mem, this`owner
      ensures Copying(s, St(), o, owner, d, c)
      ensures Pool(St(), owner) == old(Pool(St(), owner)) - leak && leak <= old(Pool(St(), owner))
      ensures ok ==> leak == {} && CopiedPages(s, St(), d, c, 0, Pages(sz)) && Unmapped(St(), c, Pages(sz), USERPAGES)
                     && CopyTables(mem, c, Pages(sz), Pages(sz))
                         && |old(free)| == |free| + CopyNeed(Pages(sz), Pages(sz))
      ensures !ok ==> |leak| <= 1 && CopyFails(|old(free)|, Pages(sz), Pages(sz) + ss, leak != {})
      ensures KernelKept(old(St()), St(), c)
    {
      hide Own, Entry, Pool, Steady, OnlyEntries, Copying, Copied, CopiedPages, Unmapped, Pages, Present, KernelKept;
      hide Table, TablesMade, CopyTables, CopyNeed, CopyFails, CopyOpens;
      CopyNeedStart(Pages(sz));
      var v := 0;
      leak := {};
      PagesMono(0, sz);
      CopyStart(s, St(), d, c);
      while v * PGSIZE < sz
        invariant 0 <= v <= Pages(sz) <= USERPAGES && Copying(s, St(), o, owner, d, c)
        invariant Pool(St(), owner) == old(Pool(St(), owner))
        invariant CopiedPages(s, St(), d, c, 0, v) && Unmapped(St(), c, v, USERPAGES) && KernelKept(old(St()), St(), c)
        invariant leak == {}
        invariant CopyTables(mem, c, Pages(sz), v) && |old(free)| == |free| + CopyNeed(Pages(sz), v)
      {
        PagesLess(v, sz);
        ghost var t, p := St(), owner;
        UnmappedAt(t, c, v, USERPAGES);
        ok, leak := CopyPage(d, c, v, s, o);
        CopyMore(s, t, St(), o, p, owner, d, c, v, 0, v, v + 1, USERPAGES, old(St()), ok);
        CopyStep(t.mem, mem, c, Pages(sz), v, Pages(sz) + ss, v, |old(free)|, |t.free|, ok, leak != {});
        if !ok { return; }
        v := v + 1;
      }
      PagesLess(v, sz);
      ok := true;
    }

    /** The loop of copyuvm() over the stack, from the top down. */
    method CopyStack(d: nat, c: nat, n: nat, ss: nat, ghost s: State, ghost o: Owner)
      returns (ok: bool, ghost leak: set<int>)
      requires Copying(s, St(), o, owner, d, c) && n + ss <= USERPAGES
      requires forall v :: USERPAGES - ss <= v < USERPAGES ==> Present(Entry(s.mem, d, v))
      requires CopiedPages(s, St(), d, c, 0, n) && Unmapped(St(), c, n, USERPAGES) && CopyTables(mem, c, n, n)
      modifies this`free, this`mem, this`owner
      ensures Copying(s, St(), o, owner, d, c)
      ensures Pool(St(), owner) == old(Pool(St(), owner)) - leak && leak <= old(Pool(St(), owner))
      ensures ok ==> leak == {} && CopiedPages(s, St(), d, c, 0, n) && Unmapped(St(), c, n, USERPAGES - ss)
                     && CopiedPages(s, St(), d, c, USERPAGES - ss, USERPAGES)
                     && |old(free)| + CopyNeed(n, n) == |free| + CopyNeed(n, n + ss)
      ensures !ok ==> |leak| <= 1 && CopyFails(|old(free)| + CopyNeed(n, n), n, n + ss, leak != {})
      ensures KernelKept(old(St()), St(), c)
    {
      hide Own, Entry, Pool, Steady, OnlyEntries, Copying, Copied, CopiedPages, Unmapped, Present, KernelKept;
      hide Table, TablesMade, CopyTables, CopyNeed, CopyFails, CopyOpens;
      var i := STACK_TOP;
      ghost var k := 0;
      leak := {};
      StackStart(s, St(), d, c);
      while i > STACK_TOP - ss * PGSIZE
        invariant 0 <= k <= ss && i == STACK_TOP - k * PGSIZE
        invariant Copying(s, St(), o, owner, d, c) && Pool(St(), owner) == old(Pool(St(), owner)) && leak == {}
        invariant CopiedPages(s, St(), d, c, 0, n) && Unmapped(St(), c, n, USERPAGES - k)
        invariant KernelKept(old(St()), St(), c)
        invariant CopiedPages(s, St(), d, c, USERPAGES - k, USERPAGES)
        invariant CopyTables(mem, c, n, n + k) && |old(free)| + CopyNeed(n, n) == |free| + CopyNeed(n, n + k)
        decreases ss - k
      {
        StackPage(k);
        var v := i / PGSIZE;
        ghost var t, p := St(), owner;
        UnmappedLast(t, c, n, v);
        ok, leak := CopyPage(d, c, v, s, o);
        CopyMore(s, t, St(), o, p, owner, d, c, v, 0, n, n, v, old(St()), false);
        CopyStep(t.mem, mem, c, n, n + k, n + ss, v, |old(free)| + CopyNeed(n, n), |t.free|, ok, leak != {});
        if !ok { return; }
        CopyDown(s, t, St(), o, p, owner, d, c, n, v);
        i := i - PGSIZE;
        k := k + 1;
      }
      ok := true;
    }

    /** copyuvm(): a new address space with the same user pages, holding the same, in
        other frames; or 0. */
    method Copyuvm(d: nat, sz: nat, ss: nat) returns (r: nat, ghost leak: set<int>)
      requires Own(St(), owner) && IsDirectory(owner, d) && EXTPAGES < dataPage < PHYSPAGES
      requires sz <= KERNBASE && Pages(sz) + ss <= USERPAGES
      requires forall v :: 0 <= v < Pages(sz) ==> Present(Entry(mem, d, v))
      requires forall v :: USERPAGES - ss <= v < USERPAGES ==> Present(Entry(mem, d, v))
      modifies this`free, this`mem, this`owner
      ensures Own(St(), owner) && KeptAll(old(St()), St(), old(owner))
      ensures Pool(St(), owner) == old(Pool(St(), owner)) - leak && leak <= old(Pool(St(), owner))
      ensures r == 0 <==> |old(free)| < KERNEL_FRAMES + CopyNeed(Pages(sz), Pages(sz) + ss)
      ensures leak != {} <==>
                |old(free)| >= KERNEL_FRAMES && CopyLoses(|old(free)| - KERNEL_FRAMES, Pages(sz), Pages(sz) + ss)
      ensures r == 0 ==> owner == old(owner) && |leak| <= 1
      ensures r != 0 ==>
                && leak == {} && IsDirectory(owner, r) && r !in old(owner) && Extends(old(owner), owner, r)
                && CopiedPages(old(St()), St(), d, r, 0, Pages(sz)) && Unmapped(St(), r, Pages(sz), USERPAGES - ss)
                && CopiedPages(old(St()), St(), d, r, USERPAGES - ss, USERPAGES)
                && forall v :: USERPAGES <= v < NPAGES ==> Entry(mem, r, v) == KernelEntry(dataPage, 4, v)
    {
      hide Own, Entry, Pool, Copied, CopiedPages, Unmapped, Pages, Present, KernelKept, KeptAll, Extends, KernelEntry;
      hide Others, WithoutDir;
      hide KernelTablesOnly, CopyTables, CopyNeed, CopyFails, CopyOpens, CopyLoses;
      ghost var s, o := St(), owner;
      leak := {};
      r := Setupkvm();
      if r == 0 { return; }
      NothingCopied(St(), r, dataPage);
      NoUserTables(mem, r, dataPage, Pages(sz));
      ghost var t := St();
      var ok;
      ok, leak := CopyHeap(d, r, sz, ss, s, o);
      if ok {
        ghost var u := St();
        ok, leak := CopyStack(d, r, Pages(sz), ss, s, o);
        KernelStill(t, u, St(), r, dataPage);
      }
      if !ok {
        ghost var u, q := St(), owner;
        CopyFailed(|t.free|, Pages(sz), Pages(sz) + ss, leak != {});
        Freevm(r);
        SetupUndone(s, u, St(), o, q, r);
        r := 0;
      } else {
        CopyLasts(|t.free|, Pages(sz), Pages(sz) + ss);
      }
    }
  }
}
