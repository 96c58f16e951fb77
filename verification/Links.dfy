/** Directories and link counts: create(), sys_link() and sys_unlink() of sysfile.c over
dirlookup(), dirlink(), ialloc() and iput() of fs.c.

An inode holds its type, its link count, the number of references to it in memory and,
if it is a directory, its entries in order. Path lookup is left out: the directory and the
last path element are parameters, with the reference that nameiparent() took. */
module Links {

  import opened Basics

  const T_DIR := 1
  const T_FILE := 2
  const ROOTINO := 1
  const MAXENTS := 140 * 512 / 16   // entries of 16 bytes in a file of MAXFILE blocks

  datatype Dirent = Dirent(inum: nat, name: string)

  datatype Inode = Inode(kind: int, nlink: int, ref: nat, ents: seq<Dirent>)

  const FREE := Inode(0, 0, 0, [])
  const ROOTENTS := [Dirent(ROOTINO, "."), Dirent(ROOTINO, "..")]
  const UNUSED := Dirent(0, "")

  // ------------------------------------------------------------ the invariant

  predicate Linked(s: seq<Inode>, d: nat) {
    d < |s| && s[d].kind == T_DIR && s[d].nlink > 0
  }

  /** A directory, linked or removed while still in use. */
  predicate IsDir(s: seq<Inode>, d: nat) {
    d < |s| && s[d].kind == T_DIR
  }

  /** A reference can be taken and put back without effect. */
  predicate Stays(x: Inode) {
    x == FREE || x.nlink != 0 || x.ref > 0
  }

  /** Slot `k` of the linked directory `d` names `i` and is not its ".". */
  predicate Refers(s: seq<Inode>, d: nat, k: nat, i: nat) {
    Linked(s, d) && k < |s[d].ents| && s[d].ents[k].inum == i && s[d].ents[k].name != "."
  }

  /** Everything the link count of `i` stands for. */
  ghost function Names(s: seq<Inode>, i: nat): set<(nat, nat)> {
    set d, k | 0 <= d < |s| && 0 <= k < |s[d].ents| && Refers(s, d, k, i) :: (d, k)
  }

  ghost predicate UniqueNames(ents: seq<Dirent>) {
    forall j, k :: 0 <= j < k < |ents| && ents[j].inum != 0 && ents[k].inum != 0 ==> ents[j].name != ents[k].name
  }

  /** "." and ".." come first, and only there. */
  predicate Dots(ents: seq<Dirent>, d: nat) {
    && |ents| >= 2 && ents[0] == Dirent(d, ".") && ents[1].name == ".." && ents[1].inum != 0
    && forall k :: 2 <= k < |ents| && ents[k].inum != 0 ==> ents[k].name != "." && ents[k].name != ".."
  }

  predicate NoEntries(ents: seq<Dirent>) {
    forall k :: 2 <= k < |ents| ==> ents[k].inum == 0
  }

  predicate HasAt(ents: seq<Dirent>, k: nat, i: nat) {
    2 <= k < |ents| && ents[k].inum == i
  }

  /** A linked directory is named by its parent; an unlinked one is empty. */
  ghost predicate DirOk(s: seq<Inode>, d: nat)
    requires d < |s|
  {
    s[d].kind == T_DIR ==>
      && Dots(s[d].ents, d) && UniqueNames(s[d].ents) && s[d].ents[1].inum < |s|
      && var p := s[d].ents[1].inum;
         if s[d].nlink <= 0 then NoEntries(s[d].ents) && p != d
         else Linked(s, p) && (if d == ROOTINO then p == d else p != d && exists k :: HasAt(s[p].ents, k, d))
  }

  /** A directory is named only by its parent, and once. */
  ghost predicate EntryOk(s: seq<Inode>, d: nat, k: nat)
    requires Linked(s, d) && k < |s[d].ents|
  {
    var t := s[d].ents[k].inum;
    HasAt(s[d].ents, k, t) && t != 0 ==>
      && t < |s|
      && (s[t].kind == T_DIR ==>
            t != ROOTINO && |s[t].ents| >= 2 && s[t].ents[1].inum == d
            && forall j :: HasAt(s[d].ents, j, t) ==> j == k)
  }

  /** The link count is the number of names; an inode is in use while it has a name or a
      reference, and no longer. */
  ghost predicate CountOk(s: seq<Inode>, i: nat)
    requires i < |s|
  {
    && s[i].nlink == |Names(s, i)|
    && (if s[i].kind == 0 then s[i] == FREE else s[i].nlink > 0 || s[i].ref > 0)
  }

  ghost predicate Inv(s: seq<Inode>) {
    && Linked(s, ROOTINO) && s[0] == FREE
    && (forall d :: 0 <= d < |s| ==> DirOk(s, d))
    && (forall d, k :: 0 <= d < |s| && 0 <= k < |s[d].ents| && Linked(s, d) ==> EntryOk(s, d, k))
    && (forall i :: 1 <= i < |s| ==> CountOk(s, i))
  }

  // ------------------------------------------------------------ updates

  function Got(s: seq<Inode>, i: nat): seq<Inode>
    requires i < |s|
  {
    s[i := s[i].(ref := s[i].ref + 1)]
  }

  /** iput(). */
  function Put(s: seq<Inode>, i: nat): seq<Inode>
    requires i < |s| && s[i].ref > 0
  {
    s[i := if s[i].nlink == 0 && s[i].ref == 1 then FREE else s[i].(ref := s[i].ref - 1)]
  }

  function PutEntry(ents: seq<Dirent>, k: nat, de: Dirent): seq<Dirent>
    requires k <= |ents|
  {
    if k == |ents| then ents + [de] else ents[k := de]
  }

  function Written(s: seq<Inode>, d: nat, k: nat, de: Dirent): seq<Inode>
    requires d < |s| && k <= |s[d].ents|
  {
    s[d := s[d].(ents := PutEntry(s[d].ents, k, de))]
  }

  function Bumped(s: seq<Inode>, i: nat, delta: int): seq<Inode>
    requires i < |s|
  {
    s[i := s[i].(nlink := s[i].nlink + delta)]
  }

  /** A slot that dirlink() may fill, and a name it may give. */
  ghost predicate Fillable(ents: seq<Dirent>, k: nat, name: string) {
    && 2 <= k <= |ents| && (k < |ents| ==> ents[k].inum == 0)
    && forall j :: 0 <= j < |ents| && ents[j].inum != 0 ==> ents[j].name != name
  }

  /** What create() makes of a new inode `n`. */
  function Fresh(n: nat, dp: nat, kind: int): Inode {
    Inode(kind, 1, 1, if kind == T_DIR then [Dirent(n, "."), Dirent(dp, "..")] else [])
  }

  /** create() of a new name, before `dp` is put. */
  function Created(s: seq<Inode>, dp: nat, k: nat, name: string, kind: int, n: nat): seq<Inode>
    requires dp < |s| && n < |s| && n != dp && k <= |s[dp].ents|
  {
    Written(Bumped(s, dp, if kind == T_DIR then 1 else 0)[n := Fresh(n, dp, kind)], dp, k, Dirent(n, name))
  }

  /** A successful sys_link(), before the references are put. */
  function LinkMade(s: seq<Inode>, dp: nat, k: nat, name: string, ip: nat): seq<Inode>
    requires dp < |s| && ip < |s| && ip != dp && k <= |s[dp].ents|
  {
    Written(Bumped(s, ip, 1), dp, k, Dirent(ip, name))
  }

  /** A successful sys_unlink(), before the references are put. */
  function Removed(s: seq<Inode>, dp: nat, k: nat, ip: nat): seq<Inode>
    requires dp < |s| && ip < |s| && ip != dp && k < |s[dp].ents|
  {
    Bumped(Bumped(Written(s, dp, k, UNUSED), dp, if s[ip].kind == T_DIR then -1 else 0), ip, -1)
  }

  // ------------------------------------------------------------ references

  lemma SameNames(s: seq<Inode>, s': seq<Inode>, i: nat)
    requires |s| == |s'|
    requires forall d :: 0 <= d < |s| ==> Linked(s, d) == Linked(s', d) && (Linked(s, d) ==> s[d].ents == s'[d].ents)
    ensures Names(s, i) == Names(s', i)
  {
    forall d: nat, k: nat ensures Refers(s, d, k, i) == Refers(s', d, k, i) {}
  }

  lemma NamedIsLive(s: seq<Inode>, d: nat, k: nat, i: nat)
    requires Inv(s) && Refers(s, d, k, i) && 1 <= i < |s|
    ensures s[i].nlink > 0 && s[i].kind != 0
  {
    assert (d, k) in Names(s, i);
    assert CountOk(s, i);
  }

  lemma GotKeepsInv(s: seq<Inode>, i: nat)
    requires Inv(s) && 1 <= i < |s| && s[i].kind != 0
    ensures Inv(Got(s, i))
  {
    var s' := Got(s, i);
    forall j | 1 <= j < |s'| ensures CountOk(s', j) {
      assert CountOk(s, j);
      SameNames(s, s', j);
    }
    forall d | 0 <= d < |s'| ensures DirOk(s', d) { assert DirOk(s, d); }
    forall d, k | 0 <= d < |s'| && 0 <= k < |s'[d].ents| && Linked(s', d)
      ensures EntryOk(s', d, k)
    {
      assert EntryOk(s, d, k);
    }
  }

  lemma PutKeepsInv(s: seq<Inode>, i: nat)
    requires Inv(s) && 1 <= i < |s| && s[i].ref > 0
    ensures Inv(Put(s, i))
  {
    var s' := Put(s, i);
    assert CountOk(s, i);
    forall j | 1 <= j < |s'| ensures CountOk(s', j) {
      assert CountOk(s, j);
      SameNames(s, s', j);
    }
    forall d | 0 <= d < |s'| ensures DirOk(s', d) { assert DirOk(s, d); }
    forall d, k | 0 <= d < |s'| && 0 <= k < |s'[d].ents| && Linked(s', d)
      ensures EntryOk(s', d, k)
    {
      assert EntryOk(s, d, k);
    }
  }

  // ------------------------------------------------------------ create()

  lemma CreatedNames(s: seq<Inode>, dp: nat, k: nat, name: string, kind: int, n: nat, i: nat)
    requires Inv(s) && Linked(s, dp) && 1 <= n < |s| && s[n] == FREE && kind != 0
    requires Fillable(s[dp].ents, k, name) && 1 <= i < |s|
    ensures Names(Created(s, dp, k, name, kind, n), i)
         == Names(s, i) + (if i == n then {(dp, k)} else {}) + (if i == dp && kind == T_DIR then {(n, 1)} else {})
  {
    var s' := Created(s, dp, k, name, kind, n);
    assert DirOk(s, dp);
    assert s[dp].ents[0].name == ".";
    forall d: nat, j: nat ensures Refers(s', d, j, i) <==>
        Refers(s, d, j, i) || (i == n && d == dp && j == k) || (i == dp && kind == T_DIR && d == n && j == 1)
    {
    }
  }

  lemma FreeIsUnnamed(s: seq<Inode>, n: nat, d: nat, k: nat)
    requires Inv(s) && 1 <= n < |s| && s[n] == FREE
    ensures !Refers(s, d, k, n)
  {
    if Refers(s, d, k, n) { NamedIsLive(s, d, k, n); }
  }

  lemma CreatedCounts(s: seq<Inode>, dp: nat, k: nat, name: string, kind: int, n: nat, i: nat)
    requires Inv(s) && Linked(s, dp) && 1 <= n < |s| && s[n] == FREE && kind != 0
    requires Fillable(s[dp].ents, k, name) && 1 <= i < |s|
    ensures CountOk(Created(s, dp, k, name, kind, n), i)
  {
    CreatedNames(s, dp, k, name, kind, n, i);
    assert CountOk(s, i) && CountOk(s, n) && DirOk(s, dp);
    assert (dp, k) !in Names(s, i);
    assert (n, 1) !in Names(s, i);
  }

  lemma CreatedDirs(s: seq<Inode>, dp: nat, k: nat, name: string, kind: int, n: nat, d: nat)
    requires Inv(s) && Linked(s, dp) && 1 <= n < |s| && s[n] == FREE && kind != 0
    requires Fillable(s[dp].ents, k, name) && d < |s|
    ensures DirOk(Created(s, dp, k, name, kind, n), d)
  {
    var s' := Created(s, dp, k, name, kind, n);
    if d == n {
      assert HasAt(s'[dp].ents, k, n);
    } else {
      assert DirOk(s, d) && DirOk(s, dp);
      FilledDots(s[dp].ents, k, Dirent(n, name), dp);
      hide Inv, UniqueNames, Fillable, Dots;
      if s[d].kind == T_DIR && s[d].nlink > 0 && d != ROOTINO {
        var p := s[d].ents[1].inum;
        var j: nat :| HasAt(s[p].ents, j, d);
        assert HasAt(s'[p].ents, j, d);
      }
    }
  }

  lemma FilledDots(ents: seq<Dirent>, k: nat, de: Dirent, d: nat)
    requires Fillable(ents, k, de.name) && UniqueNames(ents) && Dots(ents, d) && d != 0
    ensures var e := PutEntry(ents, k, de); Dots(e, d) && UniqueNames(e) && e[1] == ents[1]
  {
    assert ents[0].name == ".";
  }

  lemma CreatedEntries(s: seq<Inode>, dp: nat, k: nat, name: string, kind: int, n: nat, d: nat, j: nat)
    requires Inv(s) && Linked(s, dp) && 1 <= n < |s| && s[n] == FREE && kind != 0
    requires Fillable(s[dp].ents, k, name)
    requires var s' := Created(s, dp, k, name, kind, n); Linked(s', d) && j < |s'[d].ents|
    ensures EntryOk(Created(s, dp, k, name, kind, n), d, j)
  {
    var s' := Created(s, dp, k, name, kind, n);
    assert DirOk(s, dp);
    if d != n && HasAt(s'[d].ents, j, s'[d].ents[j].inum) && s'[d].ents[j].inum != 0 {
      var i := s'[d].ents[j].inum;
      assert DirOk(s, d);
      if !(d == dp && j == k) {
        assert EntryOk(s, d, j);
        FreeIsUnnamed(s, n, d, j);
      }
      forall m: nat | HasAt(s'[d].ents, m, i) && s'[i].kind == T_DIR ensures m == j {
        if !(d == dp && m == k) {
          FreeIsUnnamed(s, n, d, m);
          assert HasAt(s[d].ents, m, i);
        }
      }
    }
  }

  lemma CreatedKeepsInv(s: seq<Inode>, dp: nat, k: nat, name: string, kind: int, n: nat)
    requires Inv(s) && Linked(s, dp) && 1 <= n < |s| && s[n] == FREE && kind != 0
    requires Fillable(s[dp].ents, k, name)
    ensures Inv(Created(s, dp, k, name, kind, n))
  {
    var s' := Created(s, dp, k, name, kind, n);
    forall d | 0 <= d < |s'| ensures DirOk(s', d) { CreatedDirs(s, dp, k, name, kind, n, d); }
    forall d, j | 0 <= d < |s'| && 0 <= j < |s'[d].ents| && Linked(s', d) ensures EntryOk(s', d, j) {
      CreatedEntries(s, dp, k, name, kind, n, d, j);
    }
    forall i | 1 <= i < |s'| ensures CountOk(s', i) { CreatedCounts(s, dp, k, name, kind, n, i); }
  }

  /** In an unlinked directory, create() either counts a name that no linked directory
      holds or brings the directory back without its parent knowing. */
  lemma CreatedInOrphan(s: seq<Inode>, dp: nat, k: nat, name: string, kind: int, n: nat)
    requires Inv(s) && 1 <= dp < |s| && s[dp].kind == T_DIR && !Linked(s, dp)
    requires 1 <= n < |s| && s[n] == FREE && kind != 0 && Fillable(s[dp].ents, k, name)
    ensures !Inv(Created(s, dp, k, name, kind, n))
  {
    assert DirOk(s, dp) && CountOk(s, dp);
    if kind != T_DIR {
      NamelessFile(s, dp, k, name, kind, n);
    } else {
      OrphanParentGains(s, dp, k, name, n);
    }
  }

  lemma NamelessFile(s: seq<Inode>, dp: nat, k: nat, name: string, kind: int, n: nat)
    requires Inv(s) && 1 <= dp < |s| && s[dp].kind == T_DIR && s[dp].nlink == 0
    requires 1 <= n < |s| && s[n] == FREE && kind != 0 && kind != T_DIR && k <= |s[dp].ents|
    ensures !CountOk(Created(s, dp, k, name, kind, n), n)
  {
    var s' := Created(s, dp, k, name, kind, n);
    forall d: nat, j: nat ensures !Refers(s', d, j, n) { FreeIsUnnamed(s, n, d, j); }
    assert Names(s', n) == {};
  }

  lemma OrphanParentGains(s: seq<Inode>, dp: nat, k: nat, name: string, n: nat)
    requires Inv(s) && 1 <= dp < |s| && s[dp].kind == T_DIR && s[dp].nlink == 0
    requires 1 <= n < |s| && s[n] == FREE && Fillable(s[dp].ents, k, name)
    requires DirOk(s, dp)
    ensures !CountOk(Created(s, dp, k, name, T_DIR, n), s[dp].ents[1].inum)
  {
    var s' := Created(s, dp, k, name, T_DIR, n);
    var p := s[dp].ents[1].inum;
    InvAt(s, p);
    hide Inv;
    assert Refers(s', dp, 1, p) && !Refers(s, dp, 1, p);
    if p == n {
      assert Refers(s', dp, k, n);
      SubsetSize({(dp, 1), (dp, k)}, Names(s', p));
    } else {
      forall d: nat, j: nat ensures Refers(s, d, j, p) ==> Refers(s', d, j, p) {}
      SubsetSize(Names(s, p) + {(dp, 1)}, Names(s', p));
    }
  }

  /** create() of a new name keeps the link counts exactly when its directory is linked. */
  lemma CreateIff(s: seq<Inode>, dp: nat, k: nat, name: string, kind: int, n: nat)
    requires Inv(s) && 1 <= dp < |s| && s[dp].kind == T_DIR
    requires 1 <= n < |s| && s[n] == FREE && kind != 0 && Fillable(s[dp].ents, k, name)
    ensures Inv(Created(s, dp, k, name, kind, n)) <==> s[dp].nlink > 0
  {
    if s[dp].nlink > 0 { CreatedKeepsInv(s, dp, k, name, kind, n); } else { CreatedInOrphan(s, dp, k, name, kind, n); }
  }

  // ------------------------------------------------------------ sys_link()

  lemma LinkNames(s: seq<Inode>, dp: nat, k: nat, name: string, ip: nat, i: nat)
    requires Inv(s) && Linked(s, dp) && 1 <= ip < |s| && s[ip].kind != T_DIR
    requires Fillable(s[dp].ents, k, name) && 1 <= i < |s|
    ensures Names(LinkMade(s, dp, k, name, ip), i) == Names(s, i) + (if i == ip then {(dp, k)} else {})
    ensures (dp, k) !in Names(s, i)
  {
    var s' := LinkMade(s, dp, k, name, ip);
    assert DirOk(s, dp);
    assert s[dp].ents[0].name == ".";
    forall d: nat, j: nat ensures Refers(s', d, j, i) <==> Refers(s, d, j, i) || (i == ip && d == dp && j == k) {}
  }

  lemma LinkEntries(s: seq<Inode>, dp: nat, k: nat, name: string, ip: nat, d: nat, j: nat)
    requires Inv(s) && Linked(s, dp) && 1 <= ip < |s| && s[ip].kind != T_DIR
    requires Fillable(s[dp].ents, k, name)
    requires var s' := LinkMade(s, dp, k, name, ip); Linked(s', d) && j < |s'[d].ents|
    ensures EntryOk(LinkMade(s, dp, k, name, ip), d, j)
  {
    var s' := LinkMade(s, dp, k, name, ip);
    if !(d == dp && j == k) {
      assert EntryOk(s, d, j);
      var i := s[d].ents[j].inum;
      forall m: nat | HasAt(s'[d].ents, m, i) && i != ip ensures HasAt(s[d].ents, m, i) {}
    }
  }

  lemma LinkKeepsInv(s: seq<Inode>, dp: nat, k: nat, name: string, ip: nat)
    requires Inv(s) && Linked(s, dp) && 1 <= ip < |s| && s[ip].kind != T_DIR && s[ip].kind != 0
    requires Fillable(s[dp].ents, k, name)
    ensures Inv(LinkMade(s, dp, k, name, ip))
  {
    var s' := LinkMade(s, dp, k, name, ip);
    hide Names, LinkMade, DirOk, EntryOk;
    forall d | 0 <= d < |s'| ensures DirOk(s', d) { LinkDirs(s, dp, k, name, ip, d); }
    forall d, j | 0 <= d < |s'| && 0 <= j < |s'[d].ents| && Linked(s', d) ensures EntryOk(s', d, j) {
      LinkEntries(s, dp, k, name, ip, d, j);
    }
    forall i | 1 <= i < |s'| ensures CountOk(s', i) {
      assert CountOk(s, i);
      LinkNames(s, dp, k, name, ip, i);
      LinkEffect(s, dp, k, name, ip, i);
    }
    LinkEffect(s, dp, k, name, ip, 0);
    LinkEffect(s, dp, k, name, ip, ROOTINO);
  }

  lemma LinkEffect(s: seq<Inode>, dp: nat, k: nat, name: string, ip: nat, i: nat)
    requires dp < |s| && ip < |s| && ip != dp && k <= |s[dp].ents| && i < |s|
    ensures var s' := LinkMade(s, dp, k, name, ip);
            && |s'| == |s| && s'[i].kind == s[i].kind && s'[i].ref == s[i].ref
            && s'[i].nlink == s[i].nlink + (if i == ip then 1 else 0) && (i != dp && i != ip ==> s'[i] == s[i])
  {
  }

  lemma LinkDirs(s: seq<Inode>, dp: nat, k: nat, name: string, ip: nat, d: nat)
    requires Inv(s) && Linked(s, dp) && 1 <= ip < |s| && s[ip].kind != T_DIR && d < |s|
    requires Fillable(s[dp].ents, k, name)
    ensures DirOk(LinkMade(s, dp, k, name, ip), d)
  {
    var s' := LinkMade(s, dp, k, name, ip);
    assert DirOk(s, d) && DirOk(s, dp);
    FilledDots(s[dp].ents, k, Dirent(ip, name), dp);
    hide Inv, UniqueNames, Fillable, Dots;
    if Linked(s, d) && d != ROOTINO {
      var p := s[d].ents[1].inum;
      var j: nat :| HasAt(s[p].ents, j, d);
      assert HasAt(s'[p].ents, j, d);
    }
  }

  /** sys_link() into a directory keeps the link counts exactly when it is linked. */
  lemma LinkIff(s: seq<Inode>, dp: nat, k: nat, name: string, ip: nat)
    requires Inv(s) && 1 <= dp < |s| && s[dp].kind == T_DIR
    requires 1 <= ip < |s| && s[ip].kind != T_DIR && s[ip].kind != 0 && Fillable(s[dp].ents, k, name)
    ensures Inv(LinkMade(s, dp, k, name, ip)) <==> s[dp].nlink > 0
  {
    var s' := LinkMade(s, dp, k, name, ip);
    if s[dp].nlink > 0 {
      LinkKeepsInv(s, dp, k, name, ip);
    } else {
      SameNames(s, s', ip);
      assert CountOk(s, ip);
      assert !CountOk(s', ip);
    }
  }

  // ------------------------------------------------------------ sys_unlink()

  /** What sys_unlink() has checked when it erases slot `k` of `dp`. */
  ghost predicate Removable(s: seq<Inode>, dp: nat, k: nat, ip: nat) {
    && Linked(s, dp) && 1 <= ip < |s| && HasAt(s[dp].ents, k, ip)
    && (s[ip].kind == T_DIR ==> NoEntries(s[ip].ents))
  }

  lemma ParentNotEmpty(s: seq<Inode>, d: nat)
    requires Inv(s) && Linked(s, d) && d != ROOTINO
    ensures DirOk(s, d) && !NoEntries(s[s[d].ents[1].inum].ents)
  {
    assert DirOk(s, d);
  }

  lemma RemovableFacts(s: seq<Inode>, dp: nat, k: nat, ip: nat)
    requires Inv(s) && Removable(s, dp, k, ip)
    ensures ip != dp && s[ip].nlink > 0 && s[ip].kind != 0
    ensures s[ip].kind == T_DIR ==>
              ip != ROOTINO && |s[ip].ents| >= 2 && s[ip].ents[1].inum == dp && s[ip].nlink == 1
  {
    assert DirOk(s, dp) && EntryOk(s, dp, k) && DirOk(s, ip);
    assert Refers(s, dp, k, ip);
    NamedIsLive(s, dp, k, ip);
    if s[ip].kind == T_DIR {
      assert CountOk(s, ip);
      forall d: nat, j: nat ensures Refers(s, d, j, ip) <==> (d, j) == (dp, k) {
        if Refers(s, d, j, ip) {
          assert DirOk(s, d) && EntryOk(s, d, j);
          if d != ROOTINO { ParentNotEmpty(s, d); }
        }
      }
      assert Names(s, ip) == {(dp, k)};
    }
  }

  lemma RemovedNames(s: seq<Inode>, dp: nat, k: nat, ip: nat, i: nat)
    requires Inv(s) && Removable(s, dp, k, ip) && 1 <= i < |s|
    requires ip != dp && (s[ip].kind == T_DIR ==> s[dp].nlink > 1)
    ensures Names(Removed(s, dp, k, ip), i)
         == Names(s, i) - (if i == ip then {(dp, k)} else {})
            - (if i == dp && s[ip].kind == T_DIR then {(ip, 1)} else {})
  {
    var s' := Removed(s, dp, k, ip);
    RemovableFacts(s, dp, k, ip);
    assert DirOk(s, ip);
    forall d: nat, j: nat ensures Refers(s', d, j, i) <==>
        Refers(s, d, j, i) && (d, j) != (dp, k) && !(s[ip].kind == T_DIR && d == ip)
    {
    }
    assert forall j :: Refers(s, ip, j, i) && s[ip].kind == T_DIR ==> j == 1 && i == dp;
    assert Refers(s, dp, k, i) ==> i == ip;
  }

  /** The directory of a removed directory keeps a name of its own. */
  lemma ParentStaysLinked(s: seq<Inode>, dp: nat, k: nat, ip: nat)
    requires Inv(s) && Removable(s, dp, k, ip) && s[ip].kind == T_DIR
    ensures s[dp].nlink > 1
  {
    RemovableFacts(s, dp, k, ip);
    assert DirOk(s, dp) && CountOk(s, dp) && DirOk(s, ip);
    assert Refers(s, ip, 1, dp);
    var p := s[dp].ents[1].inum;
    var d, j := ROOTINO, 1;
    if dp != ROOTINO {
      var m: nat :| HasAt(s[p].ents, m, dp);
      d, j := p, m;
      assert DirOk(s, p) && EntryOk(s, p, m);
    }
    assert Refers(s, d, j, dp);
    assert (d, j) != (ip, 1);
    SubsetSize({(ip, 1), (d, j)}, Names(s, dp));
  }

  lemma RemovedKeepsInv(s: seq<Inode>, dp: nat, k: nat, ip: nat)
    requires Inv(s) && Removable(s, dp, k, ip) && s[ip].ref > 0
    ensures ip != dp && Inv(Removed(s, dp, k, ip))
    ensures s[dp].nlink - (if s[ip].kind == T_DIR then 1 else 0) > 0
  {
    RemovableFacts(s, dp, k, ip);
    if s[ip].kind == T_DIR { ParentStaysLinked(s, dp, k, ip); }
    var s' := Removed(s, dp, k, ip);
    forall d | 0 <= d < |s'| ensures DirOk(s', d) { RemovedDirs(s, dp, k, ip, d); }
    forall d, j | 0 <= d < |s'| && 0 <= j < |s'[d].ents| && Linked(s', d) ensures EntryOk(s', d, j) {
      RemovedEntries(s, dp, k, ip, d, j);
    }
    forall i | 1 <= i < |s'| ensures CountOk(s', i) { RemovedCounts(s, dp, k, ip, i); }
  }

  lemma RemovedEntries(s: seq<Inode>, dp: nat, k: nat, ip: nat, d: nat, j: nat)
    requires Inv(s) && Removable(s, dp, k, ip) && ip != dp
    requires var s' := Removed(s, dp, k, ip); Linked(s', d) && j < |s'[d].ents|
    ensures EntryOk(Removed(s, dp, k, ip), d, j)
  {
    RemovableFacts(s, dp, k, ip);
    var s' := Removed(s, dp, k, ip);
    assert EntryOk(s, d, j);
    if !(d == dp && j == k) {
      var i := s[d].ents[j].inum;
      forall m: nat | HasAt(s'[d].ents, m, i) && i != 0 ensures HasAt(s[d].ents, m, i) {}
    }
  }

  lemma RemovedCounts(s: seq<Inode>, dp: nat, k: nat, ip: nat, i: nat)
    requires Inv(s) && Removable(s, dp, k, ip) && s[ip].ref > 0 && 1 <= i < |s|
    requires ip != dp && (s[ip].kind == T_DIR ==> s[dp].nlink > 1)
    ensures CountOk(Removed(s, dp, k, ip), i)
  {
    hide Inv, Removed, Names;
    RemovableFacts(s, dp, k, ip);
    RemovedNames(s, dp, k, ip, i);
    RemovedEffect(s, dp, k, ip, i);
    InvAt(s, i);
    if i == ip { RemovableRefers(s, dp, k, ip); }
    if i == dp && s[ip].kind == T_DIR { RemovableRefers(s, dp, k, ip); }
  }

  lemma InvAt(s: seq<Inode>, i: nat)
    requires Inv(s) && 1 <= i < |s|
    ensures CountOk(s, i) && DirOk(s, i)
  {
  }

  lemma RemovableRefers(s: seq<Inode>, dp: nat, k: nat, ip: nat)
    requires Inv(s) && Removable(s, dp, k, ip)
    ensures (dp, k) in Names(s, ip) && (s[ip].kind == T_DIR ==> (ip, 1) in Names(s, dp))
  {
    RemovableFacts(s, dp, k, ip);
    assert DirOk(s, dp) && DirOk(s, ip);
    assert Refers(s, dp, k, ip);
    assert s[ip].kind == T_DIR ==> Refers(s, ip, 1, dp);
  }

  lemma RemovedEffect(s: seq<Inode>, dp: nat, k: nat, ip: nat, i: nat)
    requires dp < |s| && ip < |s| && ip != dp && k < |s[dp].ents| && i < |s|
    ensures var s' := Removed(s, dp, k, ip);
            && |s'| == |s| && s'[i].kind == s[i].kind && s'[i].ref == s[i].ref
            && s'[i].nlink == s[i].nlink - (if i == ip || (i == dp && s[ip].kind == T_DIR) then 1 else 0)
            && (i != dp && i != ip ==> s'[i] == s[i])
  {
  }

  lemma RemovedDirs(s: seq<Inode>, dp: nat, k: nat, ip: nat, d: nat)
    requires Inv(s) && Removable(s, dp, k, ip) && d < |s|
    requires ip != dp && (s[ip].kind == T_DIR ==> s[dp].nlink > 1)
    ensures DirOk(Removed(s, dp, k, ip), d)
  {
    RemovableFacts(s, dp, k, ip);
    var s' := Removed(s, dp, k, ip);
    assert DirOk(s, d) && DirOk(s, dp) && DirOk(s, ip);
    if Linked(s, d) && d != ROOTINO {
      var p := s[d].ents[1].inum;
      var j: nat :| HasAt(s[p].ents, j, d);
      if d != ip {
        assert HasAt(s'[p].ents, j, d);
      }
    }
  }

  // ------------------------------------------------------------ a tree

  /** Parents rank below their children. */
  ghost predicate Ranked(s: seq<Inode>, rank: seq<nat>) {
    && |rank| == |s|
    && forall d :: 0 <= d < |s| && Linked(s, d) && d != ROOTINO && |s[d].ents| >= 2 && s[d].ents[1].inum < |s| ==>
         rank[s[d].ents[1].inum] < rank[d]
  }

  ghost function Ancestor(s: seq<Inode>, d: nat, steps: nat): nat
    decreases steps
  {
    if steps == 0 || d >= |s| || |s[d].ents| < 2 then d else Ancestor(s, s[d].ents[1].inum, steps - 1)
  }

  /** Every linked directory reaches the root by "..". */
  lemma {:induction false} ReachesRoot(s: seq<Inode>, rank: seq<nat>, d: nat) returns (steps: nat)
    requires Inv(s) && Ranked(s, rank) && Linked(s, d)
    ensures Ancestor(s, d, steps) == ROOTINO
    decreases rank[d]
  {
    if d == ROOTINO {
      steps := 0;
    } else {
      assert DirOk(s, d);
      var more := ReachesRoot(s, rank, s[d].ents[1].inum);
      steps := more + 1;
    }
  }

  lemma CreatedRanked(s: seq<Inode>, rank: seq<nat>, dp: nat, k: nat, name: string, kind: int, n: nat)
    requires Inv(s) && Ranked(s, rank) && Linked(s, dp) && 1 <= n < |s| && s[n] == FREE
    requires Fillable(s[dp].ents, k, name)
    ensures Ranked(Created(s, dp, k, name, kind, n), rank[n := rank[dp] + 1])
  {
    var s' := Created(s, dp, k, name, kind, n);
    forall d | 0 <= d < |s'| && Linked(s', d) && d != n
      ensures DirOk(s, d) && s'[d].ents[1] == s[d].ents[1] && s[d].ents[1].inum != n
    {
      assert DirOk(s, d);
    }
  }

  // ------------------------------------------------------------ what a directory lists

  ghost function Listing(ents: seq<Dirent>): set<(string, nat)> {
    set k | 0 <= k < |ents| && ents[k].inum != 0 :: (ents[k].name, ents[k].inum)
  }

  ghost predicate Lists(ents: seq<Dirent>, name: string) {
    exists k :: 0 <= k < |ents| && ents[k].inum != 0 && ents[k].name == name
  }

  lemma FilledListing(ents: seq<Dirent>, k: nat, name: string, i: nat)
    requires Fillable(ents, k, name) && i != 0
    ensures Listing(PutEntry(ents, k, Dirent(i, name))) == Listing(ents) + {(name, i)}
  {
    var e := PutEntry(ents, k, Dirent(i, name));
    forall x ensures x in Listing(e) <==> x in Listing(ents) + {(name, i)} {
      if x in Listing(ents) {
        var j :| 0 <= j < |ents| && ents[j].inum != 0 && x == (ents[j].name, ents[j].inum);
        assert e[j] == ents[j];
      }
      assert e[k] == Dirent(i, name);
    }
  }

  lemma ErasedListing(ents: seq<Dirent>, k: nat)
    requires UniqueNames(ents) && k < |ents| && ents[k].inum != 0
    ensures Listing(PutEntry(ents, k, UNUSED)) == Listing(ents) - {(ents[k].name, ents[k].inum)}
  {
    var e := PutEntry(ents, k, UNUSED);
    forall x ensures x in Listing(e) <==> x in Listing(ents) - {(ents[k].name, ents[k].inum)} {
      if x in Listing(ents) && x != (ents[k].name, ents[k].inum) {
        var j :| 0 <= j < |ents| && ents[j].inum != 0 && x == (ents[j].name, ents[j].inum);
        assert e[j] == ents[j];
      }
    }
  }

  // ------------------------------------------------------------ the scans

  /** The loop of dirlookup(). */
  method FindEntry(ents: seq<Dirent>, name: string) returns (k: nat)
    ensures k <= |ents|
    ensures k < |ents| ==> ents[k].inum != 0 && ents[k].name == name
    ensures k == |ents| <==> !Lists(ents, name)
  {
    k := 0;
    while k < |ents|
      invariant k <= |ents|
      invariant forall j :: 0 <= j < k ==> ents[j].inum == 0 || ents[j].name != name
    {
      if ents[k].inum != 0 && ents[k].name == name { return; }
      k := k + 1;
    }
  }

  /** The loop of dirlink(). */
  method FindSlot(ents: seq<Dirent>) returns (k: nat)
    ensures k <= |ents| && (k < |ents| ==> ents[k].inum == 0)
    ensures forall j :: 0 <= j < k ==> ents[j].inum != 0
  {
    k := 0;
    while k < |ents| && ents[k].inum != 0
      invariant k <= |ents|
      invariant forall j :: 0 <= j < k ==> ents[j].inum != 0
    {
      k := k + 1;
    }
  }

  method IsDirEmpty(ents: seq<Dirent>) returns (b: bool)
    ensures b <==> NoEntries(ents)
  {
    var k := 2;
    while k < |ents|
      invariant forall j :: 2 <= j < k && j < |ents| ==> ents[j].inum == 0
    {
      if ents[k].inum != 0 { return false; }
      k := k + 1;
    }
    return true;
  }

  ghost predicate AllInUse(s: seq<Inode>) {
    forall i :: 1 <= i < |s| ==> s[i].kind != 0
  }

  /** No entry can be added: every slot is in use and the file has its greatest size. */
  ghost predicate Full(ents: seq<Dirent>) {
    |ents| >= MAXENTS && forall k :: 0 <= k < |ents| ==> ents[k].inum != 0
  }

  /** The loop of ialloc(); 0 stands for its panic. */
  method FindFree(s: seq<Inode>) returns (n: nat)
    ensures n == 0 <==> AllInUse(s)
    ensures n != 0 ==> n < |s| && s[n].kind == 0 && forall i :: 1 <= i < n ==> s[i].kind != 0
  {
    n := 1;
    while n < |s|
      invariant 1 <= n && forall i :: 1 <= i < n && i < |s| ==> s[i].kind != 0
    {
      if s[n].kind == 0 { return; }
      n := n + 1;
    }
    n := 0;
  }

  // ------------------------------------------------------------ the operations

  /** What remains of an inode without names: nothing, unless it is still referenced. */
  function Settled(s: seq<Inode>, i: nat): seq<Inode>
    requires i < |s|
  {
    if s[i].nlink == 0 && s[i].ref == 0 then s[i := FREE] else s
  }

  lemma InRange(s: seq<Inode>, d: nat, k: nat)
    requires Inv(s) && IsDir(s, d) && k < |s[d].ents| && s[d].ents[k].inum != 0
    ensures DirOk(s, d) && s[d].ents[k].inum < |s| && Stays(s[s[d].ents[k].inum])
    ensures Linked(s, d) ==> s[s[d].ents[k].inum].nlink > 0 && s[s[d].ents[k].inum].kind != 0
  {
    assert DirOk(s, d);
    if Linked(s, d) {
      assert EntryOk(s, d, k);
      if k != 0 { NamedIsLive(s, d, k, s[d].ents[k].inum); }
    }
    InvAt(s, s[d].ents[k].inum);
  }

  ghost predicate CreateOld(s: seq<Inode>, s': seq<Inode>, dp: nat, name: string, kind: int, r: nat) {
    exists i :: dp < |s| && i < |s| && (name, i) in Listing(s[dp].ents)
      && r == (if kind == T_FILE && s[i].kind == T_FILE then i else 0)
      && s' == (if r != 0 then Got(s, i) else s)
  }

  /** The name leads to a freed inode, as ".." of a removed directory may. */
  ghost predicate Lost(s: seq<Inode>, dp: nat, name: string) {
    exists i :: dp < |s| && i < |s| && (name, i) in Listing(s[dp].ents) && s[i].kind == 0
  }

  ghost predicate CreateNew(s: seq<Inode>, s': seq<Inode>, dp: nat, name: string, kind: int, r: nat) {
    && dp < |s| == |s'| && 1 <= r < |s| && s[r] == FREE && r != dp && (forall i :: 1 <= i < r ==> s[i].kind != 0)
    && (exists k :: Fillable(s[dp].ents, k, name) && s' == Created(s, dp, k, name, kind, r))
    && Listing(s'[dp].ents) == Listing(s[dp].ents) + {(name, r)}
  }

  ghost predicate LinkNew(s: seq<Inode>, s': seq<Inode>, ip: nat, dp: nat, name: string) {
    && dp < |s| == |s'| && ip < |s| && ip != dp
    && (exists k :: Fillable(s[dp].ents, k, name) && s' == LinkMade(s, dp, k, name, ip))
    && Listing(s'[dp].ents) == Listing(s[dp].ents) + {(name, ip)}
  }

  ghost predicate UnlinkDone(s: seq<Inode>, s': seq<Inode>, dp: nat, name: string) {
    exists k: nat :: UnlinkAt(s, dp, name, k) && |s'| == |s|
      && var ip := s[dp].ents[k].inum;
         && ip != dp && s' == Settled(Removed(s, dp, k, ip), ip)
         && Listing(s'[dp].ents) == Listing(s[dp].ents) - {(name, ip)}
  }

  lemma OldNameStates(s: seq<Inode>, dp: nat, k: nat, name: string, kind: int)
    requires Inv(s) && IsDir(s, dp) && k < |s[dp].ents| && s[dp].ents[k].inum != 0 && s[dp].ents[k].name == name
    ensures var i := s[dp].ents[k].inum;
            && Lists(s[dp].ents, name) && i < |s| && s[i].ref + 1 > 0 && Got(Got(s, dp), i)[dp].ref > 0
            && Put(Got(Got(s, dp), i), dp) == Got(s, i) && Put(Got(s, i), i) == s
            && (Lost(s, dp, name) <==> s[i].kind == 0) && (Linked(s, dp) ==> s[i].kind != 0)
            && (s[i].kind != 0 ==> Inv(Got(s, i)))
            && (forall rank :: Ranked(s, rank) ==> Ranked(Got(s, i), rank))
            && (if kind == T_FILE && s[i].kind == T_FILE then CreateOld(s, Got(s, i), dp, name, kind, i)
                else CreateOld(s, s, dp, name, kind, 0))
  {
    var i := s[dp].ents[k].inum;
    InRange(s, dp, k);
    InvAt(s, dp);
    if s[i].kind != 0 { GotKeepsInv(s, i); }
    assert (name, i) in Listing(s[dp].ents);
  }

  lemma NameIsNew(s: seq<Inode>, dp: nat, name: string)
    requires dp < |s| && !Lists(s[dp].ents, name)
    ensures !Lost(s, dp, name) && (AllInUse(Got(s, dp)) <==> AllInUse(s))
    ensures forall i :: 0 <= i < |s| ==> Got(s, dp)[i].kind == s[i].kind
  {
    forall i | 0 <= i < |s| ensures Got(s, dp)[i].kind == s[i].kind {}
  }

  lemma NewInRange(s: seq<Inode>, dp: nat, kind: int, n: nat)
    requires Inv(s) && IsDir(s, dp) && 1 <= n < |s| && s[n].kind == 0
    ensures var t := Bumped(Got(s, dp), dp, if kind == T_DIR then 1 else 0)[n := Fresh(n, dp, kind)];
            && n != dp && s[n] == FREE && t[dp].ents == s[dp].ents
            && (forall j :: 0 <= j < |t[dp].ents| ==> t[dp].ents[j].inum < |t|)
            && (forall j :: 0 <= j < |t[dp].ents| && t[dp].ents[j].inum != 0 ==> Stays(t[t[dp].ents[j].inum]))
  {
    DirInRange(s, dp);
    InvAt(s, n);
    InvAt(s, dp);
    hide Inv, DirOk;
  }

  lemma NewNameStates(s: seq<Inode>, rank: seq<nat>, dp: nat, k: nat, name: string, kind: int, n: nat)
    requires Inv(s) && Ranked(s, rank) && IsDir(s, dp) && 1 <= n < |s| && s[n] == FREE && kind != 0
    requires Fillable(s[dp].ents, k, name) && (forall i :: 1 <= i < n ==> s[i].kind != 0)
    ensures |rank| == |s|
    ensures var t := Bumped(Got(s, dp), dp, if kind == T_DIR then 1 else 0)[n := Fresh(n, dp, kind)];
            var s' := Created(s, dp, k, name, kind, n);
            && n != dp && Written(t, dp, k, Dirent(n, name))[dp].ref > 0
            && Put(Written(t, dp, k, Dirent(n, name)), dp) == s'
            && (Inv(s') <==> Linked(s, dp)) && (Linked(s, dp) ==> Ranked(s', rank[n := rank[dp] + 1]))
            && CreateNew(s, s', dp, name, kind, n)
  {
    assert |rank| == |s|;
    InvAt(s, dp);
    hide Inv, Ranked, Listing, DirOk;
    CreateIff(s, dp, k, name, kind, n);
    if Linked(s, dp) { CreatedRanked(s, rank, dp, k, name, kind, n); }
    FilledListing(s[dp].ents, k, name, n);
  }

  lemma LinkInRange(s: seq<Inode>, dp: nat, ip: nat)
    requires Inv(s) && IsDir(s, dp) && 1 <= ip < |s| && ip != dp
    ensures var t := Got(Bumped(Got(s, ip), ip, 1), dp);
            && t[dp].ents == s[dp].ents
            && (forall j :: 0 <= j < |t[dp].ents| ==> t[dp].ents[j].inum < |t|)
            && (forall j :: 0 <= j < |t[dp].ents| && t[dp].ents[j].inum != 0 ==> Stays(t[t[dp].ents[j].inum]))
  {
    DirInRange(s, dp);
    InvAt(s, ip);
    InvAt(s, dp);
    hide Inv, DirOk;
  }

  lemma LinkStates(s: seq<Inode>, rank: seq<nat>, dp: nat, k: nat, name: string, ip: nat)
    requires Inv(s) && Ranked(s, rank) && IsDir(s, dp) && 1 <= ip < |s| && s[ip].kind != T_DIR && s[ip].kind != 0
    requires Fillable(s[dp].ents, k, name)
    ensures var t := Written(Got(Bumped(Got(s, ip), ip, 1), dp), dp, k, Dirent(ip, name));
            var s' := LinkMade(s, dp, k, name, ip);
            && t[dp].ref > 0 && t[ip].ref > 0
            && Put(Put(t, dp), ip) == s' && (Inv(s') <==> Linked(s, dp)) && Ranked(s', rank)
            && LinkNew(s, s', ip, dp, name)
  {
    InvAt(s, ip);
    InvAt(s, dp);
    hide Inv, Ranked, Listing, DirOk;
    LinkIff(s, dp, k, name, ip);
    FilledListing(s[dp].ents, k, name, ip);
    LinkRanked(s, rank, dp, k, name, ip);
  }

  lemma NotListed(s: seq<Inode>, dp: nat, name: string)
    requires dp < |s| && !Lists(s[dp].ents, name)
    ensures forall k :: !UnlinkAt(s, dp, name, k)
  {
  }

  lemma UnlinkStates(s: seq<Inode>, rank: seq<nat>, dp: nat, k: nat, name: string)
    requires Inv(s) && Ranked(s, rank) && Linked(s, dp) && UnlinkAt(s, dp, name, k) && name != "." && name != ".."
    requires s[dp].ents[k].inum != dp
    ensures var ip := s[dp].ents[k].inum;
            var s' := Settled(Removed(s, dp, k, ip), ip);
            && s[dp].nlink > (if s[ip].kind == T_DIR then 1 else 0)
            && Inv(s') && Ranked(s', rank) && UnlinkDone(s, s', dp, name)
  {
    var ip := s[dp].ents[k].inum;
    FoundAt(s, dp, name, k);
    InRange(s, dp, k);
    hide Inv, Ranked, Listing, EntryOk, CountOk, DirOk;
    GotKeepsInv(s, ip);
    RemovedKeepsInv(Got(s, ip), dp, k, ip);
    PutKeepsInv(Removed(Got(s, ip), dp, k, ip), ip);
    RemovedRanked(s, rank, dp, k, ip);
    RemovedListing(s, dp, k, ip);
    assert Put(Removed(Got(s, ip), dp, k, ip), ip) == Settled(Removed(s, dp, k, ip), ip);
  }

  lemma RemovedListing(s: seq<Inode>, dp: nat, k: nat, ip: nat)
    requires Inv(s) && Linked(s, dp) && k < |s[dp].ents| && s[dp].ents[k].inum == ip && ip != 0 && ip != dp && ip < |s|
    ensures var s' := Settled(Removed(s, dp, k, ip), ip);
            && |s'| == |s| && Listing(s'[dp].ents) == Listing(s[dp].ents) - {(s[dp].ents[k].name, ip)}
  {
    hide Listing;
    assert DirOk(s, dp);
    ErasedListing(s[dp].ents, k);
  }

  lemma EraseStates(s: seq<Inode>, dp: nat, k: nat, ip: nat)
    requires dp < |s| && ip < |s| && ip != dp && k < |s[dp].ents|
    requires s[dp].nlink > (if s[ip].kind == T_DIR then 1 else 0)
    ensures var t := Got(Got(s, dp), ip);
            && t[dp].nlink > (if t[ip].kind == T_DIR then 1 else 0) && Removed(t, dp, k, ip)[dp].ref > 0
            && Put(Removed(t, dp, k, ip), dp)[ip].ref > 0
            && Put(Put(Removed(t, dp, k, ip), dp), ip) == Settled(Removed(s, dp, k, ip), ip)
  {
  }

  /** sys_unlink() finds `name` in slot `k`, and it names a file or an empty directory. */
  ghost predicate UnlinkAt(s: seq<Inode>, dp: nat, name: string, k: nat) {
    && dp < |s| && k < |s[dp].ents| && s[dp].ents[k].name == name && s[dp].ents[k].inum != 0
    && s[dp].ents[k].inum < |s|
    && (s[s[dp].ents[k].inum].kind == T_DIR ==> NoEntries(s[s[dp].ents[k].inum].ents))
  }

  /** Names are unique, so the slot found is the only one. */
  lemma FoundAt(s: seq<Inode>, dp: nat, name: string, k: nat)
    requires Inv(s) && IsDir(s, dp) && k < |s[dp].ents| && s[dp].ents[k].inum != 0
    requires s[dp].ents[k].name == name && name != "." && name != ".."
    ensures Linked(s, dp) && HasAt(s[dp].ents, k, s[dp].ents[k].inum) && s[dp].ents[k].inum < |s|
    ensures s[dp].ents[k].inum != dp && s[s[dp].ents[k].inum].nlink > 0
    ensures forall j :: UnlinkAt(s, dp, name, j) ==> j == k
  {
    assert DirOk(s, dp);
    InRange(s, dp, k);
    assert EntryOk(s, dp, k);
  }

  lemma DirInRange(s: seq<Inode>, d: nat)
    requires Inv(s) && IsDir(s, d)
    ensures d != 0 && (Linked(s, d) || s[d].ref > 0)
    ensures forall j :: 0 <= j < |s[d].ents| ==> s[d].ents[j].inum < |s|
    ensures forall j :: 0 <= j < |s[d].ents| && s[d].ents[j].inum != 0 ==> Stays(s[s[d].ents[j].inum])
  {
    InvAt(s, d);
    forall j | 0 <= j < |s[d].ents| && s[d].ents[j].inum != 0
      ensures s[d].ents[j].inum < |s| && Stays(s[s[d].ents[j].inum])
    {
      InRange(s, d, j);
    }
  }

  lemma SlotIsFillable(s: seq<Inode>, d: nat, k: nat, name: string)
    requires Inv(s) && IsDir(s, d) && k <= |s[d].ents| && (k < |s[d].ents| ==> s[d].ents[k].inum == 0)
    requires !Lists(s[d].ents, name)
    ensures Fillable(s[d].ents, k, name)
  {
    assert DirOk(s, d);
  }

  lemma LinkRanked(s: seq<Inode>, rank: seq<nat>, dp: nat, k: nat, name: string, ip: nat)
    requires Inv(s) && Ranked(s, rank) && IsDir(s, dp) && 1 <= ip < |s| && s[ip].kind != T_DIR
    requires Fillable(s[dp].ents, k, name)
    ensures Ranked(LinkMade(s, dp, k, name, ip), rank)
  {
    assert DirOk(s, dp);
  }

  lemma RemovedRanked(s: seq<Inode>, rank: seq<nat>, dp: nat, k: nat, ip: nat)
    requires Inv(s) && Ranked(s, rank) && Removable(s, dp, k, ip) && ip != dp
    ensures Ranked(Settled(Removed(s, dp, k, ip), ip), rank)
  {
    assert DirOk(s, dp);
  }

  lemma InitialInv(s: seq<Inode>)
    requires |s| > ROOTINO && s[ROOTINO] == Inode(T_DIR, 1, 0, ROOTENTS)
    requires forall i :: 0 <= i < |s| && i != ROOTINO ==> s[i] == FREE
    ensures Inv(s)
  {
    forall i | 1 <= i < |s| ensures CountOk(s, i) {
      forall d: nat, k: nat ensures Refers(s, d, k, i) <==> (d == ROOTINO && k == 1 && i == ROOTINO) {}
      assert Names(s, i) == if i == ROOTINO then {(1, 1)} else {};
    }
  }

  class FileSystem {
    var inodes: seq<Inode>
    ghost var rank: seq<nat>

    ghost predicate Valid()
      reads this
    {
      Inv(inodes) && Ranked(inodes, rank)
    }

    /** The file system that mkfs makes: an empty root directory. */
    constructor (ninodes: nat)
      requires ninodes > ROOTINO
      ensures Valid() && |inodes| == ninodes && inodes[ROOTINO] == Inode(T_DIR, 1, 0, ROOTENTS)
      ensures forall i :: 0 <= i < ninodes && i != ROOTINO ==> inodes[i] == FREE
      ensures Listing(inodes[ROOTINO].ents) == {(".", ROOTINO), ("..", ROOTINO)}
    {
      inodes := seq(ninodes, i => if i == ROOTINO then Inode(T_DIR, 1, 0, ROOTENTS) else FREE);
      rank := seq(ninodes, _ => 0);
      new;
      InitialInv(inodes);
      var ents := inodes[ROOTINO].ents;
      assert (ents[0].name, ents[0].inum) in Listing(ents) && (ents[1].name, ents[1].inum) in Listing(ents);
    }

    /** A reference is taken: iget() or idup() for open() or chdir(). */
    method Iget(i: nat)
      requires Valid() && 1 <= i < |inodes| && inodes[i].kind != 0
      modifies this
      ensures Valid() && inodes == Got(old(inodes), i)
    {
      GotKeepsInv(inodes, i);
      inodes := Got(inodes, i);
    }

    method Iput(i: nat)
      requires Valid() && 1 <= i < |inodes| && inodes[i].ref > 0
      modifies this
      ensures Valid() && inodes == Put(old(inodes), i)
    {
      PutKeepsInv(inodes, i);
      inodes := Put(inodes, i);
    }

    method Dirlookup(d: nat, name: string) returns (ip: nat, k: nat)
      requires d < |inodes|
      requires forall j :: 0 <= j < |inodes[d].ents| ==> inodes[d].ents[j].inum < |inodes|
      modifies this`inodes
      ensures ip == 0 <==> !Lists(old(inodes[d].ents), name)
      ensures ip == 0 ==> inodes == old(inodes)
      ensures ip != 0 ==> k < |old(inodes[d].ents)| && old(inodes[d].ents)[k] == Dirent(ip, name)
                          && ip < |inodes| && inodes == Got(old(inodes), ip)
    {
      k := FindEntry(inodes[d].ents, name);
      if k == |inodes[d].ents| { return 0, k; }
      ip := inodes[d].ents[k].inum;
      inodes := Got(inodes, ip);
    }

    /** dirlink(); `panicked` when writei() cannot extend the directory. */
    method Dirlink(d: nat, name: string, inum: nat) returns (ok: bool, k: nat, panicked: bool)
      requires d < |inodes| && inum != 0
      requires forall j :: 0 <= j < |inodes[d].ents| ==> inodes[d].ents[j].inum < |inodes|
      requires forall j :: 0 <= j < |inodes[d].ents| && inodes[d].ents[j].inum != 0 ==>
                Stays(inodes[inodes[d].ents[j].inum])
      modifies this`inodes
      ensures panicked <==> !Lists(old(inodes[d].ents), name) && Full(old(inodes[d].ents))
      ensures ok <==> !Lists(old(inodes[d].ents), name) && !panicked
      ensures !ok ==> inodes == old(inodes)
      ensures ok ==> k <= |old(inodes[d].ents)| && inodes == Written(old(inodes), d, k, Dirent(inum, name))
      ensures ok ==> (k < |old(inodes[d].ents)| ==> old(inodes[d].ents)[k].inum == 0)
                     && forall j :: 0 <= j < k ==> old(inodes[d].ents)[j].inum != 0
    {
      ghost var s := inodes;
      var ip, slot := Dirlookup(d, name);
      if ip != 0 {
        inodes := Put(inodes, ip);
        assert inodes == s;
        return false, slot, false;
      }
      k := FindSlot(inodes[d].ents);
      if k == |inodes[d].ents| && k >= MAXENTS { return false, k, true; }
      inodes := Written(inodes, d, k, Dirent(inum, name));
      ok, panicked := true, false;
    }

    /** The part of create() that makes the inode; 0 stands for the panic of ialloc(). */
    method NewInode(dp: nat, kind: int) returns (n: nat)
      requires 0 < dp < |inodes| && inodes[dp].kind != 0 && kind != 0
      modifies this`inodes
      ensures n == 0 <==> AllInUse(old(inodes))
      ensures |inodes| == |old(inodes)| && n < |inodes|
      ensures n != 0 ==> old(inodes)[n].kind == 0 && (forall i :: 1 <= i < n ==> old(inodes)[i].kind != 0)
      ensures n != 0 ==> inodes == Bumped(old(inodes), dp, if kind == T_DIR then 1 else 0)[n := Fresh(n, dp, kind)]
    {
      n := FindFree(inodes);
      if n == 0 { return; }
      inodes := inodes[n := Inode(kind, 0, 0, [])];
      inodes := Got(inodes, n);
      inodes := Bumped(inodes, n, 1);
      if kind == T_DIR {
        inodes := Bumped(inodes, dp, 1);
        MakeDots(n, dp);
      }
    }

    method MakeDots(n: nat, dp: nat)
      requires 0 < n < |inodes| && 0 < dp < |inodes| && inodes[n].ents == [] && inodes[n].nlink > 0
      modifies this`inodes
      ensures inodes == old(inodes)[n := old(inodes)[n].(ents := [Dirent(n, "."), Dirent(dp, "..")])]
    {
      var ok, k, panicked := Dirlink(n, ".", n);
      assert ok && inodes[n].ents == [Dirent(n, ".")];
      ok, k, panicked := Dirlink(n, "..", dp);
      assert ok && inodes[n].ents == [Dirent(n, "."), Dirent(dp, "..")];
    }

    /** create(): the new or already existing inode, referenced, or 0. */
    method Create(dp: nat, name: string, kind: int) returns (r: nat, panicked: bool)
      requires Valid() && IsDir(inodes, dp) && kind != 0
      modifies this
      ensures panicked <==> if Lists(old(inodes[dp].ents), name) then Lost(old(inodes), dp, name)
                            else AllInUse(old(inodes)) || Full(old(inodes[dp].ents))
      ensures panicked ==> !old(Linked(inodes, dp)) || !Lists(old(inodes[dp].ents), name)
      ensures !panicked && Lists(old(inodes[dp].ents), name) ==>
                Valid() && CreateOld(old(inodes), inodes, dp, name, kind, r)
      ensures !panicked && !Lists(old(inodes[dp].ents), name) ==>
                && CreateNew(old(inodes), inodes, dp, name, kind, r)
                && (Inv(inodes) <==> old(Linked(inodes, dp))) && (old(Linked(inodes, dp)) ==> Valid())
    {
      hide Inv, Ranked, Created, Lists, Listing, Fillable, CreateOld, CreateNew, Lost, AllInUse, Full;
      ghost var s := inodes;
      DirInRange(s, dp);
      inodes := Got(inodes, dp);
      assert inodes[dp].ents == s[dp].ents;
      var ip, k := Dirlookup(dp, name);
      if ip != 0 {
        OldNameStates(s, dp, k, name, kind);
        inodes := Put(inodes, dp);
        if inodes[ip].kind == 0 { return 0, true; }   // ilock: no type
        if kind == T_FILE && inodes[ip].kind == T_FILE {
          return ip, false;
        }
        inodes := Put(inodes, ip);
        return 0, false;
      }
      NameIsNew(s, dp, name);
      r := NewInode(dp, kind);
      if r == 0 { return 0, true; }
      NewInRange(s, dp, kind, r);
      var ok;
      ok, k, panicked := Dirlink(dp, name, r);
      if panicked { return; }
      assert ok;
      inodes := Put(inodes, dp);
      SlotIsFillable(s, dp, k, name);
      NewNameStates(s, rank, dp, k, name, kind, r);
      rank := rank[r := rank[dp] + 1];
    }

    /** sys_link() of the inode that namei() found; `dp` is 0 when nameiparent() fails. */
    method Link(ip: nat, dp: nat, name: string) returns (ok: bool, panicked: bool)
      requires Valid() && 1 <= ip < |inodes| && inodes[ip].kind != 0
      requires dp != 0 ==> IsDir(inodes, dp)
      modifies this
      ensures var may := old(inodes)[ip].kind != T_DIR && dp != 0 && !Lists(old(inodes)[dp].ents, name);
              && (panicked <==> may && Full(old(inodes)[dp].ents))
              && (ok <==> may && !panicked)
      ensures !ok && !panicked ==> Valid() && inodes == old(inodes)
      ensures ok ==>
                && LinkNew(old(inodes), inodes, ip, dp, name)
                && (Inv(inodes) <==> old(Linked(inodes, dp))) && (old(Linked(inodes, dp)) ==> Valid())
    {
      hide Inv, Ranked, LinkMade, Lists, Listing, Fillable, LinkNew, Full;
      ghost var s := inodes;
      InvAt(s, ip);
      inodes := Got(inodes, ip);
      if inodes[ip].kind == T_DIR {
        inodes := Put(inodes, ip);
        assert inodes == s;
        return false, false;
      }
      inodes := Bumped(inodes, ip, 1);
      if dp == 0 {
        inodes := Bumped(inodes, ip, -1);
        inodes := Put(inodes, ip);
        assert inodes == s;
        return false, false;
      }
      DirInRange(s, dp);
      inodes := Got(inodes, dp);
      LinkInRange(s, dp, ip);
      var k;
      ok, k, panicked := Dirlink(dp, name, ip);
      if panicked { return; }
      inodes := Put(inodes, dp);
      if !ok {
        inodes := Bumped(inodes, ip, -1);
        inodes := Put(inodes, ip);
        assert inodes == s;
        return;
      }
      inodes := Put(inodes, ip);
      SlotIsFillable(s, dp, k, name);
      LinkStates(s, rank, dp, k, name, ip);
    }

    /** The part of sys_unlink() that changes anything. */
    method Erase(dp: nat, k: nat, ip: nat)
      requires dp < |inodes| && ip < |inodes| && dp != ip && k < |inodes[dp].ents|
      requires inodes[dp].ref > 0 && inodes[ip].ref > 0
      requires inodes[dp].nlink > (if inodes[ip].kind == T_DIR then 1 else 0)
      modifies this`inodes
      ensures inodes == Put(Put(Removed(old(inodes), dp, k, ip), dp), ip)
    {
      var isDir := inodes[ip].kind == T_DIR;
      inodes := Written(inodes, dp, k, UNUSED);
      if isDir {
        inodes := Bumped(inodes, dp, -1);
      }
      inodes := Put(inodes, dp);
      inodes := Bumped(inodes, ip, -1);
      inodes := Put(inodes, ip);
    }

    /** sys_unlink(). */
    method Unlink(dp: nat, name: string) returns (ok: bool)
      requires Valid() && IsDir(inodes, dp)
      modifies this
      ensures Valid() && (ok ==> old(Linked(inodes, dp)))
      ensures ok <==> name != "." && name != ".." && exists k :: UnlinkAt(old(inodes), dp, name, k)
      ensures !ok ==> inodes == old(inodes)
      ensures ok ==> UnlinkDone(old(inodes), inodes, dp, name)
    {
      hide Inv, Ranked, Removed, Lists, Listing, UnlinkDone, NoEntries;
      ghost var s := inodes;
      DirInRange(s, dp);
      inodes := Got(inodes, dp);
      if name == "." || name == ".." {
        inodes := Put(inodes, dp);
        assert inodes == s;
        return false;
      }
      assert inodes[dp].ents == s[dp].ents;
      var ip, k := Dirlookup(dp, name);
      if ip == 0 {
        inodes := Put(inodes, dp);
        assert inodes == s;
        NotListed(s, dp, name);
        return false;
      }
      FoundAt(s, dp, name, k);
      assert inodes[ip].nlink >= 1;   // no panic
      if inodes[ip].kind == T_DIR {
        var empty := IsDirEmpty(inodes[ip].ents);
        if !empty {
          inodes := Put(inodes, ip);
          inodes := Put(inodes, dp);
          assert inodes == s;
          return false;
        }
      }
      assert UnlinkAt(s, dp, name, k);
      UnlinkStates(s, rank, dp, k, name);
      EraseStates(s, dp, k, ip);
      Erase(dp, k, ip);
      ok := true;
    }
  }

  // ------------------------------------------------------------ two runs

  const DROOT := ROOTENTS + [Dirent(2, "d")]
  const FROOT := ROOTENTS + [Dirent(2, "d"), Dirent(3, "f")]
  const GONE := ROOTENTS + [UNUSED, Dirent(3, "f")]
  const DENTS := [Dirent(2, "."), Dirent(1, "..")]

  /** mkdir d and creat f in the root of a new file system. */
  lemma MadeTwo(s: seq<Inode>, t: seq<Inode>, u: seq<Inode>, d: nat, f: nat)
    requires |s| >= 5 && s[ROOTINO] == Inode(T_DIR, 1, 0, ROOTENTS)
    requires forall i :: 0 <= i < |s| && i != ROOTINO ==> s[i] == FREE
    requires CreateNew(s, t, ROOTINO, "d", T_DIR, d) && CreateNew(t, u, ROOTINO, "f", T_FILE, f)
    ensures d == 2 && f == 3 && |u| == |s| && u[ROOTINO] == Inode(T_DIR, 2, 0, FROOT)
    ensures u[2] == Inode(T_DIR, 1, 1, DENTS)
    ensures u[3] == Inode(T_FILE, 1, 1, []) && forall i :: 3 < i < |u| ==> u[i] == FREE
  {
    hide Listing;
    var k :| Fillable(s[ROOTINO].ents, k, "d") && t == Created(s, ROOTINO, k, "d", T_DIR, d);
    assert k == 2 && s[2].kind == 0;
    assert d == 2;
    assert t[ROOTINO].ents == DROOT && t[2] == Inode(T_DIR, 1, 1, DENTS);
    var l :| Fillable(t[ROOTINO].ents, l, "f") && u == Created(t, ROOTINO, l, "f", T_FILE, f);
    assert t[ROOTINO].ents[2].inum == 2;
    assert l == 3 && t[3].kind == 0;
    assert f == 3;
    assert u[ROOTINO].ents == FROOT;
  }

  /** rmdir d, which is still somebody's working directory. */
  lemma Rmdir(u: seq<Inode>, v: seq<Inode>)
    requires |u| >= 5 && u[ROOTINO] == Inode(T_DIR, 2, 0, FROOT) && u[2] == Inode(T_DIR, 1, 1, DENTS)
    requires u[3] == Inode(T_FILE, 1, 1, []) && forall i :: 3 < i < |u| ==> u[i] == FREE
    ensures UnlinkAt(u, ROOTINO, "d", 2)
    ensures UnlinkDone(u, v, ROOTINO, "d") ==>
              && |v| == |u| && v[ROOTINO] == Inode(T_DIR, 1, 0, GONE) && v[2] == Inode(T_DIR, 0, 1, DENTS)
                  && v[3] == u[3]
              && v[4] == FREE
  {
    hide Listing;
    if UnlinkDone(u, v, ROOTINO, "d") {
      var k: nat :| UnlinkAt(u, ROOTINO, "d", k) && |v| == |u| && u[ROOTINO].ents[k].inum != ROOTINO
                    && v == Settled(Removed(u, ROOTINO, k, u[ROOTINO].ents[k].inum), u[ROOTINO].ents[k].inum);
      assert k == 2;
      assert v[ROOTINO].ents == GONE;
    }
  }

  /** Neither a panic nor an old name is in the way of "x" in the removed directory. */
  lemma RoomForX(v: seq<Inode>)
    requires |v| >= 5 && v[2].ents == DENTS && v[4] == FREE
    ensures !Lists(v[2].ents, "x") && !AllInUse(v) && !Full(v[2].ents)
  {
    assert v[4].kind == 0;
  }

  /** mkdir d; creat f; a process enters d; rmdir d. */
  method RemoveWorkingDirectory() returns (fs: FileSystem)
    ensures fresh(fs) && fs.Valid() && |fs.inodes| == 5 && fs.inodes[ROOTINO] == Inode(T_DIR, 1, 0, GONE)
    ensures fs.inodes[2] == Inode(T_DIR, 0, 1, DENTS) && fs.inodes[3] == Inode(T_FILE, 1, 1, []) && fs.inodes[4] == FREE
  {
    hide Inv, Ranked, Listing, CreateOld, CreateNew, UnlinkDone, Lists, Full, AllInUse, UnlinkAt;
    fs := new FileSystem(5);
    ghost var s := fs.inodes;
    RootRoom(s, "d");
    var d, panicked := fs.Create(ROOTINO, "d", T_DIR);
    ghost var t := fs.inodes;
    AfterMkdir(s, t, d);
    var f;
    f, panicked := fs.Create(ROOTINO, "f", T_FILE);
    ghost var u := fs.inodes;
    MadeTwo(s, t, u, d, f);
    Rmdir(u, u);
    var ok := fs.Unlink(ROOTINO, "d");
    Rmdir(u, fs.inodes);
  }

  lemma RootRoom(s: seq<Inode>, name: string)
    requires |s| >= 5 && s[ROOTINO] == Inode(T_DIR, 1, 0, ROOTENTS) && s[2] == FREE && name != "." && name != ".."
    ensures !Lists(s[ROOTINO].ents, name) && !AllInUse(s) && !Full(s[ROOTINO].ents)
  {
    assert s[2].kind == 0;
  }

  lemma AfterMkdir(s: seq<Inode>, t: seq<Inode>, d: nat)
    requires |s| >= 5 && s[ROOTINO] == Inode(T_DIR, 1, 0, ROOTENTS)
    requires forall i :: 0 <= i < |s| && i != ROOTINO ==> s[i] == FREE
    requires CreateNew(s, t, ROOTINO, "d", T_DIR, d)
    ensures IsDir(t, ROOTINO) && Linked(t, ROOTINO) && !Lists(t[ROOTINO].ents, "f") && !AllInUse(t)
    ensures !Full(t[ROOTINO].ents)
  {
    hide Listing;
    var k :| Fillable(s[ROOTINO].ents, k, "d") && t == Created(s, ROOTINO, k, "d", T_DIR, d);
    assert k == 2 && s[2].kind == 0;
    assert d == 2;
    assert t[ROOTINO].ents == DROOT && t[4].kind == 0;
  }

  /** A file is created in a working directory that was removed. */
  method CreateInRemoved() returns (fs: FileSystem, r: nat, panicked: bool)
    ensures !panicked && r == 4 && !Inv(fs.inodes)
  {
    hide Inv, Ranked, Listing, CreateOld, Lists, Full, AllInUse;
    fs := RemoveWorkingDirectory();
    RoomForX(fs.inodes);
    r, panicked := fs.Create(2, "x", T_FILE);
  }

  /** A file with a name elsewhere is linked into a working directory that was removed. */
  method LinkInRemoved() returns (fs: FileSystem, ok: bool, panicked: bool)
    ensures ok && !Inv(fs.inodes)
  {
    hide Inv, Ranked, Listing, LinkNew, Lists, Full, AllInUse;
    fs := RemoveWorkingDirectory();
    RoomForX(fs.inodes);
    ok, panicked := fs.Link(3, 2, "x");
  }
}
