/** Blocks and bytes of files: the bitmap allocator, the block map and the byte-level
reads and writes of fs.c, and the chunk loop of filewrite() in file.c. */
module Fs {

  import opened Basics
  import opened DiskLayout

  const NDIRECT := 12
  const NINDIRECT := 128
  const MAXFILE := 140
  const NSLOTS := 141   // direct, the indirect pointer, the indirect entries

  datatype Inode = Inode(size: nat, addrs: seq<int>)

  datatype State = State(disk: Disk, inodes: seq<Inode>)

  // ------------------------------------------------------------ slots

  /** The block number in slot `i`: a direct slot, the pointer to the indirect block
      (slot NDIRECT), or an entry of that block. */
  function Addr(d: Disk, ino: Inode, i: nat): int {
    if |ino.addrs| != NDIRECT + 1 || i >= NSLOTS then 0
    else if i <= NDIRECT then ino.addrs[i]
    else
      var p := ino.addrs[NDIRECT];
      if 0 < p < |d| && |d[p]| == BSIZE then Word(d[p], i - NDIRECT - 1) else 0
  }

  /** The slot that holds file block `bn`. */
  function SlotOf(bn: nat): nat {
    if bn < NDIRECT then bn else bn + 1
  }

  /** Who owns each data block in use: inode and slot. */
  type Owner = map<int, (nat, nat)>

  ghost predicate SlotOk(s: State, owner: Owner, f: nat, i: nat)
    requires f < |s.inodes|
  {
    var b := Addr(s.disk, s.inodes[f], i);
    b != 0 ==> b in owner && owner[b] == (f, i)
  }

  ghost predicate BlockOk(s: State, sb: Super, owner: Owner, b: int) {
    b in owner ==>
      && sb.datastart <= b < sb.size
      && owner[b].0 < |s.inodes| && owner[b].1 < NSLOTS
      && Addr(s.disk, s.inodes[owner[b].0], owner[b].1) == b
  }

  ghost predicate BitOk(s: State, sb: Super, owner: Owner, b: nat) {
    Bit(s.disk, sb, b) <==> b < sb.datastart || b in owner
  }

  /** Each block in use belongs to exactly one slot of one inode, and exactly those have
      their bitmap bit set. */
  ghost predicate Own(s: State, sb: Super, owner: Owner) {
    && SuperOk(sb) && DiskOk(s.disk, sb) && sb.size < WORD
    && (forall f :: 0 <= f < |s.inodes| ==> |s.inodes[f].addrs| == NDIRECT + 1)
    && (forall f, i :: 0 <= f < |s.inodes| && 0 <= i < NSLOTS ==> SlotOk(s, owner, f, i))
    && (forall b :: b in owner ==> BlockOk(s, sb, owner, b))
    && (forall b :: 0 <= b < sb.size ==> BitOk(s, sb, owner, b))
  }

  /** Two slots never share a block. */
  lemma NoSharing(s: State, sb: Super, owner: Owner, f: nat, i: nat, g: nat, j: nat)
    requires Own(s, sb, owner) && f < |s.inodes| && g < |s.inodes| && i < NSLOTS && j < NSLOTS
    requires Addr(s.disk, s.inodes[f], i) == Addr(s.disk, s.inodes[g], j) != 0
    ensures f == g && i == j
  {
    assert SlotOk(s, owner, f, i) && SlotOk(s, owner, g, j);
  }

  /** A data block's bit is set exactly when some slot holds it. */
  lemma BitIffOwned(s: State, sb: Super, owner: Owner, b: nat)
    requires Own(s, sb, owner) && sb.datastart <= b < sb.size
    ensures Bit(s.disk, sb, b) <==>
            exists f, i :: 0 <= f < |s.inodes| && 0 <= i < NSLOTS && Addr(s.disk, s.inodes[f], i) == b
  {
    assert BitOk(s, sb, owner, b);
    if b in owner {
      assert BlockOk(s, sb, owner, b);
    }
    if f, i :| 0 <= f < |s.inodes| && 0 <= i < NSLOTS && Addr(s.disk, s.inodes[f], i) == b {
      assert SlotOk(s, owner, f, i);
    }
  }

  // ------------------------------------------------------------ steps that keep ownership

  function Allocated(d: Disk, sb: Super, b: nat): Disk
    requires SuperOk(sb) && DiskOk(d, sb) && b < sb.size
  {
    WithBit(d, sb, b, true)[b := Zeros(BSIZE)]
  }

  lemma AllocatedFacts(d: Disk, sb: Super, b: nat)
    requires SuperOk(sb) && DiskOk(d, sb) && sb.datastart <= b < sb.size
    ensures var d' := Allocated(d, sb, b);
            && DiskOk(d', sb) && d'[b] == Zeros(BSIZE)
            && (forall y :: sb.datastart <= y < sb.size && y != b ==> d'[y] == d[y])
            && (forall c :: 0 <= c < sb.size ==> (Bit(d', sb, c) <==> c == b || Bit(d, sb, c)))
  {
    var w := WithBit(d, sb, b, true);
    WithBitOk(d, sb, b, true);
    ZeroBlock();
    hide IsBlock, Zeros;
    forall c | 0 <= c < sb.size ensures Bit(Allocated(d, sb, b), sb, c) <==> c == b || Bit(d, sb, c) {
      BitWith(d, sb, b, true, c);
      BitFrame(w, Allocated(d, sb, b), sb, c);
    }
  }

  /** balloc() and a store of the new block number into slot `i` <= NDIRECT of `f`. */
  function StoredDirect(s: State, sb: Super, f: nat, i: nat, b: nat): State
    requires SuperOk(sb) && DiskOk(s.disk, sb) && b < sb.size && f < |s.inodes|
    requires |s.inodes[f].addrs| == NDIRECT + 1 && i <= NDIRECT
  {
    State(Allocated(s.disk, sb, b), s.inodes[f := s.inodes[f].(addrs := s.inodes[f].addrs[i := b])])
  }

  lemma StoreDirectAddr(s: State, sb: Super, owner: Owner, f: nat, i: nat, b: nat, g: nat, j: nat)
    requires Own(s, sb, owner) && f < |s.inodes| && i <= NDIRECT && b < sb.size && !Bit(s.disk, sb, b)
    requires s.inodes[f].addrs[i] == 0 && g < |s.inodes| && j < NSLOTS
    ensures sb.datastart <= b && b !in owner
    ensures var s' := StoredDirect(s, sb, f, i, b);
            Addr(s'.disk, s'.inodes[g], j) == if g == f && j == i then b else Addr(s.disk, s.inodes[g], j)
  {
    assert BitOk(s, sb, owner, b);
    AllocatedFacts(s.disk, sb, b);
    var p := s.inodes[g].addrs[NDIRECT];
    assert SlotOk(s, owner, g, NDIRECT);
    if p != 0 { assert BlockOk(s, sb, owner, p); }
    if g == f && i == NDIRECT && j > NDIRECT { ZeroWord(j - NDIRECT - 1); }
  }

  lemma StoreDirectKeepsOwn(s: State, sb: Super, owner: Owner, f: nat, i: nat, b: nat)
    requires Own(s, sb, owner) && f < |s.inodes| && i <= NDIRECT && b < sb.size && !Bit(s.disk, sb, b)
    requires s.inodes[f].addrs[i] == 0
    ensures b !in owner && b != 0 && Own(StoredDirect(s, sb, f, i, b), sb, owner[b := (f, i)])
  {
    var s' := StoredDirect(s, sb, f, i, b);
    var owner' := owner[b := (f, i)];
    StoreDirectAddr(s, sb, owner, f, i, b, f, i);
    AllocatedFacts(s.disk, sb, b);
    hide Allocated, Addr;
    forall g, j | 0 <= g < |s'.inodes| && 0 <= j < NSLOTS ensures SlotOk(s', owner', g, j) {
      assert SlotOk(s, owner, g, j);
      StoreDirectAddr(s, sb, owner, f, i, b, g, j);
    }
    forall c | c in owner' ensures BlockOk(s', sb, owner', c) {
      if c != b {
        assert BlockOk(s, sb, owner, c);
        StoreDirectAddr(s, sb, owner, f, i, b, owner[c].0, owner[c].1);
        assert Addr(s.disk, s.inodes[f], i) == 0 by { DirectAddr(s, f, i); }
      }
    }
    forall c | 0 <= c < sb.size ensures BitOk(s', sb, owner', c) { assert BitOk(s, sb, owner, c); }
  }

  lemma DirectAddr(s: State, f: nat, i: nat)
    requires f < |s.inodes| && |s.inodes[f].addrs| == NDIRECT + 1 && i <= NDIRECT
    ensures Addr(s.disk, s.inodes[f], i) == s.inodes[f].addrs[i]
  {
  }

  /** The indirect block of `f`. */
  lemma IndirectBlock(s: State, sb: Super, owner: Owner, f: nat)
    requires Own(s, sb, owner) && f < |s.inodes| && s.inodes[f].addrs[NDIRECT] != 0
    ensures var p := s.inodes[f].addrs[NDIRECT];
            && p in owner && owner[p] == (f, NDIRECT) && sb.datastart <= p < sb.size
            && forall j :: 0 <= j < NINDIRECT ==> Addr(s.disk, s.inodes[f], NDIRECT + 1 + j) == Word(s.disk[p], j)
  {
    assert SlotOk(s, owner, f, NDIRECT);
    assert BlockOk(s, sb, owner, s.inodes[f].addrs[NDIRECT]);
  }

  /** balloc() and a store of the new block number into entry `j` of the indirect block. */
  function StoredEntry(s: State, sb: Super, f: nat, j: nat, b: nat): State
    requires SuperOk(sb) && DiskOk(s.disk, sb) && b < sb.size && f < |s.inodes|
    requires |s.inodes[f].addrs| == NDIRECT + 1 && 0 < s.inodes[f].addrs[NDIRECT] < sb.size && j < NINDIRECT
  {
    var p := s.inodes[f].addrs[NDIRECT];
    s.(disk := Allocated(s.disk, sb, b)[p := PutWord(s.disk[p], j, b)])
  }

  lemma StoreEntryAddr(s: State, sb: Super, owner: Owner, f: nat, j: nat, b: nat, g: nat, k: nat)
    requires Own(s, sb, owner) && f < |s.inodes| && j < NINDIRECT && b < sb.size && !Bit(s.disk, sb, b)
    requires s.inodes[f].addrs[NDIRECT] != 0 && g < |s.inodes| && k < NSLOTS
    ensures sb.datastart <= b && b !in owner && sb.datastart <= s.inodes[f].addrs[NDIRECT] < sb.size
    ensures var s' := StoredEntry(s, sb, f, j, b);
            Addr(s'.disk, s'.inodes[g], k)
            == if g == f && k == NDIRECT + 1 + j then b else Addr(s.disk, s.inodes[g], k)
  {
    assert BitOk(s, sb, owner, b);
    AllocatedFacts(s.disk, sb, b);
    IndirectBlock(s, sb, owner, f);
    if k > NDIRECT && s.inodes[g].addrs[NDIRECT] != 0 {
      IndirectBlock(s, sb, owner, g);
      WordPut(s.disk[s.inodes[f].addrs[NDIRECT]], j, b, k - NDIRECT - 1);
    }
  }

  lemma StoreEntryFacts(s: State, sb: Super, owner: Owner, f: nat, j: nat, b: nat)
    requires Own(s, sb, owner) && f < |s.inodes| && j < NINDIRECT && b < sb.size && !Bit(s.disk, sb, b)
    requires s.inodes[f].addrs[NDIRECT] != 0
    ensures sb.datastart <= b && b !in owner && sb.datastart <= s.inodes[f].addrs[NDIRECT] < sb.size
    ensures var d' := StoredEntry(s, sb, f, j, b).disk;
            && DiskOk(d', sb) && d'[b] == Zeros(BSIZE)
            && (forall y :: sb.datastart <= y < sb.size && y != b && y != s.inodes[f].addrs[NDIRECT] ==>
                  d'[y] == s.disk[y])
            && (forall c :: 0 <= c < sb.size ==> (Bit(d', sb, c) <==> c == b || Bit(s.disk, sb, c)))
  {
    assert BitOk(s, sb, owner, b);
    AllocatedFacts(s.disk, sb, b);
    IndirectBlock(s, sb, owner, f);
    WordPut(s.disk[s.inodes[f].addrs[NDIRECT]], j, b, j);
    var d' := StoredEntry(s, sb, f, j, b).disk;
    forall c | 0 <= c < sb.size ensures Bit(d', sb, c) <==> c == b || Bit(s.disk, sb, c) {
      BitFrame(Allocated(s.disk, sb, b), d', sb, c);
    }
  }

  lemma StoreEntryKeepsOwn(s: State, sb: Super, owner: Owner, f: nat, j: nat, b: nat)
    requires Own(s, sb, owner) && f < |s.inodes| && j < NINDIRECT && b < sb.size && !Bit(s.disk, sb, b)
    requires s.inodes[f].addrs[NDIRECT] != 0 && Addr(s.disk, s.inodes[f], NDIRECT + 1 + j) == 0
    ensures 0 < s.inodes[f].addrs[NDIRECT] < sb.size
    ensures b !in owner && b != 0 && Own(StoredEntry(s, sb, f, j, b), sb, owner[b := (f, NDIRECT + 1 + j)])
  {
    StoreEntryFacts(s, sb, owner, f, j, b);
    hide Addr, Allocated, StoredEntry;
    StoreEntryAddr(s, sb, owner, f, j, b, f, NDIRECT);
    var s' := StoredEntry(s, sb, f, j, b);
    var owner' := owner[b := (f, NDIRECT + 1 + j)];
    assert s'.inodes == s.inodes by { StoredEntryInodes(s, sb, f, j, b); }
    forall g, k | 0 <= g < |s'.inodes| && 0 <= k < NSLOTS ensures SlotOk(s', owner', g, k) {
      assert SlotOk(s, owner, g, k);
      StoreEntryAddr(s, sb, owner, f, j, b, g, k);
    }
    forall c | c in owner' ensures BlockOk(s', sb, owner', c) {
      if c == b {
        StoreEntryAddr(s, sb, owner, f, j, b, f, NDIRECT + 1 + j);
      } else {
        assert BlockOk(s, sb, owner, c);
        StoreEntryAddr(s, sb, owner, f, j, b, owner[c].0, owner[c].1);
      }
    }
    forall c | 0 <= c < sb.size ensures BitOk(s', sb, owner', c) { assert BitOk(s, sb, owner, c); }
  }

  lemma StoredEntryInodes(s: State, sb: Super, f: nat, j: nat, b: nat)
    requires SuperOk(sb) && DiskOk(s.disk, sb) && b < sb.size && f < |s.inodes|
    requires |s.inodes[f].addrs| == NDIRECT + 1 && 0 < s.inodes[f].addrs[NDIRECT] < sb.size && j < NINDIRECT
    ensures StoredEntry(s, sb, f, j, b).inodes == s.inodes
  {
  }

  // ------------------------------------------------------------ free space

  /** There are `n` blocks left. */
  ghost predicate Room(sb: Super, owner: Owner, n: int) {
    |owner| + n <= sb.size - sb.datastart
  }

  /** The bitmap has a free block while not every data block is owned. */
  lemma RoomIsFree(s: State, sb: Super, owner: Owner)
    requires Own(s, sb, owner) && Room(sb, owner, 1)
    ensures exists b :: 0 <= b < sb.size && !Bit(s.disk, sb, b)
  {
    var all := Range(sb.datastart, sb.size);
    if all <= owner.Keys {
      SubsetSize(all, owner.Keys);
    }
    var b :| b in all && b !in owner;
    assert BitOk(s, sb, owner, b);
    assert !Bit(s.disk, sb, b);
  }

  /** The clear bits from block `b` on. */
  function FreeFrom(d: Disk, sb: Super, b: nat): nat
    requires SuperOk(sb) && DiskOk(d, sb)
    decreases sb.size - b
  {
    if b >= sb.size then 0 else FreeFrom(d, sb, b + 1) + (if Bit(d, sb, b) then 0 else 1)
  }

  lemma {:induction false} FreeFromCounts(s: State, sb: Super, owner: Owner, b: nat)
    requires Own(s, sb, owner) && sb.datastart <= b <= sb.size
    ensures FreeFrom(s.disk, sb, b) + |set k | k in owner && k >= b| == sb.size - b
    decreases sb.size - b
  {
    hide Bit, Addr;
    var from, next := set k | k in owner && k >= b, set k | k in owner && k >= b + 1;
    if b == sb.size {
      forall k | k in owner ensures k < sb.size { assert BlockOk(s, sb, owner, k); }
      assert from == {};
    } else {
      FreeFromCounts(s, sb, owner, b + 1);
      assert BitOk(s, sb, owner, b);
      assert from == if b in owner then next + {b} else next;
    }
  }

  /** The room there is can be counted in the bitmap. */
  lemma RoomCounted(s: State, sb: Super, owner: Owner, n: int)
    requires Own(s, sb, owner)
    ensures Room(sb, owner, n) <==> n <= FreeFrom(s.disk, sb, sb.datastart)
  {
    FreeFromCounts(s, sb, owner, sb.datastart);
    hide Bit, Addr, FreeFrom;
    forall k | k in owner ensures k >= sb.datastart { assert BlockOk(s, sb, owner, k); }
    assert (set k | k in owner && k >= sb.datastart) == owner.Keys;
  }

  // ------------------------------------------------------------ what bmap() may change

  /** Nothing of other inodes, no block number already there, and no block already owned
      except the indirect block of `f`. */
  ghost predicate Grown(s: State, s': State, sb: Super, owner: Owner, owner': Owner, f: nat) {
    && DiskOk(s.disk, sb) && DiskOk(s'.disk, sb)
    && |s'.inodes| == |s.inodes| && f < |s.inodes| && s'.inodes[f].size == s.inodes[f].size
    && (forall g :: 0 <= g < |s.inodes| && g != f ==> s'.inodes[g] == s.inodes[g])
    && (forall b :: b in owner ==> b in owner' && owner'[b] == owner[b])
    && (forall b :: b in owner && 0 <= b < sb.size && owner[b] != (f, NDIRECT) ==> s'.disk[b] == s.disk[b])
  }

  /** Slot `i` of `f` got the zeroed block `b`, the others are as before. */
  ghost predicate Filled(s: State, s': State, f: nat, i: nat, b: int) {
    && f < |s.inodes| == |s'.inodes| && 0 < b < |s'.disk| && s'.disk[b] == Zeros(BSIZE)
    && forall k :: 0 <= k < NSLOTS ==>
         Addr(s'.disk, s'.inodes[f], k) == if k == i then b else Addr(s.disk, s.inodes[f], k)
  }

  lemma StoreDirectGrows(s: State, sb: Super, owner: Owner, f: nat, i: nat, b: nat)
    requires Own(s, sb, owner) && f < |s.inodes| && i <= NDIRECT && b < sb.size && !Bit(s.disk, sb, b)
    requires s.inodes[f].addrs[i] == 0
    ensures b !in owner && Grown(s, StoredDirect(s, sb, f, i, b), sb, owner, owner[b := (f, i)], f)
    ensures Filled(s, StoredDirect(s, sb, f, i, b), f, i, b)
  {
    StoreDirectKeepsOwn(s, sb, owner, f, i, b);
    StoreDirectAddr(s, sb, owner, f, i, b, f, i);
    AllocatedFacts(s.disk, sb, b);
    forall c | c in owner && 0 <= c < sb.size ensures StoredDirect(s, sb, f, i, b).disk[c] == s.disk[c] {
      assert BlockOk(s, sb, owner, c);
    }
    forall k | 0 <= k < NSLOTS ensures
      Addr(StoredDirect(s, sb, f, i, b).disk, StoredDirect(s, sb, f, i, b).inodes[f], k)
      == if k == i then b else Addr(s.disk, s.inodes[f], k)
    {
      StoreDirectAddr(s, sb, owner, f, i, b, f, k);
    }
  }

  lemma StoreEntryGrows(s: State, sb: Super, owner: Owner, f: nat, j: nat, b: nat)
    requires Own(s, sb, owner) && f < |s.inodes| && j < NINDIRECT && b < sb.size && !Bit(s.disk, sb, b)
    requires 0 < s.inodes[f].addrs[NDIRECT] < sb.size && Addr(s.disk, s.inodes[f], NDIRECT + 1 + j) == 0
    ensures b !in owner && Grown(s, StoredEntry(s, sb, f, j, b), sb, owner, owner[b := (f, NDIRECT + 1 + j)], f)
    ensures Filled(s, StoredEntry(s, sb, f, j, b), f, NDIRECT + 1 + j, b)
  {
    StoreEntryFacts(s, sb, owner, f, j, b);
    StoredEntryInodes(s, sb, f, j, b);
    hide StoredEntry, Addr;
    IndirectBlock(s, sb, owner, f);
    var s' := StoredEntry(s, sb, f, j, b);
    forall c | c in owner && 0 <= c < sb.size && owner[c] != (f, NDIRECT) ensures s'.disk[c] == s.disk[c] {
      assert BlockOk(s, sb, owner, c);
    }
    forall k | 0 <= k < NSLOTS ensures
      Addr(s'.disk, s'.inodes[f], k) == if k == NDIRECT + 1 + j then b else Addr(s.disk, s.inodes[f], k)
    {
      StoreEntryAddr(s, sb, owner, f, j, b, f, k);
    }
  }

  lemma GrownTwice(s: State, t: State, u: State, sb: Super, o: Owner, p: Owner, q: Owner, f: nat)
    requires Grown(s, t, sb, o, p, f) && Grown(t, u, sb, p, q, f)
    ensures Grown(s, u, sb, o, q, f)
  {
  }

  /** How many blocks bmap() has to allocate. */
  function Missing(s: State, f: nat, bn: nat): nat
    requires f < |s.inodes|
  {
    (if Addr(s.disk, s.inodes[f], SlotOf(bn)) == 0 then 1 else 0)
    + (if bn >= NDIRECT && Addr(s.disk, s.inodes[f], NDIRECT) == 0 then 1 else 0)
  }

  /** What bmap() does to the slots of `f`. */
  ghost predicate Mapped(s: State, s': State, f: nat, bn: nat, addr: int) {
    && f < |s.inodes| == |s'.inodes| && bn < MAXFILE
    && addr == Addr(s'.disk, s'.inodes[f], SlotOf(bn)) && 0 < addr < |s'.disk|
    && (bn >= NDIRECT ==> Addr(s'.disk, s'.inodes[f], NDIRECT) != 0)
    && (Addr(s.disk, s.inodes[f], SlotOf(bn)) == 0 ==> s'.disk[addr] == Zeros(BSIZE))
    && forall k :: 0 <= k < NSLOTS && k != SlotOf(bn) && !(k == NDIRECT && bn >= NDIRECT) ==>
         Addr(s'.disk, s'.inodes[f], k) == Addr(s.disk, s.inodes[f], k)
  }

  // ------------------------------------------------------------ files without holes

  /** The file blocks of `f` that are allocated are exactly the first `n`. */
  ghost predicate Blocks(s: State, f: nat, n: nat) {
    && f < |s.inodes| && n <= MAXFILE
    && (forall bn :: 0 <= bn < MAXFILE ==> (Addr(s.disk, s.inodes[f], SlotOf(bn)) != 0 <==> bn < n))
    && (Addr(s.disk, s.inodes[f], NDIRECT) != 0 <==> n > NDIRECT)
  }

  /** The blocks that `n` file blocks take up. */
  function Cost(n: nat): nat {
    if n > NDIRECT then n + 1 else n
  }

  /** bmap() of the next block extends the file without making a hole. */
  lemma MappedBlocks(s: State, s': State, f: nat, n: nat, bn: nat, addr: int)
    requires Blocks(s, f, n) && bn <= n && Mapped(s, s', f, bn, addr)
    ensures Blocks(s', f, if bn == n then n + 1 else n)
    ensures Missing(s, f, bn) == Cost(if bn == n then n + 1 else n) - Cost(n)
  {
  }

  // ------------------------------------------------------------ bytes

  function NBlocks(len: nat): nat {
    (len + BSIZE - 1) / BSIZE
  }

  function ByteAt(d: Disk, ino: Inode, o: nat): int {
    var b := Addr(d, ino, SlotOf(o / BSIZE));
    if 0 < b < |d| && |d[b]| == BSIZE then d[b][o % BSIZE] else 0
  }

  ghost function Bytes(d: Disk, ino: Inode, len: nat): (r: seq<int>)
    ensures |r| == len
  {
    seq(len, o requires 0 <= o < len => ByteAt(d, ino, o))
  }

  /** The file as a byte sequence. */
  ghost function Contents(s: State, f: nat): seq<int>
    requires f < |s.inodes|
  {
    Bytes(s.disk, s.inodes[f], s.inodes[f].size)
  }

  /** `data` in place of what is at `off`, extending the sequence if need be. */
  ghost function Splice(c: seq<int>, off: nat, data: seq<int>): seq<int>
    requires off <= |c|
  {
    c[..off] + data + (if off + |data| < |c| then c[off + |data|..] else [])
  }

  lemma SpliceSplice(c: seq<int>, off: nat, a: seq<int>, b: seq<int>)
    requires off <= |c|
    ensures Splice(Splice(c, off, a), off + |a|, b) == Splice(c, off, a + b)
  {
  }

  /** No holes: exactly the blocks below the size are allocated. */
  ghost predicate FileOk(s: State, f: nat) {
    f < |s.inodes| && s.inodes[f].size <= MAXFILE * BSIZE && Blocks(s, f, NBlocks(s.inodes[f].size))
  }

  /** Nothing of any inode but `f` changed. */
  ghost predicate Kept(s: State, s': State, sb: Super, owner: Owner, owner': Owner, f: nat) {
    && DiskOk(s.disk, sb) && DiskOk(s'.disk, sb) && |s'.inodes| == |s.inodes|
    && (forall g :: 0 <= g < |s.inodes| && g != f ==> s'.inodes[g] == s.inodes[g])
    && (forall b :: b in owner && owner[b].0 != f ==> b in owner' && owner'[b] == owner[b])
    && (forall b :: b in owner && 0 <= b < sb.size && owner[b].0 != f ==> s'.disk[b] == s.disk[b])
  }

  lemma KeptTwice(s: State, t: State, u: State, sb: Super, o: Owner, p: Owner, q: Owner, f: nat)
    requires Kept(s, t, sb, o, p, f) && Kept(t, u, sb, p, q, f)
    ensures Kept(s, u, sb, o, q, f)
  {
  }

  lemma KeptAddr(s: State, s': State, sb: Super, owner: Owner, owner': Owner, f: nat, g: nat, i: nat)
    requires Own(s, sb, owner) && Kept(s, s', sb, owner, owner', f) && g < |s.inodes| && g != f
    ensures Addr(s'.disk, s'.inodes[g], i) == Addr(s.disk, s.inodes[g], i)
  {
    if s.inodes[g].addrs[NDIRECT] != 0 { IndirectBlock(s, sb, owner, g); }
  }

  /** Other files keep their contents and their blocks. */
  lemma OthersKept(s: State, s': State, sb: Super, owner: Owner, owner': Owner, f: nat, g: nat)
    requires Own(s, sb, owner) && Kept(s, s', sb, owner, owner', f) && g < |s.inodes| && g != f && FileOk(s, g)
    ensures FileOk(s', g) && Contents(s', g) == Contents(s, g)
  {
    hide Addr;
    forall i ensures Addr(s'.disk, s'.inodes[g], i) == Addr(s.disk, s.inodes[g], i) {
      KeptAddr(s, s', sb, owner, owner', f, g, i);
    }
    forall o | 0 <= o < s.inodes[g].size ensures ByteAt(s'.disk, s'.inodes[g], o) == ByteAt(s.disk, s.inodes[g], o) {
      OwnedIsBlock(s, sb, owner, g, SlotOf(o / BSIZE));
      assert SlotOk(s, owner, g, SlotOf(o / BSIZE));
    }
  }

  /** bmap() of the next block or an earlier one does not change the bytes there are. */
  lemma MappedBytes(s: State, s': State, sb: Super, owner: Owner, owner': Owner, f: nat, bn: nat, addr: int, len: nat)
    requires Own(s, sb, owner) && Grown(s, s', sb, owner, owner', f) && Mapped(s, s', f, bn, addr)
    requires Blocks(s, f, NBlocks(len)) && bn <= NBlocks(len)
    requires Missing(s, f, bn) == 0 ==> s' == s
    ensures Bytes(s'.disk, s'.inodes[f], len) == Bytes(s.disk, s.inodes[f], len)
  {
    forall o | 0 <= o < len ensures ByteAt(s'.disk, s'.inodes[f], o) == ByteAt(s.disk, s.inodes[f], o) {
      var k := o / BSIZE;
      assert k < NBlocks(len);
      OwnedIsBlock(s, sb, owner, f, SlotOf(k));
      assert SlotOk(s, owner, f, SlotOf(k));
      hide Addr;
      if s' != s {
        assert Missing(s, f, bn) > 0;
        assert bn == NBlocks(len);
      }
    }
  }

  // ------------------------------------------------------------ one block of writei()

  function PutBytes(block: seq<int>, at: nat, data: seq<int>): seq<int>
    requires at + |data| <= |block|
  {
    block[..at] + data + block[at + |data|..]
  }

  lemma PutBytesBlock(block: seq<int>, at: nat, data: seq<int>)
    requires IsBlock(block) && AreBytes(data) && at + |data| <= |block|
    ensures IsBlock(PutBytes(block, at, data))
  {
  }

  /** A write into a block of `f`'s data. */
  function BlockWritten(s: State, b: int, block: seq<int>): State
    requires 0 <= b < |s.disk|
  {
    s.(disk := s.disk[b := block])
  }

  lemma WriteAddr(s: State, sb: Super, owner: Owner, f: nat, bn: nat, block: seq<int>, g: nat, i: nat)
    requires Own(s, sb, owner) && f < |s.inodes| && bn < MAXFILE && IsBlock(block)
    requires Addr(s.disk, s.inodes[f], SlotOf(bn)) != 0 && g < |s.inodes|
    ensures var b := Addr(s.disk, s.inodes[f], SlotOf(bn));
            && sb.datastart <= b < sb.size && b in owner && owner[b] == (f, SlotOf(bn))
            && Addr(BlockWritten(s, b, block).disk, s.inodes[g], i) == Addr(s.disk, s.inodes[g], i)
  {
    OwnedIsBlock(s, sb, owner, f, SlotOf(bn));
    assert SlotOk(s, owner, f, SlotOf(bn));
    if s.inodes[g].addrs[NDIRECT] != 0 { IndirectBlock(s, sb, owner, g); }
  }

  lemma DataBlock(s: State, sb: Super, owner: Owner, b: int)
    requires Own(s, sb, owner) && 0 <= b < |s.disk|
    ensures IsBlock(s.disk[b])
  {
  }

  lemma WriteKeepsOwn(s: State, sb: Super, owner: Owner, f: nat, bn: nat, block: seq<int>)
    requires Own(s, sb, owner) && f < |s.inodes| && bn < MAXFILE && IsBlock(block)
    requires Addr(s.disk, s.inodes[f], SlotOf(bn)) != 0
    ensures var b := Addr(s.disk, s.inodes[f], SlotOf(bn));
            && 0 < b < |s.disk| && Own(BlockWritten(s, b, block), sb, owner)
            && Kept(s, BlockWritten(s, b, block), sb, owner, owner, f)
  {
    hide Addr;
    WriteAddr(s, sb, owner, f, bn, block, f, 0);
    var b := Addr(s.disk, s.inodes[f], SlotOf(bn));
    var s' := BlockWritten(s, b, block);
    forall g, j | 0 <= g < |s'.inodes| && 0 <= j < NSLOTS ensures SlotOk(s', owner, g, j) {
      assert SlotOk(s, owner, g, j);
      WriteAddr(s, sb, owner, f, bn, block, g, j);
    }
    forall c | c in owner ensures BlockOk(s', sb, owner, c) {
      assert BlockOk(s, sb, owner, c);
      WriteAddr(s, sb, owner, f, bn, block, owner[c].0, owner[c].1);
    }
    forall c | 0 <= c < sb.size ensures BitOk(s', sb, owner, c) {
      assert BitOk(s, sb, owner, c);
      BitFrame(s.disk, s'.disk, sb, c);
    }
  }

  function Max(a: nat, b: nat): nat {
    if a < b then b else a
  }

  lemma WriteArith(len: nat, pos: nat, m: nat)
    requires pos <= len && 0 < m <= BSIZE - pos % BSIZE
    ensures pos / BSIZE <= NBlocks(len)
    ensures NBlocks(Max(len, pos + m)) == if pos / BSIZE == NBlocks(len) then NBlocks(len) + 1 else NBlocks(len)
    ensures pos / BSIZE == NBlocks(len) ==> pos == len && pos % BSIZE == 0
  {
  }

  /** Which block of the file a byte is in, and where. */
  lemma ByteArith(pos: nat, m: nat, o: nat)
    requires 0 < m <= BSIZE - pos % BSIZE
    ensures o / BSIZE == pos / BSIZE && pos % BSIZE <= o % BSIZE < pos % BSIZE + m <==> pos <= o < pos + m
    ensures o / BSIZE == pos / BSIZE ==> o - pos == o % BSIZE - pos % BSIZE
  {
  }

  /** Writing into one block splices the file. */
  lemma WriteBytes(s: State, sb: Super, owner: Owner, f: nat, len: nat, pos: nat, data: seq<int>)
    requires Own(s, sb, owner) && f < |s.inodes| && pos <= len && 0 < |data| <= BSIZE - pos % BSIZE
    requires AreBytes(data) && Blocks(s, f, NBlocks(Max(len, pos + |data|))) && pos / BSIZE < MAXFILE
    ensures var b := Addr(s.disk, s.inodes[f], SlotOf(pos / BSIZE));
            && 0 < b < |s.disk| && |s.disk[b]| == BSIZE
            && var s' := BlockWritten(s, b, PutBytes(s.disk[b], pos % BSIZE, data));
               && Bytes(s'.disk, s'.inodes[f], Max(len, pos + |data|))
                  == Splice(Bytes(s.disk, s.inodes[f], len), pos, data)
               && Blocks(s', f, NBlocks(Max(len, pos + |data|)))
  {
    hide Addr;
    WriteArith(len, pos, |data|);
    var bn := pos / BSIZE;
    var b := Addr(s.disk, s.inodes[f], SlotOf(bn));
    OwnedIsBlock(s, sb, owner, f, SlotOf(bn));
    var block := PutBytes(s.disk[b], pos % BSIZE, data);
    var s' := BlockWritten(s, b, block);
    forall i ensures Addr(s'.disk, s'.inodes[f], i) == Addr(s.disk, s.inodes[f], i) {
      WriteAddr(s, sb, owner, f, bn, block, f, i);
    }
    var c, c' := Bytes(s.disk, s.inodes[f], len), Bytes(s'.disk, s'.inodes[f], Max(len, pos + |data|));
    forall o | 0 <= o < |c'| ensures c'[o] == Splice(c, pos, data)[o] {
      WrittenByte(s, sb, owner, f, len, pos, data, o);
    }
  }

  lemma WrittenByte(s: State, sb: Super, owner: Owner, f: nat, len: nat, pos: nat, data: seq<int>, o: nat)
    requires Own(s, sb, owner) && f < |s.inodes| && pos <= len && 0 < |data| <= BSIZE - pos % BSIZE
    requires AreBytes(data) && Blocks(s, f, NBlocks(Max(len, pos + |data|))) && pos / BSIZE < MAXFILE
    requires o < Max(len, pos + |data|)
    ensures var b := Addr(s.disk, s.inodes[f], SlotOf(pos / BSIZE));
            && 0 < b < |s.disk| && |s.disk[b]| == BSIZE
            && var s' := BlockWritten(s, b, PutBytes(s.disk[b], pos % BSIZE, data));
               ByteAt(s'.disk, s'.inodes[f], o)
               == if pos <= o < pos + |data| then data[o - pos] else ByteAt(s.disk, s.inodes[f], o)
  {
    WriteArith(len, pos, |data|);
    ByteArith(pos, |data|, o);
    var bn := pos / BSIZE;
    OwnedIsBlock(s, sb, owner, f, SlotOf(bn));
    OwnedIsBlock(s, sb, owner, f, SlotOf(o / BSIZE));
    var b := Addr(s.disk, s.inodes[f], SlotOf(bn));
    var block := PutBytes(s.disk[b], pos % BSIZE, data);
    WriteAddr(s, sb, owner, f, bn, block, f, SlotOf(o / BSIZE));
    hide Addr;
    assert o / BSIZE < NBlocks(Max(len, pos + |data|));
    if o / BSIZE != bn {
      NoSharing(s, sb, owner, f, SlotOf(bn), f, SlotOf(bn));
      assert SlotOk(s, owner, f, SlotOf(bn)) && SlotOk(s, owner, f, SlotOf(o / BSIZE));
    }
  }

  // ------------------------------------------------------------ the allocator

  lemma BitAt(d: Disk, sb: Super, b: nat, bi: nat)
    requires SuperOk(sb) && DiskOk(d, sb) && b % BPB == 0 && bi < BPB && b + bi < sb.size
    ensures sb.bmapstart + b / BPB < |d| && bi / 8 < |d[sb.bmapstart + b / BPB]|
    ensures Bit(d, sb, b + bi) == BitOf(d[sb.bmapstart + b / BPB][bi / 8], bi % 8)
  {
    hide BitOf;
    BitArith(b, bi);
  }

  lemma BitArith(b: nat, bi: nat)
    requires b % BPB == 0 && bi < BPB
    ensures (b + bi) / BPB == b / BPB && (b + bi) % BPB == bi && (b + bi) % 8 == bi % 8
  {
    var q := b / BPB;
    assert b == 8 * (512 * q);
    EightArith(512 * q, bi);
  }

  lemma EightArith(q: nat, x: nat)
    ensures (8 * q + x) % 8 == x % 8
  {
  }

  /** The two loops of balloc(): over the bitmap blocks, and over the bits of one. */
  method FindFree(d: Disk, sb: Super) returns (r: nat)
    requires SuperOk(sb) && DiskOk(d, sb) && exists b :: 0 <= b < sb.size && !Bit(d, sb, b)
    ensures r < sb.size && !Bit(d, sb, r) && forall c :: 0 <= c < r ==> Bit(d, sb, c)
  {
    hide Bit, BitOf;
    var b := 0;
    while b < sb.size
      invariant b % BPB == 0
      invariant forall c :: 0 <= c < b && c < sb.size ==> Bit(d, sb, c)
    {
      var bi := 0;
      while bi < BPB && b + bi < sb.size
        invariant 0 <= bi <= BPB
        invariant forall c :: 0 <= c < b + bi && c < sb.size ==> Bit(d, sb, c)
      {
        BitAt(d, sb, b, bi);
        if !BitOf(d[sb.bmapstart + b / BPB][bi / 8], bi % 8) {
          return b + bi;
        }
        bi := bi + 1;
      }
      b := b + BPB;
    }
    assert false;
  }

  /** mkfs marks the blocks before the data as used. */
  method MarkMetadata(sb: Super) returns (d: Disk)
    requires SuperOk(sb)
    ensures DiskOk(d, sb) && forall c :: 0 <= c < sb.size ==> (Bit(d, sb, c) <==> c < sb.datastart)
    ensures forall y :: sb.datastart <= y < sb.size ==> d[y] == Zeros(BSIZE)
  {
    hide Bit, Zeros;
    d := seq(sb.size, _ => Zeros(BSIZE));
    ZeroBlock();
    forall c | 0 <= c < sb.size ensures !Bit(d, sb, c) { BlankBit(d, sb, c); }
    var b := 0;
    while b < sb.datastart
      invariant 0 <= b <= sb.datastart && DiskOk(d, sb)
      invariant forall c :: 0 <= c < sb.size ==> (Bit(d, sb, c) <==> c < b)
      invariant forall y :: sb.datastart <= y < sb.size ==> d[y] == Zeros(BSIZE)
    {
      forall c | 0 <= c < sb.size
        ensures Bit(WithBit(d, sb, b, true), sb, c) <==> c < b + 1
      {
        BitWith(d, sb, b, true, c);
      }
      WithBitOk(d, sb, b, true);
      d := WithBit(d, sb, b, true);
      b := b + 1;
    }
  }

  lemma BlankBit(d: Disk, sb: Super, c: nat)
    requires SuperOk(sb) && DiskOk(d, sb) && c < sb.size && forall b :: 0 <= b < |d| ==> d[b] == Zeros(BSIZE)
    ensures !Bit(d, sb, c)
  {
    ZerosAt(BSIZE, c % BPB / 8);
    ZeroBit(c % 8);
  }

  lemma ZeroInode(d: Disk, i: nat)
    ensures Addr(d, Inode(0, Zeros(NDIRECT + 1)), i) == 0
  {
    if i <= NDIRECT { ZerosAt(NDIRECT + 1, i); }
    ZerosAt(NDIRECT + 1, NDIRECT);
  }

  const CHUNK := 6656   // ((LOGSIZE - 1 - 1 - 2) / 2) * 512

  function Min(a: nat, b: nat): nat {
    if a < b then a else b
  }

  /** When writei() writes. */
  predicate Writable(size: nat, off: nat, n: nat) {
    off <= size && off + n <= MAXFILE * BSIZE
  }

  lemma KeptInodes(s: State, s': State, sb: Super, owner: Owner, owner': Owner, f: nat)
    requires Kept(s, s', sb, owner, owner', f)
    ensures |s'.inodes| == |s.inodes| && forall g :: 0 <= g < |s.inodes| && g != f ==> s'.inodes[g] == s.inodes[g]
  {
  }

  function Resized(s: State, f: nat, size: nat): State
    requires f < |s.inodes|
  {
    s.(inodes := s.inodes[f := s.inodes[f].(size := size)])
  }

  lemma ResizeKeepsOwn(s: State, sb: Super, owner: Owner, f: nat, size: nat)
    requires Own(s, sb, owner) && f < |s.inodes|
    ensures var s' := Resized(s, f, size);
            && Own(s', sb, owner) && Bytes(s'.disk, s'.inodes[f], size) == Bytes(s.disk, s.inodes[f], size)
            && (forall n :: Blocks(s, f, n) ==> Blocks(s', f, n))
  {
    var s' := Resized(s, f, size);
    forall g: nat, i: nat | g < |s.inodes| ensures Addr(s'.disk, s'.inodes[g], i) == Addr(s.disk, s.inodes[g], i) {}
    hide Addr;
    forall g, i | 0 <= g < |s'.inodes| && 0 <= i < NSLOTS ensures SlotOk(s', owner, g, i) {
      assert SlotOk(s, owner, g, i);
    }
    forall b | b in owner ensures BlockOk(s', sb, owner, b) { assert BlockOk(s, sb, owner, b); }
    forall b | 0 <= b < sb.size ensures BitOk(s', sb, owner, b) { assert BitOk(s, sb, owner, b); }
  }

  lemma ResizeKept(s: State, t: State, sb: Super, o: Owner, p: Owner, f: nat, size: nat)
    requires Kept(s, t, sb, o, p, f) && f < |t.inodes|
    ensures Kept(s, Resized(t, f, size), sb, o, p, f)
  {
  }

  /** The end of writei(): the new size, and what holds of all files then. */
  lemma WriteEnd(s: State, t: State, u: State, sb: Super, o: Owner, p: Owner, f: nat, off: nat, m: nat)
    requires Own(s, sb, o) && Own(t, sb, p) && Kept(s, t, sb, o, p, f) && f < |s.inodes| == |t.inodes|
    requires t.inodes[f].size == s.inodes[f].size <= MAXFILE * BSIZE && off + m <= MAXFILE * BSIZE
    requires forall g :: 0 <= g < |s.inodes| ==> FileOk(s, g)
    requires var len := Max(s.inodes[f].size, off + m); Blocks(t, f, NBlocks(len)) && u == Resized(t, f, len)
    ensures Own(u, sb, p) && forall g :: 0 <= g < |u.inodes| ==> FileOk(u, g)
    ensures Contents(u, f) == Bytes(t.disk, t.inodes[f], Max(s.inodes[f].size, off + m))
    ensures forall g :: 0 <= g < |u.inodes| && g != f ==> Contents(u, g) == Contents(s, g)
  {
    hide Own, Kept, NBlocks, Blocks, Bytes;
    var len := Max(s.inodes[f].size, off + m);
    ResizeKeepsOwn(t, sb, p, f, len);
    ResizeKept(s, t, sb, o, p, f, len);
    assert FileOk(u, f);
    forall g | 0 <= g < |u.inodes| && g != f ensures FileOk(u, g) && Contents(u, g) == Contents(s, g) {
      OthersKept(s, u, sb, o, p, f, g);
    }
  }

  // ------------------------------------------------------------ itrunc()

  ghost function Without(owner: Owner, f: nat): Owner {
    map b | b in owner && owner[b].0 != f :: owner[b]
  }

  /** itrunc() has cleared the bits of the first `i` slots of the inode and of the first
      `j` entries of its indirect block. */
  predicate Freed(k: nat, i: nat, j: nat) {
    k < i || NDIRECT < k <= NDIRECT + j
  }

  ghost predicate Remaining(d: Disk, sb: Super, owner: Owner, f: nat, i: nat, j: nat) {
    forall b :: 0 <= b < sb.size ==>
      (Bit(d, sb, b) <==> b < sb.datastart || (b in owner && !(owner[b].0 == f && Freed(owner[b].1, i, j))))
  }

  ghost predicate SameData(d: Disk, d': Disk, sb: Super) {
    && |d| == |d'| == sb.size
    && forall y :: sb.datastart <= y < sb.size ==> d'[y] == d[y]
  }

  lemma SameDataTwice(a: Disk, b: Disk, c: Disk, sb: Super)
    requires SameData(a, b, sb) && SameData(b, c, sb)
    ensures SameData(a, c, sb)
  {
  }

  lemma RemainingStep(s: State, sb: Super, owner: Owner, f: nat, i: nat, j: nat, direct: bool, d: Disk)
    requires Own(s, sb, owner) && f < |s.inodes| && i <= NDIRECT && j <= NINDIRECT && (direct || j < NINDIRECT)
    requires DiskOk(d, sb) && Remaining(d, sb, owner, f, i, j)
    ensures var b := Addr(s.disk, s.inodes[f], if direct then i else NDIRECT + 1 + j);
            var i', j' := if direct then i + 1 else i, if direct then j else j + 1;
            && SuperOk(sb)
            && (if b == 0 then Remaining(d, sb, owner, f, i', j')
                else 0 <= b < sb.size && Bit(d, sb, b) && Remaining(WithBit(d, sb, b, false), sb, owner, f, i', j'))
  {
    hide Bit, Addr;
    var k := if direct then i else NDIRECT + 1 + j;
    var i', j' := if direct then i + 1 else i, if direct then j else j + 1;
    var b := Addr(s.disk, s.inodes[f], k);
    assert SlotOk(s, owner, f, k);
    forall c | c in owner && owner[c] == (f, k) ensures c == b && c != 0 { assert BlockOk(s, sb, owner, c); }
    if b != 0 {
      assert BlockOk(s, sb, owner, b);
      forall c | 0 <= c < sb.size ensures Bit(WithBit(d, sb, b, false), sb, c) == (c != b && Bit(d, sb, c)) {
        BitWith(d, sb, b, false, c);
      }
    }
  }

  lemma TruncStart(s: State, sb: Super, owner: Owner, f: nat)
    requires Own(s, sb, owner) && f < |s.inodes|
    ensures DiskOk(s.disk, sb) && |s.inodes[f].addrs| == NDIRECT + 1 && Remaining(s.disk, sb, owner, f, 0, 0)
    ensures SameData(s.disk, s.disk, sb)
  {
    forall b | 0 <= b < sb.size ensures Bit(s.disk, sb, b) <==> b < sb.datastart || b in owner {
      assert BitOk(s, sb, owner, b);
    }
  }

  lemma NoIndirect(s: State, sb: Super, owner: Owner, f: nat, d: Disk)
    requires Own(s, sb, owner) && f < |s.inodes| && s.inodes[f].addrs[NDIRECT] == 0
    requires Remaining(d, sb, owner, f, NDIRECT, 0)
    ensures Remaining(d, sb, owner, f, NDIRECT + 1, NINDIRECT)
  {
    forall b | b in owner && owner[b].0 == f ensures owner[b].1 < NDIRECT {
      assert BlockOk(s, sb, owner, b);
      OwnedIsBlock(s, sb, owner, f, owner[b].1);
    }
  }

  lemma IndirectData(s: State, sb: Super, owner: Owner, f: nat, d: Disk)
    requires Own(s, sb, owner) && f < |s.inodes| && s.inodes[f].addrs[NDIRECT] != 0 && SameData(s.disk, d, sb)
    ensures var p := s.inodes[f].addrs[NDIRECT]; 0 <= p < |d| && |s.disk| == |d| && d[p] == s.disk[p] && |d[p]| == BSIZE
    ensures |s.inodes[f].addrs| == NDIRECT + 1
  {
    IndirectBlock(s, sb, owner, f);
  }

  lemma EntryAddr(s: State, sb: Super, owner: Owner, f: nat, j: nat)
    requires Own(s, sb, owner) && f < |s.inodes| && s.inodes[f].addrs[NDIRECT] != 0 && j < NINDIRECT
    ensures var p := s.inodes[f].addrs[NDIRECT];
            0 <= p < |s.disk| && |s.disk[p]| == BSIZE
                && Addr(s.disk, s.inodes[f], NDIRECT + 1 + j) == Word(s.disk[p], j)
  {
    IndirectBlock(s, sb, owner, f);
  }

  lemma ZeroAddrs(a: seq<int>)
    requires |a| == NDIRECT + 1 && forall k :: 0 <= k <= NDIRECT ==> a[k] == 0
    ensures a == Zeros(NDIRECT + 1)
  {
    forall k | 0 <= k < |a| ensures a[k] == Zeros(NDIRECT + 1)[k] { ZerosAt(NDIRECT + 1, k); }
  }

  lemma TruncAddr(s: State, sb: Super, owner: Owner, f: nat, d: Disk, g: nat, i: nat)
    requires Own(s, sb, owner) && f < |s.inodes| && g < |s.inodes| && DiskOk(d, sb) && SameData(s.disk, d, sb)
    ensures var inodes := s.inodes[f := Inode(0, Zeros(NDIRECT + 1))];
            Addr(d, inodes[g], i) == if g == f then 0 else Addr(s.disk, s.inodes[g], i)
  {
    if g == f {
      if i <= NDIRECT { ZerosAt(NDIRECT + 1, i); }
      ZerosAt(NDIRECT + 1, NDIRECT);
    } else if s.inodes[g].addrs[NDIRECT] != 0 {
      IndirectBlock(s, sb, owner, g);
    }
  }

  lemma TruncOwn(s: State, sb: Super, owner: Owner, f: nat, d: Disk)
    requires Own(s, sb, owner) && f < |s.inodes| && DiskOk(d, sb) && SameData(s.disk, d, sb)
    requires Remaining(d, sb, owner, f, NDIRECT + 1, NINDIRECT)
    ensures Own(State(d, s.inodes[f := Inode(0, Zeros(NDIRECT + 1))]), sb, Without(owner, f))
  {
    hide Addr, Bit, Zeros;
    var s' := State(d, s.inodes[f := Inode(0, Zeros(NDIRECT + 1))]);
    var owner' := Without(owner, f);
    forall g, i | 0 <= g < |s'.inodes| && 0 <= i < NSLOTS ensures SlotOk(s', owner', g, i) {
      assert SlotOk(s, owner, g, i);
      TruncAddr(s, sb, owner, f, d, g, i);
    }
    forall b | b in owner' ensures BlockOk(s', sb, owner', b) {
      assert BlockOk(s, sb, owner, b);
      TruncAddr(s, sb, owner, f, d, owner[b].0, owner[b].1);
    }
    forall b | 0 <= b < sb.size ensures BitOk(s', sb, owner', b) {
      if b in owner { assert BlockOk(s, sb, owner, b); }
    }
  }

  lemma TruncKept(s: State, sb: Super, owner: Owner, f: nat, d: Disk)
    requires Own(s, sb, owner) && f < |s.inodes| && DiskOk(d, sb) && SameData(s.disk, d, sb)
    ensures Kept(s, State(d, s.inodes[f := Inode(0, Zeros(NDIRECT + 1))]), sb, owner, Without(owner, f), f)
  {
    forall b | b in owner ensures sb.datastart <= b < sb.size { assert BlockOk(s, sb, owner, b); }
  }

  lemma TruncEnd(s: State, sb: Super, owner: Owner, f: nat, d: Disk)
    requires Own(s, sb, owner) && f < |s.inodes| && DiskOk(d, sb) && SameData(s.disk, d, sb)
    requires Remaining(d, sb, owner, f, NDIRECT + 1, NINDIRECT)
    requires forall g :: 0 <= g < |s.inodes| ==> FileOk(s, g)
    ensures var s' := State(d, s.inodes[f := Inode(0, Zeros(NDIRECT + 1))]);
            && Own(s', sb, Without(owner, f)) && Contents(s', f) == []
            && (forall g :: 0 <= g < |s'.inodes| ==> FileOk(s', g))
            && (forall g :: 0 <= g < |s'.inodes| && g != f ==> Contents(s', g) == Contents(s, g))
  {
    hide Own, Kept, Addr, Bytes;
    var s' := State(d, s.inodes[f := Inode(0, Zeros(NDIRECT + 1))]);
    TruncOwn(s, sb, owner, f, d);
    TruncKept(s, sb, owner, f, d);
    assert Blocks(s', f, 0) by {
      forall i: nat ensures Addr(d, s'.inodes[f], i) == 0 { TruncAddr(s, sb, owner, f, d, f, i); }
    }
    assert FileOk(s', f);
    forall g | 0 <= g < |s'.inodes| && g != f ensures FileOk(s', g) && Contents(s', g) == Contents(s, g) {
      OthersKept(s, s', sb, owner, Without(owner, f), f, g);
    }
  }

  lemma NextMissing(s: State, f: nat, n: nat, bn: nat)
    requires Blocks(s, f, n) && bn <= n && bn < MAXFILE
    ensures Missing(s, f, bn) == Cost(if bn == n then n + 1 else n) - Cost(n)
  {
  }

  lemma MappedAddr(s: State, s': State, f: nat, bn: nat, addr: int)
    requires Mapped(s, s', f, bn, addr)
    ensures f < |s'.inodes| && addr == Addr(s'.disk, s'.inodes[f], SlotOf(bn)) && 0 < addr < |s'.disk|
  {
  }

  lemma GrownKeeps(s: State, s': State, sb: Super, owner: Owner, owner': Owner, f: nat)
    requires Grown(s, s', sb, owner, owner', f)
    ensures Kept(s, s', sb, owner, owner', f) && |s'.inodes| == |s.inodes| && f < |s.inodes|
    ensures s'.inodes[f].size == s.inodes[f].size && DiskOk(s'.disk, sb)
  {
  }

  lemma CostMono(a: nat, b: nat)
    requires a <= b
    ensures NBlocks(a) <= NBlocks(b) && Cost(NBlocks(a)) <= Cost(NBlocks(b))
  {
  }

  lemma WriteStart(s: State, sb: Super, owner: Owner, f: nat, off: nat)
    requires Own(s, sb, owner) && FileOk(s, f) && off <= s.inodes[f].size
    ensures Kept(s, s, sb, owner, owner, f) && Blocks(s, f, NBlocks(s.inodes[f].size))
    ensures Contents(s, f) == Bytes(s.disk, s.inodes[f], s.inodes[f].size) == Splice(Contents(s, f), off, [])
  {
  }

  lemma OwnerFits(s: State, sb: Super, owner: Owner)
    requires Own(s, sb, owner)
    ensures Room(sb, owner, 0)
  {
    forall b | b in owner ensures b in Range(sb.datastart, sb.size) { assert BlockOk(s, sb, owner, b); }
    SubsetSize(owner.Keys, Range(sb.datastart, sb.size));
  }

  /** Below its size a file has no hole. */
  lemma ReadMissing(s: State, f: nat, pos: nat)
    requires FileOk(s, f) && pos < s.inodes[f].size
    ensures pos / BSIZE < MAXFILE && Missing(s, f, pos / BSIZE) == 0
  {
    assert pos / BSIZE < NBlocks(s.inodes[f].size);
  }

  lemma SizeFits(s: State, f: nat)
    requires FileOk(s, f)
    ensures s.inodes[f].size <= MAXFILE * BSIZE
  {
  }

  lemma SliceMore(c: seq<int>, off: nat, tot: nat, m: nat)
    requires off + tot + m <= |c|
    ensures c[off..off + tot] + c[off + tot..off + tot + m] == c[off..off + tot + m]
  {
  }

  lemma ReadBytes(s: State, sb: Super, owner: Owner, f: nat, pos: nat, m: nat, addr: int)
    requires Own(s, sb, owner) && Mapped(s, s, f, pos / BSIZE, addr)
    requires 0 < m <= BSIZE - pos % BSIZE && pos + m <= s.inodes[f].size
    ensures 0 < addr < |s.disk| && |s.disk[addr]| == BSIZE
    ensures s.disk[addr][pos % BSIZE..pos % BSIZE + m] == Contents(s, f)[pos..pos + m]
  {
    var x, y := s.disk[addr][pos % BSIZE..pos % BSIZE + m], Contents(s, f)[pos..pos + m];
    forall k | 0 <= k < m ensures x[k] == y[k] {
      SameBlock(pos, k, m);
      assert y[k] == ByteAt(s.disk, s.inodes[f], pos + k);
    }
  }

  lemma SameBlock(pos: nat, k: nat, m: nat)
    requires k < m <= BSIZE - pos % BSIZE
    ensures (pos + k) / BSIZE == pos / BSIZE && (pos + k) % BSIZE == pos % BSIZE + k
  {
  }

  lemma OwnedIsBlock(s: State, sb: Super, owner: Owner, f: nat, i: nat)
    requires Own(s, sb, owner) && f < |s.inodes| && i < NSLOTS
    ensures DiskOk(s.disk, sb) && |s.inodes[f].addrs| == NDIRECT + 1
    ensures var b := Addr(s.disk, s.inodes[f], i); b != 0 ==> b in owner && sb.datastart <= b < sb.size
    ensures i <= NDIRECT ==> Addr(s.disk, s.inodes[f], i) == s.inodes[f].addrs[i]
    ensures s.inodes[f].addrs[NDIRECT] == 0 && i > NDIRECT ==> Addr(s.disk, s.inodes[f], i) == 0
  {
    assert SlotOk(s, owner, f, i);
    var b := Addr(s.disk, s.inodes[f], i);
    if b != 0 { assert BlockOk(s, sb, owner, b); }
  }

  // ------------------------------------------------------------ the blocks that are logged

  /** The bitmap block with the bit of block `b`. */
  function MapBlock(sb: Super, b: int): int {
    sb.bmapstart + b / BPB
  }

  ghost function Maps(sb: Super, bs: set<int>): set<int> {
    set b | b in bs :: MapBlock(sb, b)
  }

  ghost function New(o: Owner, o': Owner): (r: set<int>)
    ensures forall b :: b in r <==> b in o' && b !in o
  {
    o'.Keys - o.Keys
  }

  ghost predicate Extended(o: Owner, o': Owner) {
    forall b :: b in o ==> b in o' && o'[b] == o[b]
  }

  /** The blocks that were allocated are the lowest that were free. */
  ghost predicate Lowest(sb: Super, o: Owner, o': Owner) {
    forall b, c :: b in New(o, o') && sb.datastart <= c < sb.size && c !in o' ==> b < c
  }

  ghost predicate Confined(d: Disk, d': Disk, where_: set<int>) {
    |d'| == |d| && forall y :: 0 <= y < |d| && y !in where_ ==> d'[y] == d[y]
  }

  /** A step has logged the blocks `x` and the bitmap blocks of what it allocated, and has
      changed no other block. */
  ghost predicate Noted(sb: Super, d: Disk, d': Disk, o: Owner, o': Owner, l: set<int>, l': set<int>, x: set<int>) {
    && Extended(o, o') && Lowest(sb, o, o') && New(o, o') <= x
    && l' == l + x + Maps(sb, New(o, o')) && Confined(d, d', l')
  }

  lemma NotedNothing(sb: Super, d: Disk, o: Owner, l: set<int>)
    ensures Noted(sb, d, d, o, o, l, l, {})
  {
  }

  lemma NotedWrite(sb: Super, d: Disk, d': Disk, o: Owner, l: set<int>, b: int)
    requires 0 <= b < |d| == |d'| && d' == d[b := d'[b]]
    ensures Noted(sb, d, d', o, o, l, l + {b}, {b})
  {
    assert New(o, o) == {};
  }

  lemma NotedSame(sb: Super, d: Disk, d': Disk, o: Owner, o': Owner, l: set<int>, l': set<int>)
    ensures o == o' && Noted(sb, d, d', o, o', l, l', {}) ==> l' == l
  {
  }

  lemma MapsOf(sb: Super, a: set<int>, b: set<int>)
    ensures Maps(sb, a + b) == Maps(sb, a) + Maps(sb, b)
  {
  }

  lemma NotedTwice(sb: Super, d0: Disk, d1: Disk, d2: Disk, o0: Owner, o1: Owner, o2: Owner,
                   l0: set<int>, l1: set<int>, l2: set<int>, x: set<int>, y: set<int>)
    requires Noted(sb, d0, d1, o0, o1, l0, l1, x) && Noted(sb, d1, d2, o1, o2, l1, l2, y)
    ensures Noted(sb, d0, d2, o0, o2, l0, l2, x + y)
  {
    forall b ensures b in New(o0, o2) <==> b in New(o0, o1) + New(o1, o2) {}
    assert New(o0, o2) == New(o0, o1) + New(o1, o2);
    MapsOf(sb, New(o0, o1), New(o1, o2));
    hide Maps;
    forall b, c | b in New(o0, o2) && sb.datastart <= c < sb.size && c !in o2 ensures b < c {
      if b !in New(o1, o2) { assert b in New(o0, o1) && c !in o1; }
    }
    forall z | 0 <= z < |d0| && z !in l2 ensures d2[z] == d0[z] { assert z !in l1; }
  }

  /** balloc() of block `b`, whose number goes to a slot; `extra` is logged with it. */
  lemma NotedAlloc(s: State, sb: Super, o: Owner, b: nat, role: (nat, nat), d': Disk, l: set<int>, extra: set<int>)
    requires Own(s, sb, o) && b < sb.size && b !in o && forall c :: 0 <= c < b ==> Bit(s.disk, sb, c)
    requires Confined(s.disk, d', {MapBlock(sb, b), b} + extra)
    ensures Noted(sb, s.disk, d', o, o[b := role], l, l + {MapBlock(sb, b), b} + extra, {b as int} + extra)
  {
    var o' := o[b := role];
    assert New(o, o') == {b as int};
    assert Maps(sb, {b as int}) == {MapBlock(sb, b)};
    hide Maps;
    forall c | sb.datastart <= c < sb.size && c !in o' ensures b < c { assert BitOk(s, sb, o, c); }
  }

  lemma AllocatedConfined(d: Disk, sb: Super, b: nat)
    requires SuperOk(sb) && DiskOk(d, sb) && b < sb.size
    ensures Confined(d, Allocated(d, sb, b), {MapBlock(sb, b), b as int})
  {
  }

  /** The blocks of `f` for file blocks `lo` to `hi` - 1, and its indirect block. */
  ghost function DataOf(o: Owner, f: nat, lo: nat, hi: nat): (r: set<int>)
    ensures forall b :: b in r <==> b in o && o[b].0 == f && o[b].1 != NDIRECT && lo <= FileBlock(o[b].1) < hi
  {
    set b | b in o && o[b].0 == f && o[b].1 != NDIRECT && lo <= FileBlock(o[b].1) < hi
  }

  function FileBlock(slot: nat): int {
    if slot < NDIRECT then slot else slot - 1
  }

  ghost function IndOf(o: Owner, f: nat): (r: set<int>)
    ensures forall b :: b in r <==> b in o && o[b] == (f, NDIRECT)
  {
    set b | b in o && o[b] == (f, NDIRECT)
  }

  /** A role belongs to one block. */
  lemma OneBlock(s: State, sb: Super, o: Owner, b: int, c: int)
    requires Own(s, sb, o) && b in o && c in o && o[b] == o[c]
    ensures b == c
  {
    assert BlockOk(s, sb, o, b) && BlockOk(s, sb, o, c);
  }

  lemma DataOne(s: State, sb: Super, o: Owner, f: nat, bn: nat)
    requires Own(s, sb, o) && f < |s.inodes| && bn < MAXFILE && Addr(s.disk, s.inodes[f], SlotOf(bn)) != 0
    ensures DataOf(o, f, bn, bn + 1) == {Addr(s.disk, s.inodes[f], SlotOf(bn))}
  {
    hide Addr, Bit;
    var b := Addr(s.disk, s.inodes[f], SlotOf(bn));
    assert SlotOk(s, o, f, SlotOf(bn));
    var hi := bn + 1;
    forall c | c in DataOf(o, f, bn, hi) ensures c == b { OneBlock(s, sb, o, b, c); }
    assert b in DataOf(o, f, bn, hi);
  }

  lemma IndOne(s: State, sb: Super, o: Owner, f: nat)
    requires Own(s, sb, o) && f < |s.inodes|
    ensures var p := Addr(s.disk, s.inodes[f], NDIRECT); IndOf(o, f) == if p != 0 then {p} else {}
  {
    hide Addr, Bit;
    var p := Addr(s.disk, s.inodes[f], NDIRECT);
    assert SlotOk(s, o, f, NDIRECT);
    forall c | c in IndOf(o, f) ensures c == p && p != 0 { assert BlockOk(s, sb, o, c); }
  }

  /** What bmap() logs, beside bitmap blocks. */
  ghost function MapLogs(o: Owner, f: nat, bn: nat, addr: int, grows: bool): set<int> {
    if !grows then {} else if bn < NDIRECT then {addr} else {addr} + IndOf(o, f)
  }

  /** bmap() of a direct block. */
  lemma DirectLogs(s: State, s': State, sb: Super, o: Owner, o': Owner, l: set<int>, l': set<int>, f: nat, bn: nat,
                   addr: int)
    requires f < |s.inodes| && bn < NDIRECT && |s.inodes[f].addrs| == NDIRECT + 1
    requires Noted(sb, s.disk, s'.disk, o, o', l, l', if s.inodes[f].addrs[bn] != 0 then {} else {addr})
    requires s.inodes[f].addrs[bn] != 0 ==> o' == o
    ensures Noted(sb, s.disk, s'.disk, o, o', l, l', MapLogs(o', f, bn, addr, Missing(s, f, bn) > 0))
    ensures Missing(s, f, bn) == 0 ==> l' == l
  {
    hide Noted;
    DirectAddr(s, f, bn);
    NotedSame(sb, s.disk, s'.disk, o, o', l, l');
  }

  /** bmap() of a block in the indirect block `p`. */
  lemma EntryLogs(s: State, t: State, u: State, sb: Super, o: Owner, q: Owner, o': Owner,
                  l: set<int>, l1: set<int>, l2: set<int>, f: nat, bn: nat, p: int, addr: int)
    requires f < |s.inodes| == |t.inodes| == |u.inodes| && NDIRECT <= bn < MAXFILE && Own(s, sb, o) && Own(u, sb, o')
    requires Addr(u.disk, u.inodes[f], NDIRECT) == p != 0
    requires Noted(sb, s.disk, t.disk, o, q, l, l1, if s.inodes[f].addrs[NDIRECT] != 0 then {} else {p})
    requires Noted(sb, t.disk, u.disk, q, o', l1, l2,
                   if Addr(t.disk, t.inodes[f], SlotOf(bn)) != 0 then {} else {addr, p})
    requires Addr(t.disk, t.inodes[f], SlotOf(bn)) == Addr(s.disk, s.inodes[f], SlotOf(bn))
    requires Missing(s, f, bn) == 0 ==> o' == o
    ensures Noted(sb, s.disk, u.disk, o, o', l, l2, MapLogs(o', f, bn, addr, Missing(s, f, bn) > 0))
    ensures Missing(s, f, bn) == 0 ==> l2 == l
  {
    OwnedIsBlock(s, sb, o, f, SlotOf(bn));
    OwnedIsBlock(s, sb, o, f, NDIRECT);
    IndOne(u, sb, o', f);
    hide Noted, Own, Addr, IndOf;
    var x, y := if s.inodes[f].addrs[NDIRECT] != 0 then {} else {p},
                if Addr(t.disk, t.inodes[f], SlotOf(bn)) != 0 then {} else {addr, p};
    NotedTwice(sb, s.disk, t.disk, u.disk, o, q, o', l, l1, l2, x, y);
    assert x + y == MapLogs(o', f, bn, addr, Missing(s, f, bn) > 0);
    NotedSame(sb, s.disk, u.disk, o, o', l, l2);
  }

  /** One past the last file block that `m` bytes from `off` on reach. */
  function Reach(off: nat, m: nat): nat {
    if m == 0 then off / BSIZE else (off + m - 1) / BSIZE + 1
  }

  /** What the loop of writei() logs, beside bitmap blocks: the data blocks, and the indirect
      block if an entry is added to it. */
  ghost function WriteLogs(o: Owner, f: nat, lo: nat, hi: nat, n: nat, n': nat): set<int> {
    DataOf(o, f, lo, hi) + (if n' > n && n' > NDIRECT then IndOf(o, f) else {})
  }

  /** Blocks that a file has keep their place while it grows. */
  lemma DataKept(s: State, s': State, sb: Super, o: Owner, o': Owner, f: nat, lo: nat, hi: nat, n: nat)
    requires Own(s, sb, o) && Own(s', sb, o') && Extended(o, o') && Blocks(s, f, n) && hi <= n
    ensures DataOf(o', f, lo, hi) == DataOf(o, f, lo, hi)
  {
    hide Bit, Addr;
    forall b | b in DataOf(o', f, lo, hi) ensures b in DataOf(o, f, lo, hi) {
      assert BlockOk(s', sb, o', b);
      var c := Addr(s.disk, s.inodes[f], o'[b].1);
      assert o'[b].1 == SlotOf(FileBlock(o'[b].1));
      assert SlotOk(s, o, f, o'[b].1);
      OneBlock(s', sb, o', b, c);
    }
    forall b | b in DataOf(o, f, lo, hi) ensures b in DataOf(o', f, lo, hi) {}
  }

  lemma IndKept(s: State, s': State, sb: Super, o: Owner, o': Owner, f: nat)
    requires Own(s, sb, o) && Own(s', sb, o') && Extended(o, o') && f < |s.inodes|
    requires Addr(s.disk, s.inodes[f], NDIRECT) != 0
    ensures IndOf(o', f) == IndOf(o, f)
  {
    hide Bit, Addr;
    IndOne(s, sb, o, f);
    var p := Addr(s.disk, s.inodes[f], NDIRECT);
    assert p in IndOf(o, f);
    forall b | b in IndOf(o', f) ensures b == p { OneBlock(s', sb, o', b, p); }
  }

  /** The next block of the loop of writei(). */
  lemma WriteLogsMore(s: State, s': State, sb: Super, o: Owner, o': Owner, f: nat, lo: nat, hi: nat, bn: nat,
                      n0: nat, n: nat, n': nat, addr: int)
    requires Own(s, sb, o) && Own(s', sb, o') && Extended(o, o') && Blocks(s, f, n) && Blocks(s', f, n')
    requires lo <= bn && (hi == bn || hi == lo == bn) && bn < MAXFILE && n0 <= n && hi <= n
    requires n' == (if bn == n then n + 1 else n) && bn <= n && (n0 < n ==> bn == n)
    requires addr == Addr(s'.disk, s'.inodes[f], SlotOf(bn)) != 0
    ensures WriteLogs(o, f, lo, hi, n0, n) + MapLogs(o', f, bn, addr, n' > n) + {addr}
            == WriteLogs(o', f, lo, bn + 1, n0, n')
  {
    hide Bit, Addr;
    DataKept(s, s', sb, o, o', f, lo, hi, n);
    DataOne(s', sb, o', f, bn);
    assert DataOf(o', f, lo, bn + 1) == DataOf(o', f, lo, hi) + DataOf(o', f, bn, bn + 1);
    if n > n0 && n > NDIRECT { IndKept(s, s', sb, o, o', f); }
  }

  lemma SpliceNext(c: seq<int>, off: nat, src: seq<int>, tot: nat, m: nat)
    requires off <= |c| && tot + m <= |src|
    ensures off + tot <= |Splice(c, off, src[..tot])|
    ensures Splice(Splice(c, off, src[..tot]), off + tot, src[tot..tot + m]) == Splice(c, off, src[..tot + m])
  {
    SpliceSplice(c, off, src[..tot], src[tot..tot + m]);
    assert src[..tot] + src[tot..tot + m] == src[..tot + m];
  }

  lemma RoomLeft(sb: Super, o: Owner, p: Owner, size: nat, off: nat, tot: nat, m: nat, len: nat)
    requires off <= size && tot + m <= len && |p| == |o| + Cost(NBlocks(Max(size, off + tot))) - Cost(NBlocks(size))
    requires Room(sb, o, Cost(NBlocks(Max(size, off + len))) - Cost(NBlocks(size)))
    ensures var now, pos := Max(size, off + tot), off + tot;
            && Max(now, pos + m) == Max(size, off + tot + m)
            && Room(sb, p, Cost(NBlocks(Max(now, pos + m))) - Cost(NBlocks(now)))
  {
    CostMono(Max(size, off + tot + m), Max(size, off + len));
  }

  /** A round ends at the end of a block or of the data. */
  lemma RoundEnd(pos: nat, m: nat, left: nat)
    requires m == if left < BSIZE - pos % BSIZE then left else BSIZE - pos % BSIZE
    ensures m == left || (pos + m) % BSIZE == 0
  {
  }

  lemma RoundArith(off: nat, tot: nat, m: nat, size: nat)
    requires off <= size && 0 < m <= BSIZE - (off + tot) % BSIZE && (tot == 0 || (off + tot) % BSIZE == 0)
    requires off + tot + m <= MAXFILE * BSIZE
    ensures var bn, n, n' := (off + tot) / BSIZE, NBlocks(Max(size, off + tot)), NBlocks(Max(size, off + tot + m));
            && off / BSIZE <= bn == Reach(off, tot) && bn + 1 == Reach(off, tot + m) && bn < MAXFILE
            && NBlocks(size) <= n && bn <= n && n' == (if bn == n then n + 1 else n) && (NBlocks(size) < n ==> bn == n)
  {
    WriteArith(Max(size, off + tot), off + tot, m);
  }

  /** What the loop of writei() has logged after `tot` bytes, in a file of `size` bytes. */
  ghost predicate WriteNoted(sb: Super, s: State, t: State, o: Owner, p: Owner, l: set<int>, l': set<int>,
                             f: nat, off: nat, tot: nat, size: nat)
  {
    var x := WriteLogs(p, f, off / BSIZE, Reach(off, tot), NBlocks(size), NBlocks(Max(size, off + tot)));
    Noted(sb, s.disk, t.disk, o, p, l, l', x)
  }

  /** What one round of it logs, in a file whose bytes reach up to `len`. */
  ghost predicate RoundNoted(sb: Super, s: State, t: State, o: Owner, p: Owner, l: set<int>, l': set<int>,
                             f: nat, pos: nat, m: nat, len: nat)
  {
    f < |t.inodes| &&
    var bn := pos / BSIZE;
    var addr := Addr(t.disk, t.inodes[f], SlotOf(bn));
    && addr != 0
    && Noted(sb, s.disk, t.disk, o, p, l, l',
             MapLogs(p, f, bn, addr, NBlocks(Max(len, pos + m)) > NBlocks(len)) + {addr})
  }

  lemma SameNoted(sb: Super, s: State, t: State, u: State, o: Owner, p: Owner, l: set<int>, l': set<int>,
                  f: nat, off: nat, tot: nat, size: nat)
    requires u.disk == t.disk
    ensures WriteNoted(sb, s, t, o, p, l, l', f, off, tot, size) <==>
              WriteNoted(sb, s, u, o, p, l, l', f, off, tot, size)
  {
  }

  lemma NothingWritten(sb: Super, s: State, o: Owner, l: set<int>, f: nat, off: nat, size: nat)
    requires off <= size
    ensures WriteNoted(sb, s, s, o, o, l, l, f, off, 0, size)
  {
    NotedNothing(sb, s.disk, o, l);
    assert WriteLogs(o, f, off / BSIZE, Reach(off, 0), NBlocks(size), NBlocks(Max(size, off))) == {};
  }

  lemma NotedExtends(sb: Super, d: Disk, d': Disk, o: Owner, o': Owner, l: set<int>, l': set<int>, x: set<int>)
    requires Noted(sb, d, d', o, o', l, l', x)
    ensures Extended(o, o')
  {
  }

  /** One round of the loop of writei(). */
  lemma RoundLogs(s: State, t: State, u: State, sb: Super, o: Owner, p: Owner, q: Owner,
                  l: set<int>, l1: set<int>, l2: set<int>, f: nat, off: nat, tot: nat, m: nat, size: nat)
    requires off <= size && 0 < m <= BSIZE - (off + tot) % BSIZE && (tot == 0 || (off + tot) % BSIZE == 0)
    requires off + tot + m <= MAXFILE * BSIZE
    requires Own(t, sb, p) && Own(u, sb, q) && Blocks(t, f, NBlocks(Max(size, off + tot)))
    requires Blocks(u, f, NBlocks(Max(size, off + tot + m)))
    requires WriteNoted(sb, s, t, o, p, l, l1, f, off, tot, size)
    requires RoundNoted(sb, t, u, p, q, l1, l2, f, off + tot, m, Max(size, off + tot))
    ensures WriteNoted(sb, s, u, o, q, l, l2, f, off, tot + m, size)
  {
    hide Own, Blocks, Noted, WriteLogs, MapLogs, Addr, NBlocks, Reach;
    var bn, n, n' := (off + tot) / BSIZE, NBlocks(Max(size, off + tot)), NBlocks(Max(size, off + tot + m));
    assert Max(Max(size, off + tot), off + tot + m) == Max(size, off + tot + m);
    var addr := Addr(u.disk, u.inodes[f], SlotOf(bn));
    RoundArith(off, tot, m, size);
    var x, y := WriteLogs(p, f, off / BSIZE, bn, NBlocks(size), n), MapLogs(q, f, bn, addr, n' > n);
    NotedExtends(sb, t.disk, u.disk, p, q, l1, l2, y + {addr});
    WriteLogsMore(t, u, sb, p, q, f, off / BSIZE, bn, bn, NBlocks(size), n, n', addr);
    assert x + y + {addr} == x + (y + {addr});
    NotedTwice(sb, s.disk, t.disk, u.disk, o, p, q, l, l1, l2, x, y + {addr});
  }

  ghost function HeldBy(o: Owner, f: nat): (r: set<int>)
    ensures forall b :: b in r <==> b in o && o[b].0 == f
  {
    set b | b in o && o[b].0 == f
  }

  /** The blocks of `f` whose bits itrunc() has cleared. */
  ghost function FreedOf(o: Owner, f: nat, i: nat, j: nat): (r: set<int>)
    ensures forall b :: b in r <==> b in o && o[b].0 == f && Freed(o[b].1, i, j)
  {
    set b | b in o && o[b].0 == f && Freed(o[b].1, i, j)
  }

  /** itrunc() has logged the bitmap blocks of what it freed, and changed no other block. */
  ghost predicate Cleared(sb: Super, d: Disk, d': Disk, o: Owner, l: set<int>, l': set<int>, f: nat, i: nat, j: nat) {
    l' == l + Maps(sb, FreedOf(o, f, i, j)) && Confined(d, d', l')
  }

  lemma ClearedNothing(sb: Super, d: Disk, o: Owner, l: set<int>, f: nat)
    ensures Cleared(sb, d, d, o, l, l, f, 0, 0)
  {
    assert FreedOf(o, f, 0, 0) == {};
  }

  lemma ClearedMore(s: State, sb: Super, d: Disk, d': Disk, o: Owner, l: set<int>, l1: set<int>, l2: set<int>,
                    f: nat, i: nat, j: nat, direct: bool)
    requires Own(s, sb, o) && f < |s.inodes| && i <= NDIRECT && j <= NINDIRECT && (direct || j < NINDIRECT)
    requires Cleared(sb, s.disk, d, o, l, l1, f, i, j) && Confined(d, d', l2)
    requires var b := Addr(s.disk, s.inodes[f], if direct then i else NDIRECT + 1 + j);
             l2 == l1 + (if b != 0 then {MapBlock(sb, b)} else {})
    ensures Cleared(sb, s.disk, d', o, l, l2, f, if direct then i + 1 else i, if direct then j else j + 1)
  {
    hide Addr, Bit;
    var k := if direct then i else NDIRECT + 1 + j;
    var b := Addr(s.disk, s.inodes[f], k);
    var x, x' := FreedOf(o, f, i, j), FreedOf(o, f, if direct then i + 1 else i, if direct then j else j + 1);
    assert SlotOk(s, o, f, k);
    forall c | c in o && o[c] == (f, k) ensures c == b && b != 0 { assert BlockOk(s, sb, o, c); }
    assert x' == x + (if b != 0 then {b} else {});
    MapsOf(sb, x, {b});
    assert Maps(sb, {b}) == {MapBlock(sb, b)};
    hide Maps, FreedOf;
    forall y | 0 <= y < |s.disk| && y !in l2 ensures d'[y] == s.disk[y] { assert y !in l1; }
  }

  lemma NoIndirectCleared(s: State, sb: Super, d: Disk, o: Owner, l: set<int>, l1: set<int>, f: nat)
    requires Own(s, sb, o) && f < |s.inodes| && s.inodes[f].addrs[NDIRECT] == 0
    requires Cleared(sb, s.disk, d, o, l, l1, f, NDIRECT, 0)
    ensures Cleared(sb, s.disk, d, o, l, l1, f, NDIRECT + 1, NINDIRECT)
  {
    forall b | b in o && o[b].0 == f ensures o[b].1 < NDIRECT {
      assert BlockOk(s, sb, o, b);
      OwnedIsBlock(s, sb, o, f, o[b].1);
    }
    assert FreedOf(o, f, NDIRECT + 1, NINDIRECT) == FreedOf(o, f, NDIRECT, 0);
  }

  lemma AllCleared(s: State, sb: Super, d: Disk, o: Owner, l: set<int>, l1: set<int>, f: nat)
    requires Own(s, sb, o) && f < |s.inodes| && Cleared(sb, s.disk, d, o, l, l1, f, NDIRECT + 1, NINDIRECT)
    ensures l1 == l + Maps(sb, HeldBy(o, f)) && Confined(s.disk, d, l1)
  {
    forall b | b in o && o[b].0 == f ensures o[b].1 < NSLOTS { assert BlockOk(s, sb, o, b); }
    assert FreedOf(o, f, NDIRECT + 1, NINDIRECT) == HeldBy(o, f);
  }

  // ------------------------------------------------------------ how many blocks are logged

  /** The lowest `n` blocks from `b` on whose bit is clear. */
  ghost function LowClear(d: Disk, sb: Super, b: nat, n: nat): set<int>
    requires SuperOk(sb) && DiskOk(d, sb)
    decreases sb.size - b
  {
    if n == 0 || b >= sb.size then {}
    else if Bit(d, sb, b) then LowClear(d, sb, b + 1, n)
    else {b as int} + LowClear(d, sb, b + 1, n - 1)
  }

  /** Blocks from `b` on that nobody owns, and with each of them all such blocks below it. */
  ghost predicate LowSet(o: Owner, sb: Super, xs: set<int>, b: nat) {
    && (forall x :: x in xs ==> b <= x < sb.size && x !in o)
    && (forall x, c :: x in xs && b <= c < x && c !in o ==> c in xs)
  }

  lemma LowSetNext(o: Owner, sb: Super, xs: set<int>, b: nat)
    requires LowSet(o, sb, xs, b) && xs != {}
    ensures b < sb.size && (b in o ==> LowSet(o, sb, xs, b + 1))
    ensures b !in o ==> b in xs && LowSet(o, sb, xs - {b as int}, b + 1)
  {
    var x := SomeMember(xs);
  }

  lemma BitIs(s: State, sb: Super, o: Owner, b: nat)
    requires Own(s, sb, o) && sb.datastart <= b < sb.size
    ensures Bit(s.disk, sb, b) <==> b in o
  {
    assert BitOk(s, sb, o, b);
  }

  lemma {:induction false} LowClearIs(s: State, sb: Super, o: Owner, xs: set<int>, b: nat)
    requires Own(s, sb, o) && SuperOk(sb) && DiskOk(s.disk, sb) && sb.datastart <= b <= sb.size && LowSet(o, sb, xs, b)
    ensures LowClear(s.disk, sb, b, |xs|) == xs
    decreases sb.size - b
  {
    hide Own, Bit, LowSet, DiskOk, SuperOk;
    if xs != {} {
      LowSetNext(o, sb, xs, b);
      BitIs(s, sb, o, b);
      if b in o {
        LowClearIs(s, sb, o, xs, b + 1);
      } else {
        LowClearIs(s, sb, o, xs - {b as int}, b + 1);
      }
    }
  }

  /** Which blocks a call allocates is settled by the bitmap before it. */
  lemma NewIsLow(s: State, s': State, sb: Super, o: Owner, o': Owner)
    requires Own(s, sb, o) && Own(s', sb, o') && Extended(o, o') && Lowest(sb, o, o')
    ensures |o'| >= |o| && New(o, o') == LowClear(s.disk, sb, sb.datastart, |o'| - |o|)
  {
    hide Bit, Addr, Lowest, Extended;
    NewFacts(s', sb, o, o');
    assert LowSet(o, sb, New(o, o'), sb.datastart);
    LowClearIs(s, sb, o, New(o, o'), sb.datastart);
  }

  lemma NewFacts(s': State, sb: Super, o: Owner, o': Owner)
    requires Own(s', sb, o') && Extended(o, o') && Lowest(sb, o, o')
    ensures |o'| == |o| + |New(o, o')|
    ensures forall x :: x in New(o, o') ==> sb.datastart <= x < sb.size
    ensures forall x, c :: x in New(o, o') && sb.datastart <= c < x && c !in o ==> c in New(o, o')
  {
    hide Bit, Addr;
    NewCount(o, o');
    forall x | x in New(o, o') ensures sb.datastart <= x < sb.size { assert BlockOk(s', sb, o', x); }
    hide Own, Extended;
    forall x, c | x in New(o, o') && sb.datastart <= c < x && c !in o ensures c in New(o, o') {}
  }

  lemma NewCount(o: Owner, o': Owner)
    requires Extended(o, o')
    ensures |o'| == |o| + |New(o, o')|
  {
    var old_, new_ := o.Keys, New(o, o');
    forall b ensures b in o'.Keys <==> b in old_ + new_ {}
    assert o'.Keys == old_ + new_ && old_ !! new_;
    KeysSize(o, old_);
    KeysSize(o', old_ + new_);
  }

  lemma KeysSize(o: Owner, keys: set<int>)
    requires keys == o.Keys
    ensures |o| == |keys|
  {
  }

  lemma {:induction false} DataCount(s: State, sb: Super, o: Owner, f: nat, lo: nat, hi: nat, n: nat)
    requires Own(s, sb, o) && Blocks(s, f, n) && lo <= hi <= n
    ensures |DataOf(o, f, lo, hi)| == hi - lo
    decreases hi
  {
    if lo < hi {
      DataCount(s, sb, o, f, lo, hi - 1, n);
      DataOne(s, sb, o, f, hi - 1);
      hide Own, Addr;
      assert DataOf(o, f, lo, hi) == DataOf(o, f, lo, hi - 1) + DataOf(o, f, hi - 1, hi);
      assert DataOf(o, f, lo, hi - 1) !! DataOf(o, f, hi - 1, hi);
    } else {
      assert DataOf(o, f, lo, hi) == {};
    }
  }

  /** The bitmap blocks are below the data. */
  lemma MapsBelow(sb: Super, bs: set<int>)
    requires SuperOk(sb) && forall b :: b in bs ==> 0 <= b < sb.size
    ensures forall y :: y in Maps(sb, bs) ==> sb.bmapstart <= y < sb.datastart
    ensures |Maps(sb, bs)| <= |bs| && |Maps(sb, bs)| <= sb.size / BPB + 1 && (bs != {} ==> |Maps(sb, bs)| >= 1)
  {
    MapsFew(sb, bs);
    SubsetSize(Maps(sb, bs), Range(sb.bmapstart, sb.datastart));
    if b :| b in bs { assert MapBlock(sb, b) in Maps(sb, bs); }
  }

  lemma {:induction false} MapsFew(sb: Super, bs: set<int>)
    ensures |Maps(sb, bs)| <= |bs|
    decreases |bs|
  {
    if b :| b in bs {
      MapsFew(sb, bs - {b});
      assert Maps(sb, bs) == Maps(sb, bs - {b}) + {MapBlock(sb, b)};
    } else {
      assert Maps(sb, bs) == {};
    }
  }

  lemma {:induction false} LowClearFew(d: Disk, sb: Super, b: nat, n: nat)
    requires SuperOk(sb) && DiskOk(d, sb)
    ensures |LowClear(d, sb, b, n)| <= n && forall x :: x in LowClear(d, sb, b, n) ==> b <= x < sb.size
    ensures n <= FreeFrom(d, sb, b) ==> |LowClear(d, sb, b, n)| == n
    decreases sb.size - b
  {
    hide Bit;
    if n > 0 && b < sb.size {
      if Bit(d, sb, b) {
        LowClearFew(d, sb, b + 1, n);
      } else {
        LowClearFew(d, sb, b + 1, n - 1);
        assert b !in LowClear(d, sb, b + 1, n - 1);
      }
    }
  }

  /** The blocks that a write allocates. */
  function Allocates(size: nat, off: nat, m: nat): int {
    Cost(NBlocks(Max(size, off + m))) - Cost(NBlocks(size))
  }

  /** The blocks that writei() passes to log_write(), other than the inode's: the data blocks, the
      indirect block if an entry is added, and the bitmap blocks of the lowest free blocks. */
  ghost function WriteCount(s: State, sb: Super, f: nat, off: nat, m: nat): nat
    requires SuperOk(sb) && DiskOk(s.disk, sb) && f < |s.inodes|
  {
    var size := s.inodes[f].size;
    var n, n', k := NBlocks(size), NBlocks(Max(size, off + m)), Allocates(size, off, m);
    var data := Reach(off, m) - off / BSIZE;
    (if data > 0 then data else 0) + (if n' > n && n' > NDIRECT then 1 else 0)
    + |Maps(sb, LowClear(s.disk, sb, sb.datastart, if k > 0 then k else 0))|
  }

  lemma ReachFits(size: nat, off: nat, m: nat)
    requires off <= size
    ensures off / BSIZE <= Reach(off, m) <= NBlocks(Max(size, off + m)) && Allocates(size, off, m) >= 0
    ensures NBlocks(size) <= NBlocks(Max(size, off + m))
  {
    CostMono(size, Max(size, off + m));
  }

  lemma WriteLogsCount(s: State, sb: Super, o: Owner, f: nat, lo: nat, hi: nat, n0: nat, n: nat)
    requires Own(s, sb, o) && Blocks(s, f, n) && lo <= hi <= n
    ensures |WriteLogs(o, f, lo, hi, n0, n)| == hi - lo + (if n > n0 && n > NDIRECT then 1 else 0)
    ensures forall b :: b in WriteLogs(o, f, lo, hi, n0, n) ==> b in o && sb.datastart <= b < sb.size
  {
    DataCount(s, sb, o, f, lo, hi, n);
    IndOne(s, sb, o, f);
    forall b | b in o ensures sb.datastart <= b < sb.size { assert BlockOk(s, sb, o, b); }
    assert n > NDIRECT <==> Addr(s.disk, s.inodes[f], NDIRECT) != 0;
    hide Own, Addr;
    assert DataOf(o, f, lo, hi) !! IndOf(o, f);
  }

  /** How many blocks a write logs is settled by the file system before it. */
  lemma WriteCounted(s: State, s': State, sb: Super, o: Owner, o': Owner, l: set<int>, f: nat, off: nat, m: nat)
    requires Own(s, sb, o) && Own(s', sb, o') && f < |s.inodes| && off <= s.inodes[f].size
    requires Blocks(s', f, NBlocks(Max(s.inodes[f].size, off + m)))
    requires |o'| == |o| + Allocates(s.inodes[f].size, off, m)
    requires WriteNoted(sb, s, s', o, o', {}, l, f, off, m, s.inodes[f].size)
    ensures SuperOk(sb) && DiskOk(s.disk, sb) && |l| == WriteCount(s, sb, f, off, m)
    ensures forall y :: y in l ==> sb.bmapstart <= y < sb.size && (y >= sb.datastart ==> y in o')
  {
    hide Own, Noted, WriteNoted, WriteLogs, Maps, NBlocks, Blocks, Cost, Reach, Extended, Lowest, Allocates, Max;
    hide LowClear;
    hide DiskOk, SuperOk, New;
    var size := s.inodes[f].size;
    var n, n' := NBlocks(size), NBlocks(Max(size, off + m));
    var x := WriteLogs(o', f, off / BSIZE, Reach(off, m), n, n');
    WriteParts(s, s', sb, o, o', l, f, off, m);
    ReachFits(size, off, m);
    WriteLogsCount(s', sb, o', f, off / BSIZE, Reach(off, m), n, n');
    NewIsLow(s, s', sb, o, o');
    NewMaps(s', sb, o, o');
    SumSize(x, Maps(sb, New(o, o')), l, o', sb);
  }

  lemma NewMaps(s': State, sb: Super, o: Owner, o': Owner)
    requires Own(s', sb, o') && Extended(o, o') && Lowest(sb, o, o')
    ensures forall y :: y in Maps(sb, New(o, o')) ==> sb.bmapstart <= y < sb.datastart
    ensures sb.bmapstart <= sb.datastart <= sb.size
  {
    hide Maps;
    NewFacts(s', sb, o, o');
    MapsBelow(sb, New(o, o'));
  }

  lemma SumSize(a: set<int>, b: set<int>, c: set<int>, o: Owner, sb: Super)
    requires c == a + b && sb.bmapstart <= sb.datastart <= sb.size
    requires forall y :: y in a ==> y in o && sb.datastart <= y < sb.size
    requires forall y :: y in b ==> sb.bmapstart <= y < sb.datastart
    ensures |c| == |a| + |b|
    ensures forall y :: y in c ==> sb.bmapstart <= y < sb.size && (y >= sb.datastart ==> y in o)
  {
    forall y | y in a ensures y !in b {}
    assert a !! b;
  }

  lemma WriteParts(s: State, s': State, sb: Super, o: Owner, o': Owner, l: set<int>, f: nat, off: nat, m: nat)
    requires Own(s, sb, o) && f < |s.inodes| && WriteNoted(sb, s, s', o, o', {}, l, f, off, m, s.inodes[f].size)
    ensures SuperOk(sb) && DiskOk(s.disk, sb) && Extended(o, o') && Lowest(sb, o, o')
    ensures var n, n' := NBlocks(s.inodes[f].size), NBlocks(Max(s.inodes[f].size, off + m));
            l == WriteLogs(o', f, off / BSIZE, Reach(off, m), n, n') + Maps(sb, New(o, o'))
    ensures Confined(s.disk, s'.disk, l)
  {
    hide Maps, Bit, Addr, WriteLogs, NBlocks, Reach;
  }

  /** The blocks of a file, with its indirect block. */
  ghost function FileBlocks(s: State, f: nat): (r: set<int>)
    requires f < |s.inodes|
  {
    set i | 0 <= i < NSLOTS && Addr(s.disk, s.inodes[f], i) != 0 :: Addr(s.disk, s.inodes[f], i)
  }

  lemma HeldIsFile(s: State, sb: Super, o: Owner, f: nat)
    requires Own(s, sb, o) && f < |s.inodes|
    ensures HeldBy(o, f) == FileBlocks(s, f) && forall b :: b in HeldBy(o, f) ==> sb.datastart <= b < sb.size
  {
    hide Bit, Addr;
    forall b | b in HeldBy(o, f) ensures b in FileBlocks(s, f) && sb.datastart <= b < sb.size {
      assert BlockOk(s, sb, o, b);
    }
    forall b | b in FileBlocks(s, f) ensures b in HeldBy(o, f) {
      var i :| 0 <= i < NSLOTS && Addr(s.disk, s.inodes[f], i) != 0 && b == Addr(s.disk, s.inodes[f], i);
      assert SlotOk(s, o, f, i);
    }
  }

  /** What the comment in filewrite() counts: data blocks, the indirect block, and bitmap blocks. */
  lemma WriteBound(s: State, sb: Super, f: nat, off: nat, m: nat)
    requires SuperOk(sb) && DiskOk(s.disk, sb) && f < |s.inodes| && off <= s.inodes[f].size
    ensures var data, maps := Reach(off, m) - off / BSIZE, sb.size / BPB + 1;
            && data <= WriteCount(s, sb, f, off, m) <= data + 1 + maps
            && (m > 0 ==> (m + BSIZE - 1) / BSIZE <= data <= (m + BSIZE - 2) / BSIZE + 1)
  {
    ReachFits(s.inodes[f].size, off, m);
    LowClearFew(s.disk, sb, sb.datastart, Allocates(s.inodes[f].size, off, m));
    MapsBelow(sb, LowClear(s.disk, sb, sb.datastart, Allocates(s.inodes[f].size, off, m)));
    hide LowClear, Maps;
  }

  class FileSystem {
    const sb: Super
    var disk: Disk
    var inodes: seq<Inode>    // in memory
    var dinodes: seq<Inode>   // on disk
    var logged: set<int>      // blocks passed to log_write(), other than those of inodes
    var updated: set<nat>     // inodes passed to iupdate()
    ghost var owner: Owner

    function St(): State
      reads this
    {
      State(disk, inodes)
    }

    /** Between calls the copies in memory and on disk agree. */
    ghost predicate Valid()
      reads this
    {
      && Own(St(), sb, owner) && dinodes == inodes
      && forall f :: 0 <= f < |inodes| ==> FileOk(St(), f)
    }

    /** An empty file system: `ninodes` inodes, and only the bits of the metadata set. */
    constructor (sb: Super, ninodes: nat)
      requires SuperOk(sb) && sb.size < WORD
      ensures Valid() && this.sb == sb && |inodes| == ninodes && owner == map[] && logged == {} && updated == {}
      ensures forall f :: 0 <= f < |inodes| ==> Contents(St(), f) == []
      ensures forall y :: sb.datastart <= y < sb.size ==> disk[y] == Zeros(BSIZE)
    {
      var d := MarkMetadata(sb);
      this.sb := sb;
      disk := d;
      inodes := seq(ninodes, _ => Inode(0, Zeros(NDIRECT + 1)));
      dinodes := seq(ninodes, _ => Inode(0, Zeros(NDIRECT + 1)));
      owner := map[];
      logged, updated := {}, {};
      new;
      forall f: nat, i: nat | f < ninodes ensures Addr(d, inodes[f], i) == 0 { ZeroInode(d, i); }
      hide Addr, Bit, Zeros;
      forall f, i | 0 <= f < |inodes| && 0 <= i < NSLOTS ensures SlotOk(St(), owner, f, i) {}
      forall b | 0 <= b < sb.size ensures BitOk(St(), sb, owner, b) {}
      forall f | 0 <= f < |inodes| ensures FileOk(St(), f) { assert Blocks(St(), f, 0); }
    }

    /** The file system found on a disk. */
    constructor Read(sb: Super, s: State, ghost owner: Owner)
      requires Own(s, sb, owner) && forall f :: 0 <= f < |s.inodes| ==> FileOk(s, f)
      ensures Valid() && this.sb == sb && St() == s && this.owner == owner && logged == {} && updated == {}
    {
      this.sb, disk, inodes, dinodes, this.owner := sb, s.disk, s.inodes, s.inodes, owner;
      logged, updated := {}, {};
    }

    method Balloc() returns (b: nat)
      requires Own(St(), sb, owner) && Room(sb, owner, 1)
      modifies this`disk, this`logged
      ensures b < sb.size && SuperOk(sb) && DiskOk(old(disk), sb) && !Bit(old(disk), sb, b)
      ensures forall c :: 0 <= c < b ==> Bit(old(disk), sb, c)
      ensures disk == Allocated(old(disk), sb, b) && logged == old(logged) + {MapBlock(sb, b), b}
    {
      RoomIsFree(St(), sb, owner);
      b := FindFree(disk, sb);
      WithBitOk(disk, sb, b, true);
      disk := WithBit(disk, sb, b, true);
      logged := logged + {MapBlock(sb, b)};
      disk := disk[b := Zeros(BSIZE)];
      logged := logged + {b};
    }

    /** The panic "freeing free block" is the failure of the precondition. */
    method Bfree(b: nat)
      requires SuperOk(sb) && DiskOk(disk, sb) && b < sb.size && Bit(disk, sb, b)
      modifies this`disk, this`logged
      ensures disk == WithBit(old(disk), sb, b, false) && DiskOk(disk, sb)
      ensures forall c :: 0 <= c < sb.size ==> (Bit(disk, sb, c) <==> c != b && Bit(old(disk), sb, c))
      ensures forall y :: sb.datastart <= y < sb.size ==> disk[y] == old(disk)[y]
      ensures logged == old(logged) + {MapBlock(sb, b)} && Confined(old(disk), disk, {MapBlock(sb, b)})
    {
      WithBitOk(disk, sb, b, false);
      forall c | 0 <= c < sb.size ensures Bit(WithBit(disk, sb, b, false), sb, c) <==> c != b && Bit(disk, sb, c) {
        BitWith(disk, sb, b, false, c);
      }
      disk := WithBit(disk, sb, b, false);
      logged := logged + {MapBlock(sb, b)};
    }

    /** bmap()'s handling of a slot of the inode itself. */
    method DirectSlot(f: nat, i: nat) returns (addr: int)
      requires Own(St(), sb, owner) && f < |inodes| && i <= NDIRECT
      requires inodes[f].addrs[i] == 0 ==> Room(sb, owner, 1)
      modifies this`disk, this`inodes, this`owner, this`logged
      ensures Own(St(), sb, owner) && Grown(old(St()), St(), sb, old(owner), owner, f)
      ensures if old(inodes[f].addrs[i]) != 0
                then addr == old(inodes[f].addrs[i]) && St() == old(St()) && owner == old(owner)
                else Filled(old(St()), St(), f, i, addr) && addr !in old(owner) && owner == old(owner)[addr := (f, i)]
      ensures Noted(sb, old(disk), disk, old(owner), owner, old(logged), logged,
                    if old(inodes[f].addrs[i]) != 0 then {} else {addr})
    {
      ghost var s := St();
      NotedNothing(sb, disk, owner, logged);
      addr := inodes[f].addrs[i];
      if addr == 0 {
        addr := Balloc();
        StoreDirectKeepsOwn(s, sb, owner, f, i, addr);
        StoreDirectGrows(s, sb, owner, f, i, addr);
        AllocatedConfined(s.disk, sb, addr);
        NotedAlloc(s, sb, owner, addr, (f, i), disk, old(logged), {});
        inodes := inodes[f := inodes[f].(addrs := inodes[f].addrs[i := addr])];
        assert St() == StoredDirect(s, sb, f, i, addr);
        owner := owner[addr := (f, i)];
      }
    }

    /** bmap()'s handling of an entry of the indirect block. */
    method EntrySlot(f: nat, j: nat) returns (addr: int)
      requires Own(St(), sb, owner) && f < |inodes| && j < NINDIRECT && inodes[f].addrs[NDIRECT] != 0
      requires Addr(disk, inodes[f], NDIRECT + 1 + j) == 0 ==> Room(sb, owner, 1)
      modifies this`disk, this`owner, this`logged
      ensures Own(St(), sb, owner) && Grown(old(St()), St(), sb, old(owner), owner, f)
      ensures var was := old(Addr(disk, inodes[f], NDIRECT + 1 + j));
              if was != 0 then addr == was && St() == old(St()) && owner == old(owner)
              else Filled(old(St()), St(), f, NDIRECT + 1 + j, addr)
                   && addr !in old(owner) && owner == old(owner)[addr := (f, NDIRECT + 1 + j)]
      ensures var was := old(Addr(disk, inodes[f], NDIRECT + 1 + j));
              Noted(sb, old(disk), disk, old(owner), owner, old(logged), logged,
                    if was != 0 then {} else {addr, inodes[f].addrs[NDIRECT]})
    {
      ghost var s := St();
      NotedNothing(sb, disk, owner, logged);
      IndirectBlock(s, sb, owner, f);
      var p := inodes[f].addrs[NDIRECT];
      var a := disk[p];
      addr := Word(a, j);
      if addr == 0 {
        addr := Balloc();
        StoreEntryKeepsOwn(s, sb, owner, f, j, addr);
        StoreEntryGrows(s, sb, owner, f, j, addr);
        AllocatedConfined(s.disk, sb, addr);
        disk := disk[p := PutWord(a, j, addr)];
        logged := logged + {p};
        NotedAlloc(s, sb, owner, addr, (f, NDIRECT + 1 + j), disk, old(logged), {p});
        assert {addr} + {p} == {addr, p};
        assert St() == StoredEntry(s, sb, f, j, addr);
        owner := owner[addr := (f, NDIRECT + 1 + j)];
      }
    }

    /** bmap() of a block that the indirect block names. */
    method BmapEntry(f: nat, bn: nat) returns (addr: int)
      requires Own(St(), sb, owner) && f < |inodes| && NDIRECT <= bn < MAXFILE
      requires Room(sb, owner, Missing(St(), f, bn))
      modifies this`disk, this`inodes, this`owner, this`logged
      ensures Own(St(), sb, owner) && Grown(old(St()), St(), sb, old(owner), owner, f)
      ensures Mapped(old(St()), St(), f, bn, addr)
      ensures |owner| == |old(owner)| + old(Missing(St(), f, bn))
      ensures old(Missing(St(), f, bn)) == 0 ==> St() == old(St()) && owner == old(owner) && logged == old(logged)
      ensures Noted(sb, old(disk), disk, old(owner), owner, old(logged), logged,
                    MapLogs(owner, f, bn, addr, old(Missing(St(), f, bn)) > 0))
    {
      hide Own, Grown, Bit, Noted, MapLogs, Addr;
      ghost var s, o, l := St(), owner, logged;
      OwnedIsBlock(s, sb, o, f, SlotOf(bn));
      OwnedIsBlock(s, sb, o, f, NDIRECT);
      var p := DirectSlot(f, NDIRECT);
      OwnedIsBlock(St(), sb, owner, f, NDIRECT);
      ghost var t, q, l1 := St(), owner, logged;
      addr := EntrySlot(f, bn - NDIRECT);
      OwnedIsBlock(St(), sb, owner, f, SlotOf(bn));
      OwnedIsBlock(St(), sb, owner, f, NDIRECT);
      GrownTwice(s, t, St(), sb, o, q, owner, f);
      EntryLogs(s, t, St(), sb, o, q, owner, l, l1, logged, f, bn, p, addr);
    }

    /** bmap(): the block of file block `bn`, allocated if need be. */
    method Bmap(f: nat, bn: nat) returns (addr: int)
      requires Own(St(), sb, owner) && f < |inodes| && bn < MAXFILE
      requires Room(sb, owner, Missing(St(), f, bn))
      modifies this`disk, this`inodes, this`owner, this`logged
      ensures Own(St(), sb, owner) && Grown(old(St()), St(), sb, old(owner), owner, f)
      ensures Mapped(old(St()), St(), f, bn, addr)
      ensures |owner| == |old(owner)| + old(Missing(St(), f, bn))
      ensures old(Missing(St(), f, bn)) == 0 ==> St() == old(St()) && owner == old(owner) && logged == old(logged)
      ensures Noted(sb, old(disk), disk, old(owner), owner, old(logged), logged,
                    MapLogs(owner, f, bn, addr, old(Missing(St(), f, bn)) > 0))
    {
      hide Own, Grown, Bit, Noted, MapLogs, Addr;
      ghost var s, o, l := St(), owner, logged;
      if bn >= NDIRECT {
        addr := BmapEntry(f, bn);
        return;
      }
      OwnedIsBlock(s, sb, o, f, bn);
      addr := DirectSlot(f, bn);
      OwnedIsBlock(St(), sb, owner, f, bn);
      DirectLogs(s, St(), sb, o, owner, l, logged, f, bn, addr);
    }

    method Iupdate(f: nat)
      requires f < |inodes| == |dinodes|
      modifies this`dinodes, this`updated
      ensures dinodes == old(dinodes)[f := inodes[f]] && updated == old(updated) + {f}
    {
      dinodes := dinodes[f := inodes[f]];
      updated := updated + {f};
    }

    /** readi(): the bytes from `off` on, at most `n`, or a failure. Nothing changes. */
    method Readi(f: nat, off: nat, n: nat) returns (ok: bool, dst: seq<int>)
      requires Valid() && f < |inodes| && off < WORD && n < WORD
      modifies this
      ensures disk == old(disk) && inodes == old(inodes) && dinodes == old(dinodes) && owner == old(owner)
      ensures logged == old(logged) && updated == old(updated)
      ensures ok <==> off <= inodes[f].size && off + n < WORD
      ensures ok ==> dst == Contents(St(), f)[off..Min(off + n, inodes[f].size)]
    {
      hide Own, Blocks, Missing, Grown, Mapped, ByteAt, FileOk, Room, Noted, MapLogs;
      dst := [];
      if off > inodes[f].size || (off + n) % WORD < off {
        return false, dst;
      }
      ok := true;
      var size := inodes[f].size;
      var todo := if off + n > size then size - off else n;
      var tot := 0;
      while tot < todo
        invariant 0 <= tot <= todo && |dst| == tot
        invariant disk == old(disk) && inodes == old(inodes) && dinodes == old(dinodes) && owner == old(owner)
        invariant logged == old(logged) && updated == old(updated)
        invariant dst == Contents(old(St()), f)[off..off + tot]
      {
        var pos := off + tot;
        ReadMissing(St(), f, pos);
        OwnerFits(St(), sb, owner);
        var addr := Bmap(f, pos / BSIZE);
        assert St() == old(St());
        var m := if todo - tot < BSIZE - pos % BSIZE then todo - tot else BSIZE - pos % BSIZE;
        ReadBytes(St(), sb, owner, f, pos, m, addr);
        dst := dst + disk[addr][pos % BSIZE..pos % BSIZE + m];
        SliceMore(Contents(St(), f), off, tot, m);
        tot := tot + m;
      }
    }

    /** One round of the loop of writei(), in a file whose bytes reach up to `len`. */
    method WriteBlock(f: nat, ghost len: nat, pos: nat, data: seq<int>)
      requires Own(St(), sb, owner) && f < |inodes| && pos <= len && 0 < |data| <= BSIZE - pos % BSIZE
      requires AreBytes(data) && pos + |data| <= MAXFILE * BSIZE && Blocks(St(), f, NBlocks(len))
      requires Room(sb, owner, Cost(NBlocks(Max(len, pos + |data|))) - Cost(NBlocks(len)))
      modifies this`disk, this`inodes, this`owner, this`logged
      ensures Own(St(), sb, owner) && Kept(old(St()), St(), sb, old(owner), owner, f)
      ensures |inodes| == |old(inodes)| && inodes[f].size == old(inodes[f].size)
      ensures Blocks(St(), f, NBlocks(Max(len, pos + |data|)))
      ensures NBlocks(Max(len, pos + |data|)) == NBlocks(len) ==> inodes == old(inodes)
      ensures Bytes(disk, inodes[f], Max(len, pos + |data|)) == Splice(old(Bytes(disk, inodes[f], len)), pos, data)
      ensures |owner| == |old(owner)| + Cost(NBlocks(Max(len, pos + |data|))) - Cost(NBlocks(len))
      ensures RoundNoted(sb, old(St()), St(), old(owner), owner, old(logged), logged, f, pos, |data|, len)
    {
      hide Own, Blocks, Missing, Bytes, Kept, Grown, Mapped, Noted, MapLogs, Addr;
      ghost var s, o, l, bn := St(), owner, logged, pos / BSIZE;
      WriteArith(len, pos, |data|);
      NextMissing(s, f, NBlocks(len), bn);
      var addr := Bmap(f, pos / BSIZE);
      ghost var t := St();
      MappedBlocks(s, t, f, NBlocks(len), bn, addr);
      MappedBytes(s, t, sb, o, owner, f, bn, addr, len);
      GrownKeeps(s, t, sb, o, owner, f);
      MappedAddr(s, t, f, bn, addr);
      WriteBytes(t, sb, owner, f, len, pos, data);
      var block := PutBytes(disk[addr], pos % BSIZE, data);
      DataBlock(t, sb, owner, addr);
      PutBytesBlock(disk[addr], pos % BSIZE, data);
      WriteKeepsOwn(t, sb, owner, f, bn, block);
      WriteAddr(t, sb, owner, f, bn, block, f, SlotOf(bn));
      ghost var l1 := logged;
      disk := disk[addr := block];
      logged := logged + {addr};
      NotedWrite(sb, t.disk, disk, owner, l1, addr);
      NotedTwice(sb, s.disk, t.disk, disk, o, owner, owner, l, l1, logged,
                 MapLogs(owner, f, bn, addr, Missing(s, f, bn) > 0), {addr});
      assert St() == BlockWritten(t, addr, block);
      KeptTwice(s, t, St(), sb, o, owner, owner, f);
    }

    /** The loop of writei(). */
    method WriteBlocks(f: nat, off: nat, src: seq<int>)
      requires Valid() && f < |inodes| && off <= inodes[f].size && off + |src| <= MAXFILE * BSIZE && AreBytes(src)
      requires Room(sb, owner, Cost(NBlocks(Max(inodes[f].size, off + |src|))) - Cost(NBlocks(inodes[f].size)))
      modifies this`disk, this`inodes, this`owner, this`logged
      ensures Own(St(), sb, owner) && Kept(old(St()), St(), sb, old(owner), owner, f)
      ensures inodes[f].size == old(inodes[f].size)
      ensures var len := Max(inodes[f].size, off + |src|);
              && Blocks(St(), f, NBlocks(len)) && (len == inodes[f].size ==> inodes == old(inodes))
              && Bytes(disk, inodes[f], len) == Splice(old(Contents(St(), f)), off, src)
              && |owner| == |old(owner)| + Cost(NBlocks(len)) - Cost(NBlocks(inodes[f].size))
              && WriteNoted(sb, old(St()), St(), old(owner), owner, old(logged), logged, f, off, |src|, inodes[f].size)
    {
      hide Own, Blocks, Kept, Bytes, FileOk, Splice, NBlocks, Cost, WriteNoted, RoundNoted, Room;
      ghost var s, o, l, size := St(), owner, logged, inodes[f].size;
      WriteStart(s, sb, o, f, off);
      NothingWritten(sb, s, o, l, f, off, size);
      var tot := 0;
      while tot < |src|
        invariant 0 <= tot <= |src| && |inodes| == |s.inodes|
        invariant Own(St(), sb, owner) && Kept(s, St(), sb, o, owner, f) && inodes[f].size == size
        invariant Blocks(St(), f, NBlocks(Max(size, off + tot)))
        invariant Max(size, off + tot) == size ==> inodes == s.inodes
        invariant Bytes(disk, inodes[f], Max(size, off + tot)) == Splice(Contents(s, f), off, src[..tot])
        invariant |owner| == |o| + Cost(NBlocks(Max(size, off + tot))) - Cost(NBlocks(size))
        invariant tot == 0 || tot == |src| || (off + tot) % BSIZE == 0
        invariant WriteNoted(sb, s, St(), o, owner, l, logged, f, off, tot, size)
      {
        var pos := off + tot;
        var m := if |src| - tot < BSIZE - pos % BSIZE then |src| - tot else BSIZE - pos % BSIZE;
        ghost var t, p, l1 := St(), owner, logged;
        RoomLeft(sb, o, owner, size, off, tot, m, |src|);
        WriteBlock(f, Max(size, pos), pos, src[tot..tot + m]);
        RoundLogs(s, t, St(), sb, o, p, owner, l, l1, logged, f, off, tot, m, size);
        KeptTwice(s, t, St(), sb, o, p, owner, f);
        SpliceNext(Contents(s, f), off, src, tot, m);
        RoundEnd(pos, m, |src| - tot);
        tot := tot + m;
      }
      assert src[..|src|] == src;
    }

    /** writei(): the file with `src` spliced in at `off`, or a failure. */
    method Writei(f: nat, off: nat, src: seq<int>) returns (r: int)
      requires Valid() && f < |inodes| && off < WORD && |src| < WORD && AreBytes(src)
      requires Writable(inodes[f].size, off, |src|) ==>
                 Room(sb, owner, Cost(NBlocks(Max(inodes[f].size, off + |src|))) - Cost(NBlocks(inodes[f].size)))
      modifies this
      ensures Valid() && |inodes| == |old(inodes)|
      ensures r == if Writable(old(inodes[f].size), off, |src|) then |src| else -1
      ensures r < 0 ==> St() == old(St()) && owner == old(owner) && logged == old(logged) && updated == old(updated)
      ensures r >= 0 ==>
                && inodes[f].size == Max(old(inodes[f].size), off + |src|)
                && WriteNoted(sb, old(St()), St(), old(owner), owner, old(logged), logged,
                              f, off, |src|, old(inodes[f].size))
                && updated == old(updated) + (if off + |src| > old(inodes[f].size) then {f} else {})
                && (forall g :: 0 <= g < |inodes| && g !in updated ==> inodes[g] == old(inodes[g]))
                && Contents(St(), f) == Splice(old(Contents(St(), f)), off, src)
                && |owner| == |old(owner)| + Cost(NBlocks(inodes[f].size)) - Cost(NBlocks(old(inodes[f].size)))
      ensures forall g :: 0 <= g < |inodes| && g != f ==> Contents(St(), g) == Contents(old(St()), g)
    {
      hide Own, Kept, Splice, Cost, NBlocks, Blocks, Bytes, WriteNoted, FileOk;
      if off > inodes[f].size || (off + |src|) % WORD < off {
        return -1;
      }
      if (off + |src|) % WORD > MAXFILE * BSIZE {
        return -1;
      }
      ghost var s, o := St(), owner;
      WriteBlocks(f, off, src);
      ghost var t := St();
      SizeFits(s, f);
      KeptInodes(s, t, sb, o, owner, f);
      if |src| > 0 && off + |src| > inodes[f].size {
        inodes := inodes[f := inodes[f].(size := off + |src|)];
        Iupdate(f);
      }
      WriteEnd(s, t, St(), sb, o, owner, f, off, |src|);
      SameNoted(sb, s, t, St(), o, owner, old(logged), logged, f, off, |src|, s.inodes[f].size);
      r := |src|;
    }

    /** One step of itrunc(): if slot `k` held a block, its bit is cleared. */
    method FreeBlock(b: int, ghost s: State, ghost f: nat, ghost i: nat, ghost j: nat, ghost direct: bool)
      requires Own(s, sb, owner) && f < |s.inodes| && i <= NDIRECT && j <= NINDIRECT && (direct || j < NINDIRECT)
      requires b == Addr(s.disk, s.inodes[f], if direct then i else NDIRECT + 1 + j)
      requires DiskOk(disk, sb) && Remaining(disk, sb, owner, f, i, j)
      modifies this`disk, this`logged
      ensures DiskOk(disk, sb)
      ensures if direct then Remaining(disk, sb, owner, f, i + 1, j) else Remaining(disk, sb, owner, f, i, j + 1)
      ensures SameData(old(disk), disk, sb)
      ensures logged == old(logged) + (if b != 0 then {MapBlock(sb, b)} else {}) && Confined(old(disk), disk, logged)
    {
      hide Remaining, Bit;
      RemainingStep(s, sb, owner, f, i, j, direct, disk);
      if b != 0 {
        WithBitOk(disk, sb, b, false);
        Bfree(b);
      }
    }

    /** itrunc()'s loop over the direct blocks. */
    method FreeDirect(f: nat)
      requires Own(St(), sb, owner) && f < |inodes|
      modifies this`disk, this`inodes, this`logged
      ensures DiskOk(disk, sb) && Remaining(disk, sb, owner, f, NDIRECT, 0) && SameData(old(disk), disk, sb)
      ensures Cleared(sb, old(disk), disk, owner, old(logged), logged, f, NDIRECT, 0)
      ensures |inodes| == |old(inodes)| && inodes == old(inodes)[f := inodes[f]] && |inodes[f].addrs| == NDIRECT + 1
      ensures inodes[f].addrs[NDIRECT] == old(inodes[f].addrs[NDIRECT])
      ensures forall k :: 0 <= k < NDIRECT ==> inodes[f].addrs[k] == 0
    {
      hide Own, Remaining, Addr, SameData, Cleared, Confined;
      ghost var s := St();
      TruncStart(s, sb, owner, f);
      ClearedNothing(sb, disk, owner, logged, f);
      var i := 0;
      while i < NDIRECT
        invariant 0 <= i <= NDIRECT && |inodes| == |s.inodes| && |inodes[f].addrs| == NDIRECT + 1
        invariant inodes == s.inodes[f := inodes[f]]
        invariant forall k :: 0 <= k <= NDIRECT ==> inodes[f].addrs[k] == if k < i then 0 else s.inodes[f].addrs[k]
        invariant DiskOk(disk, sb) && Remaining(disk, sb, owner, f, i, 0) && SameData(s.disk, disk, sb)
        invariant Cleared(sb, s.disk, disk, owner, old(logged), logged, f, i, 0)
      {
        DirectAddr(s, f, i);
        ghost var d, l := disk, logged;
        FreeBlock(inodes[f].addrs[i], s, f, i, 0, true);
        SameDataTwice(s.disk, d, disk, sb);
        ClearedMore(s, sb, d, disk, owner, old(logged), l, logged, f, i, 0, true);
        inodes := inodes[f := inodes[f].(addrs := inodes[f].addrs[i := 0])];
        i := i + 1;
      }
    }

    /** itrunc()'s handling of the indirect block, whose entries it leaves in place. */
    method FreeIndirect(f: nat, ghost s: State, ghost l0: set<int>)
      requires Own(s, sb, owner) && f < |s.inodes| && s.inodes[f].addrs[NDIRECT] != 0
      requires f < |inodes| && |inodes[f].addrs| == NDIRECT + 1
      requires inodes[f].addrs[NDIRECT] == s.inodes[f].addrs[NDIRECT]
      requires DiskOk(disk, sb) && Remaining(disk, sb, owner, f, NDIRECT, 0) && SameData(s.disk, disk, sb)
      requires Cleared(sb, s.disk, disk, owner, l0, logged, f, NDIRECT, 0)
      modifies this`disk, this`logged
      ensures DiskOk(disk, sb) && Remaining(disk, sb, owner, f, NDIRECT + 1, NINDIRECT) && SameData(s.disk, disk, sb)
      ensures Cleared(sb, s.disk, disk, owner, l0, logged, f, NDIRECT + 1, NINDIRECT)
    {
      hide Own, Remaining, Addr, SameData, Word, Cleared, Confined;
      var p := inodes[f].addrs[NDIRECT];
      IndirectData(s, sb, owner, f, disk);
      var a := disk[p];
      var j := 0;
      while j < NINDIRECT
        invariant 0 <= j <= NINDIRECT
        invariant DiskOk(disk, sb) && Remaining(disk, sb, owner, f, NDIRECT, j) && SameData(s.disk, disk, sb)
        invariant Cleared(sb, s.disk, disk, owner, l0, logged, f, NDIRECT, j)
      {
        EntryAddr(s, sb, owner, f, j);
        ghost var d, l := disk, logged;
        FreeBlock(Word(a, j), s, f, NDIRECT, j, false);
        SameDataTwice(s.disk, d, disk, sb);
        ClearedMore(s, sb, d, disk, owner, l0, l, logged, f, NDIRECT, j, false);
        j := j + 1;
      }
      DirectAddr(s, f, NDIRECT);
      ghost var d, l := disk, logged;
      FreeBlock(p, s, f, NDIRECT, NINDIRECT, true);
      SameDataTwice(s.disk, d, disk, sb);
      ClearedMore(s, sb, d, disk, owner, l0, l, logged, f, NDIRECT, NINDIRECT, true);
    }

    /** itrunc(): the file is empty, its blocks are free, and nothing else changed. */
    method Itrunc(f: nat)
      requires Valid() && f < |inodes|
      modifies this
      ensures Valid() && inodes == old(inodes)[f := Inode(0, Zeros(NDIRECT + 1))]
      ensures owner == Without(old(owner), f) && Contents(St(), f) == []
      ensures logged == old(logged) + Maps(sb, HeldBy(old(owner), f)) && Confined(old(disk), disk, logged)
      ensures updated == old(updated) + {f}
      ensures forall g :: 0 <= g < |inodes| && g != f ==> Contents(St(), g) == Contents(old(St()), g)
    {
      hide Own, Remaining, Addr, SameData, FileOk, Bytes, Cleared, Confined;
      ghost var s, l := St(), logged;
      FreeDirect(f);
      if inodes[f].addrs[NDIRECT] != 0 {
        FreeIndirect(f, s, l);
        inodes := inodes[f := inodes[f].(addrs := inodes[f].addrs[NDIRECT := 0])];
      } else {
        NoIndirect(s, sb, owner, f, disk);
        NoIndirectCleared(s, sb, disk, owner, l, logged, f);
      }
      AllCleared(s, sb, disk, owner, l, logged, f);
      inodes := inodes[f := inodes[f].(size := 0)];
      Iupdate(f);
      ZeroAddrs(inodes[f].addrs);
      assert inodes == s.inodes[f := Inode(0, Zeros(NDIRECT + 1))];
      TruncEnd(s, sb, owner, f, disk);
      owner := Without(owner, f);
    }

    /** filewrite() on an inode, `off` being the offset of the open file. A write that does
        not fit stops after the last whole chunk that does. */
    method FileWrite(f: nat, off0: nat, src: seq<int>) returns (r: int, off: nat)
      requires Valid() && f < |inodes| && off0 + |src| < WORD && AreBytes(src)
      requires off0 <= inodes[f].size ==>
                 var end := Max(inodes[f].size, Min(off0 + |src|, MAXFILE * BSIZE));
                 Room(sb, owner, Cost(NBlocks(end)) - Cost(NBlocks(inodes[f].size)))
      modifies this
      ensures Valid() && |inodes| == |old(inodes)|
      ensures r == |src| <==> src == [] || Writable(old(inodes[f].size), off0, |src|)
      ensures r == |src| || r == -1
      ensures off0 <= off <= off0 + |src| && (r == |src| ==> off == off0 + |src|)
      ensures r < 0 ==>
                (off - off0) % CHUNK == 0
                    && (off0 <= old(inodes[f].size) ==> off + Min(CHUNK, off0 + |src| - off) > MAXFILE * BSIZE)
      ensures off0 <= old(inodes[f].size) ==>
                Contents(St(), f) == Splice(old(Contents(St(), f)), off0, src[..off - off0])
      ensures off0 > old(inodes[f].size) ==> St() == old(St())
      ensures forall g :: 0 <= g < |inodes| && g != f ==> Contents(St(), g) == Contents(old(St()), g)
    {
      hide Own, Cost, NBlocks, FileOk, Splice, Bytes, WriteNoted;
      ghost var s, o, size := St(), owner, inodes[f].size;
      ghost var goal := Max(size, Min(off0 + |src|, MAXFILE * BSIZE));
      SizeFits(s, f);
      off := off0;
      var i := 0;
      if off0 <= size { WriteStart(s, sb, o, f, off0); }
      while i < |src|
        invariant Valid() && |inodes| == |s.inodes| && 0 <= i <= |src| && off == off0 + i
        invariant i % CHUNK == 0 || i == |src|
        invariant off0 <= size ==> off <= inodes[f].size && inodes[f].size == Max(size, off) && off <= MAXFILE * BSIZE
        invariant off0 <= size ==> Contents(St(), f) == Splice(Contents(s, f), off0, src[..i])
        invariant off0 <= size ==> |owner| == |o| + Cost(NBlocks(inodes[f].size)) - Cost(NBlocks(size))
        invariant off0 > size ==> St() == s && i == 0
        invariant forall g :: 0 <= g < |inodes| && g != f ==> Contents(St(), g) == Contents(s, g)
      {
        var n1 := if |src| - i > CHUNK then CHUNK else |src| - i;
        if Writable(inodes[f].size, off, n1) {
          CostMono(Max(inodes[f].size, off + n1), goal);
        }
        ghost var c := Contents(St(), f);
        r := Writei(f, off, src[i..i + n1]);
        if r > 0 { off := off + r; }
        if r < 0 { break; }
        assert r == n1;   // no panic
        SpliceSplice(Contents(s, f), off0, src[..i], src[i..i + n1]);
        assert src[..i] + src[i..i + n1] == src[..i + n1];
        i := i + r;
      }
      r := if i == |src| then |src| else -1;
    }
  }
}
