/** How a file system lies on the disk of the log: data, bitmap and indirect blocks as words,
inodes eight to a block. Also what a transaction makes of an image. */
module FsImage {

  import opened Basics
  import L = LogDisk
  import opened DiskLayout
  import opened Fs

  /** Where mkfs puts things: the log, then the inodes, then the bitmap and the data. */
  datatype Layout = Layout(sb: Super, inodestart: nat, ninodes: nat)

  const IPB := 8             // inodes per block
  const INODE_WORDS := 16    // type and major; minor and nlink; size; 13 addresses

  predicate Placed(l: Layout, g: L.Geometry) {
    && SuperOk(l.sb) && l.sb.size < WORD && g.size > 0
    && g.start + g.size <= l.inodestart && l.inodestart + (l.ninodes + IPB - 1) / IPB <= l.sb.bmapstart
  }

  // ------------------------------------------------------------ words and bytes

  function Digit(w: int, i: nat): int
    decreases i
  {
    if i == 0 then w % 256 else Digit(w / 256, i - 1)
  }

  function BytesOf(b: L.Block): (r: seq<int>)
    ensures |r| == BSIZE
  {
    seq(BSIZE, k requires 0 <= k < BSIZE => if k / 4 < |b.words| then Digit(b.words[k / 4], k % 4) else 0)
  }

  function WordsOf(x: seq<int>): (b: L.Block)
    requires |x| == BSIZE
    ensures |b.words| == L.BLOCK_WORDS
  {
    L.Block(seq(L.BLOCK_WORDS, j requires 0 <= j < L.BLOCK_WORDS => Word(x, j)))
  }

  lemma DigitOfWord(a: int, b: int, c: int, d: int)
    requires IsByte(a) && IsByte(b) && IsByte(c) && IsByte(d)
    ensures var w := a + 256 * (b + 256 * (c + 256 * d));
            Digit(w, 0) == a && Digit(w, 1) == b && Digit(w, 2) == c && Digit(w, 3) == d
  {
    var w := a + 256 * (b + 256 * (c + 256 * d));
    assert w / 256 == b + 256 * (c + 256 * d);
    assert w / 256 / 256 == c + 256 * d;
    assert w / 256 / 256 / 256 == d;
    assert Digit(w, 1) == Digit(w / 256, 0);
    assert Digit(w, 2) == Digit(w / 256, 1) == Digit(w / 256 / 256, 0);
    assert Digit(w, 3) == Digit(w / 256, 2) == Digit(w / 256 / 256, 1) == Digit(w / 256 / 256 / 256, 0);
  }

  lemma BytesOfWords(x: seq<int>)
    requires IsBlock(x)
    ensures BytesOf(WordsOf(x)) == x
  {
    forall k | 0 <= k < BSIZE ensures BytesOf(WordsOf(x))[k] == x[k] {
      var j := k / 4;
      DigitOfWord(x[4 * j], x[4 * j + 1], x[4 * j + 2], x[4 * j + 3]);
      hide Digit;
      assert k == 4 * j + k % 4;
    }
  }

  // ------------------------------------------------------------ reading a disk

  function InodeAt(d: L.Disk, l: Layout, i: nat): Inode {
    var b, w := l.inodestart + i / IPB, i % IPB * INODE_WORDS;
    if b < |d| && |d[b].words| == L.BLOCK_WORDS
    then Inode(if d[b].words[w + 2] < 0 then 0 else d[b].words[w + 2], d[b].words[w + 3..w + 16])
    else Inode(0, Zeros(NDIRECT + 1))
  }

  /** The file system on a disk. */
  function FsOf(d: L.Disk, l: Layout): State {
    State(seq(|d|, b requires 0 <= b < |d| => BytesOf(d[b])),
          seq(l.ninodes, i requires 0 <= i < l.ninodes => InodeAt(d, l, i)))
  }

  /** The disk holds the file system `s`: its inodes, its bitmap and its data. */
  ghost predicate Shows(d: L.Disk, l: Layout, s: State) {
    && |d| == |s.disk| && FsOf(d, l).inodes == s.inodes
    && forall y :: l.sb.bmapstart <= y < |d| ==> BytesOf(d[y]) == s.disk[y]
  }

  /** What the disk shows is a matter of the blocks outside the log. */
  lemma HomeDecides(d: L.Disk, e: L.Disk, l: Layout, g: L.Geometry, s: State)
    requires L.SameHome(g, d, e) && Placed(l, g)
    ensures Shows(d, l, s) <==> Shows(e, l, s)
  {
    forall i | 0 <= i < l.ninodes ensures InodeAt(e, l, i) == InodeAt(d, l, i) {
      assert !L.InLog(g, l.inodestart + i / IPB);
    }
    assert FsOf(e, l).inodes == FsOf(d, l).inodes;
    forall y | l.sb.bmapstart <= y < |d| ensures e[y] == d[y] { assert !L.InLog(g, y); }
  }

  /** The file system read back from a disk has the owners and files of the one it holds. */
  lemma ReadBack(d: L.Disk, l: Layout, s: State, owner: Owner)
    requires Shows(d, l, s) && Own(s, l.sb, owner) && forall f :: 0 <= f < |s.inodes| ==> FileOk(s, f)
    requires forall b :: 0 <= b < |d| ==> IsBlock(BytesOf(d[b]))
    ensures var s' := FsOf(d, l);
            && Own(s', l.sb, owner)
            && (forall f :: 0 <= f < |s'.inodes| ==>
                  f < |s.inodes| && FileOk(s', f) && Contents(s', f) == Contents(s, f))
  {
    var s', sb, none := FsOf(d, l), l.sb, |s.inodes|;
    forall b | b in owner ensures sb.datastart <= b < sb.size { assert BlockOk(s, sb, owner, b); }
    assert Kept(s, s', sb, owner, owner, none);
    hide Addr, Bit, FsOf, Contents;
    forall f, i | 0 <= f < |s'.inodes| && 0 <= i < NSLOTS ensures SlotOk(s', owner, f, i) {
      assert SlotOk(s, owner, f, i);
      KeptAddr(s, s', sb, owner, owner, none, f, i);
    }
    forall b | b in owner ensures BlockOk(s', sb, owner, b) {
      assert BlockOk(s, sb, owner, b);
      KeptAddr(s, s', sb, owner, owner, none, owner[b].0, owner[b].1);
    }
    forall b | 0 <= b < sb.size ensures BitOk(s', sb, owner, b) {
      assert BitOk(s, sb, owner, b);
      BitFrame(s.disk, s'.disk, sb, b);
    }
    forall f | 0 <= f < |s'.inodes| ensures FileOk(s', f) && Contents(s', f) == Contents(s, f) {
      OthersKept(s, s', sb, owner, owner, none, f);
    }
  }

  lemma {:induction false} DigitIsByte(w: int, i: nat)
    ensures IsByte(Digit(w, i))
    decreases i
  {
    if i > 0 { DigitIsByte(w / 256, i - 1); }
  }

  lemma BytesAreBytes(b: L.Block)
    ensures IsBlock(BytesOf(b))
  {
    hide Digit;
    forall k | 0 <= k < BSIZE ensures IsByte(BytesOf(b)[k]) {
      if k / 4 < |b.words| { DigitIsByte(b.words[k / 4], k % 4); }
    }
  }

  // ------------------------------------------------------------ writing a disk

  function InodeWord(ino: Inode, k: nat): int
    requires |ino.addrs| == NDIRECT + 1 && 2 <= k < INODE_WORDS
  {
    if k == 2 then ino.size else ino.addrs[k - 3]
  }

  predicate InodesOk(inodes: seq<Inode>) {
    forall f :: 0 <= f < |inodes| ==> |inodes[f].addrs| == NDIRECT + 1
  }

  /** iupdate() of the inodes from `first` on: type and link count stay as they are. */
  function InodeBlock(b: L.Block, inodes: seq<Inode>, first: nat): (r: L.Block)
    requires |b.words| == L.BLOCK_WORDS && InodesOk(inodes)
    ensures |r.words| == L.BLOCK_WORDS
  {
    L.Block(seq(L.BLOCK_WORDS, w requires 0 <= w < L.BLOCK_WORDS =>
      var i := first + w / INODE_WORDS;
      if w % INODE_WORDS >= 2 && i < |inodes| then InodeWord(inodes[i], w % INODE_WORDS) else b.words[w]))
  }

  predicate Encodable(d: L.Disk, l: Layout, s: State) {
    && |d| == l.sb.size && |s.inodes| == l.ninodes && InodesOk(s.inodes) && DiskOk(s.disk, l.sb)
    && l.inodestart + (l.ninodes + IPB - 1) / IPB <= l.sb.bmapstart <= |d|
    && forall k :: l.inodestart <= k < l.sb.bmapstart ==> |d[k].words| == L.BLOCK_WORDS
  }

  /** The disk `d` with the file system `s` in place of the one on it. */
  function Encode(d: L.Disk, l: Layout, s: State): (e: L.Disk)
    requires Encodable(d, l, s)
    ensures |e| == |d|
  {
    seq(|d|, k requires 0 <= k < |d| =>
      if k >= l.sb.bmapstart then WordsOf(s.disk[k])
      else if k >= l.inodestart then InodeBlock(d[k], s.inodes, (k - l.inodestart) * IPB)
      else d[k])
  }

  lemma EncodedInode(d: L.Disk, l: Layout, s: State, i: nat)
    requires Encodable(d, l, s) && i < l.ninodes
    ensures InodeAt(Encode(d, l, s), l, i) == s.inodes[i]
  {
    var b, w := l.inodestart + i / IPB, i % IPB * INODE_WORDS;
    var block := InodeBlock(d[b], s.inodes, i / IPB * IPB);
    assert Encode(d, l, s)[b] == block;
    hide Encode, Writable;
    forall k: nat | 2 <= k < INODE_WORDS ensures block.words[w + k] == InodeWord(s.inodes[i], k) {
      assert (w + k) / INODE_WORDS == i % IPB && (w + k) % INODE_WORDS == k;
    }
    forall j | 0 <= j < NDIRECT + 1 ensures block.words[w + 3..w + 16][j] == s.inodes[i].addrs[j] {
      assert block.words[w + (3 + j)] == InodeWord(s.inodes[i], 3 + j);
    }
    assert block.words[w + 3..w + 16] == s.inodes[i].addrs;
  }

  /** What is written is read back. */
  lemma EncodeShows(d: L.Disk, l: Layout, s: State)
    requires Encodable(d, l, s)
    ensures Shows(Encode(d, l, s), l, s)
    ensures forall k :: 0 <= k < |d| && k < l.inodestart ==> Encode(d, l, s)[k] == d[k]
    ensures forall k :: l.inodestart <= k < l.sb.bmapstart ==> |Encode(d, l, s)[k].words| == L.BLOCK_WORDS
  {
    var e := Encode(d, l, s);
    forall i | 0 <= i < l.ninodes ensures FsOf(e, l).inodes[i] == s.inodes[i] { EncodedInode(d, l, s, i); }
    forall y | l.sb.bmapstart <= y < |d| ensures BytesOf(e[y]) == s.disk[y] {
      BytesOfWords(s.disk[y]);
    }
  }

  // ------------------------------------------------------------ the transaction

  function Picked(e: L.Disk, es: seq<int>): (cs: seq<L.Block>)
    requires forall t :: 0 <= t < |es| ==> 0 <= es[t] < |e|
    ensures |cs| == |es|
  {
    seq(|es|, t requires 0 <= t < |es| => e[es[t]])
  }

  lemma {:induction false} StoredAt(d: L.Disk, e: L.Disk, es: seq<int>, j: nat, k: nat)
    requires |d| == |e| && j <= |es| && k < |d| && forall t :: 0 <= t < |es| ==> 0 <= es[t] < |d|
    ensures L.Stored(d, es, Picked(e, es), j)[k] == if k in es[..j] then e[k] else d[k]
  {
    if j > 0 {
      StoredAt(d, e, es, j - 1, k);
      assert es[..j] == es[..j - 1] + [es[j - 1]];
    }
  }

  lemma AppliedAt(d: L.Disk, e: L.Disk, es: seq<int>, k: nat)
    requires |d| == |e| && k < |d| && forall t :: 0 <= t < |es| ==> 0 <= es[t] < |d|
    ensures L.Applied(d, es, Picked(e, es))[k] == if k in es then e[k] else d[k]
  {
    StoredAt(d, e, es, |es|, k);
    assert es[..|es|] == es;
  }

  /** The blocks of inodes. */
  function InodeBlocks(l: Layout, us: set<nat>): set<int> {
    set u | u in us :: l.inodestart + u / IPB
  }

  /** From `s` to `t` only blocks in `logged` and inodes in `updated` change. */
  ghost predicate OnlyThese(l: Layout, s: State, t: State, logged: set<int>, updated: set<nat>) {
    && |t.disk| == |s.disk| && |t.inodes| == |s.inodes| == l.ninodes
    && (forall y :: l.sb.bmapstart <= y < |s.disk| && y !in logged ==> t.disk[y] == s.disk[y])
    && (forall f :: 0 <= f < l.ninodes && f !in updated ==> t.inodes[f] == s.inodes[f])
  }

  /** Storing the blocks that a call has logged turns the image before it into the one after. */
  lemma PatchShows(d: L.Disk, l: Layout, s: State, t: State, es: seq<int>, logged: set<int>, updated: set<nat>)
    requires Shows(d, l, s) && Encodable(d, l, t) && OnlyThese(l, s, t, logged, updated)
    requires forall i :: 0 <= i < |es| ==> 0 <= es[i] < |d|
    requires forall k :: k in logged || k in InodeBlocks(l, updated) ==> k in es
    ensures var x := L.Applied(d, es, Picked(Encode(d, l, t), es));
            && |x| == |d| && Shows(x, l, t)
            && (forall k :: l.inodestart <= k < l.sb.bmapstart ==> |x[k].words| == L.BLOCK_WORDS)
  {
    var e := Encode(d, l, t);
    var x := L.Applied(d, es, Picked(e, es));
    EncodeShows(d, l, t);
    forall k: nat | k < |d| ensures x[k] == if k in es then e[k] else d[k] { AppliedAt(d, e, es, k); }
    hide Encode, L.Applied, Picked;
    forall f | 0 <= f < l.ninodes ensures FsOf(x, l).inodes[f] == t.inodes[f] {
      PatchInode(d, e, x, l, s, t, es, updated, f);
    }
    assert FsOf(x, l).inodes == t.inodes;
    forall y | l.sb.bmapstart <= y < |d| ensures BytesOf(x[y]) == t.disk[y] {}
  }

  lemma PatchInode(d: L.Disk, e: L.Disk, x: L.Disk, l: Layout, s: State, t: State, es: seq<int>, updated: set<nat>,
                   f: nat)
    requires |x| == |d| == |e| && f < l.ninodes && FsOf(d, l).inodes == s.inodes && FsOf(e, l).inodes == t.inodes
    requires forall k: nat :: k < |d| ==> x[k] == if k in es then e[k] else d[k]
    requires forall k :: k in InodeBlocks(l, updated) ==> k in es
    requires f !in updated ==> t.inodes[f] == s.inodes[f]
    ensures InodeAt(x, l, f) == t.inodes[f]
  {
    var k := l.inodestart + f / IPB;
    assert InodeAt(d, l, f) == FsOf(d, l).inodes[f] && InodeAt(e, l, f) == FsOf(e, l).inodes[f];
    if f in updated { assert k in InodeBlocks(l, updated); }
  }
}
