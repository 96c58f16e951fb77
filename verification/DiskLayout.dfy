/** How the file system lays bits and block numbers out in the bytes of disk blocks: the
free bitmap of fs.c and the words of an indirect block. */
module DiskLayout {

  import opened Basics

  const BSIZE := 512
  const BPB := 4096   // bitmap bits per block

  type Disk = seq<seq<int>>

  /** The superblock: `size` blocks in all; the bitmap, then the data blocks. */
  datatype Super = Super(size: nat, bmapstart: nat, datastart: nat)

  /** As mkfs lays it out. */
  predicate SuperOk(sb: Super) {
    sb.bmapstart > 0 && sb.datastart == sb.bmapstart + sb.size / BPB + 1 && sb.datastart <= sb.size
  }

  predicate IsByte(x: int) {
    0 <= x < 256
  }

  predicate AreBytes(s: seq<int>) {
    forall k :: 0 <= k < |s| ==> IsByte(s[k])
  }

  predicate IsBlock(s: seq<int>) {
    |s| == BSIZE && AreBytes(s)
  }

  predicate DiskOk(d: Disk, sb: Super) {
    |d| == sb.size && forall b :: 0 <= b < |d| ==> IsBlock(d[b])
  }

  // ------------------------------------------------------------ bits of a byte

  /** (x & (1 << k)) != 0 */
  predicate BitOf(x: int, k: nat)
    decreases k
  {
    if k == 0 then x % 2 == 1 else BitOf(x / 2, k - 1)
  }

  /** x | (1 << k), or x & ~(1 << k) */
  function WithBitOf(x: int, k: nat, v: bool): int
    decreases k
  {
    if k == 0 then x / 2 * 2 + (if v then 1 else 0) else WithBitOf(x / 2, k - 1, v) * 2 + x % 2
  }

  lemma {:induction false} BitOfWith(x: int, k: nat, v: bool, j: nat)
    ensures BitOf(WithBitOf(x, k, v), j) == if j == k then v else BitOf(x, j)
    decreases k
  {
    if k > 0 && j > 0 { BitOfWith(x / 2, k - 1, v, j - 1); }
  }

  /** A bit set or cleared in a byte leaves a byte. */
  lemma {:induction false} WithBitOfRange(x: int, k: nat, v: bool, n: nat)
    requires k < n && 0 <= x < Power2(n)
    ensures 0 <= WithBitOf(x, k, v) < Power2(n)
    decreases k
  {
    var half := Power2(n - 1);
    assert Power2(n) == 2 * half;
    hide Power2;
    assert 0 <= x / 2 < half;
    if k > 0 { WithBitOfRange(x / 2, k - 1, v, n - 1); }
  }

  function Power2(n: nat): nat {
    if n == 0 then 1 else 2 * Power2(n - 1)
  }

  lemma {:induction false} ZeroBit(k: nat)
    ensures !BitOf(0, k)
  {
    if k > 0 { ZeroBit(k - 1); }
  }

  // ------------------------------------------------------------ the bitmap

  /** The bitmap bit of block `b`. */
  predicate Bit(d: Disk, sb: Super, b: nat) {
    SuperOk(sb) && DiskOk(d, sb) && b < sb.size
    && BitOf(d[sb.bmapstart + b / BPB][b % BPB / 8], b % 8)
  }

  function WithBit(d: Disk, sb: Super, b: nat, v: bool): Disk
    requires SuperOk(sb) && DiskOk(d, sb) && b < sb.size
  {
    var y := sb.bmapstart + b / BPB;
    var byte := b % BPB / 8;
    d[y := d[y][byte := WithBitOf(d[y][byte], b % 8, v)]]
  }

  lemma WithBitOk(d: Disk, sb: Super, b: nat, v: bool)
    requires SuperOk(sb) && DiskOk(d, sb) && b < sb.size
    ensures DiskOk(WithBit(d, sb, b, v), sb)
    ensures forall y :: sb.datastart <= y < sb.size ==> WithBit(d, sb, b, v)[y] == d[y]
  {
    var y, byte := sb.bmapstart + b / BPB, b % BPB / 8;
    assert IsBlock(d[y]) && IsByte(d[y][byte]);
    WithBitOfRange(d[y][byte], b % 8, v, 8);
    assert Power2(8) == 256;
  }

  /** Marking one block changes no other block's bit. */
  lemma BitWith(d: Disk, sb: Super, b: nat, v: bool, c: nat)
    requires SuperOk(sb) && DiskOk(d, sb) && b < sb.size && c < sb.size
    ensures Bit(WithBit(d, sb, b, v), sb, c) == if c == b then v else Bit(d, sb, c)
  {
    WithBitOk(d, sb, b, v);
    var y, byte := sb.bmapstart + b / BPB, b % BPB / 8;
    if c / BPB == b / BPB && c % BPB / 8 == byte {
      BitOfWith(d[y][byte], b % 8, v, c % 8);
      SameBit(b, c);
    }
  }

  lemma SameBit(b: nat, c: nat)
    requires b / BPB == c / BPB && b % BPB / 8 == c % BPB / 8
    ensures b % 8 == c % 8 <==> b == c
  {
    assert b % 8 == b % BPB % 8 && c % 8 == c % BPB % 8;
  }

  /** Data blocks hold no bitmap. */
  lemma BitFrame(d: Disk, d': Disk, sb: Super, b: nat)
    requires SuperOk(sb) && DiskOk(d, sb) && DiskOk(d', sb) && b < sb.size
    requires forall y :: sb.bmapstart <= y < sb.datastart ==> d'[y] == d[y]
    ensures Bit(d', sb, b) == Bit(d, sb, b)
  {
  }

  // ------------------------------------------------------------ the words of a block

  const WORD := 0x1_0000_0000

  /** Word `j`, least significant byte first. */
  function Word(block: seq<int>, j: nat): int
    requires |block| == BSIZE && j < BSIZE / 4
  {
    block[4 * j] + 256 * (block[4 * j + 1] + 256 * (block[4 * j + 2] + 256 * block[4 * j + 3]))
  }

  function PutWord(block: seq<int>, j: nat, v: nat): seq<int>
    requires |block| == BSIZE && j < BSIZE / 4
  {
    var low := block[4 * j := v % 256][4 * j + 1 := v / 256 % 256];
    low[4 * j + 2 := v / 256 / 256 % 256][4 * j + 3 := v / 256 / 256 / 256 % 256]
  }

  lemma WordPut(block: seq<int>, j: nat, v: nat, i: nat)
    requires |block| == BSIZE && j < BSIZE / 4 && i < BSIZE / 4 && v < WORD
    ensures |PutWord(block, j, v)| == BSIZE && (AreBytes(block) ==> AreBytes(PutWord(block, j, v)))
    ensures Word(PutWord(block, j, v), i) == if i == j then v else Word(block, i)
  {
    if i == j {
      assert v / 256 / 256 / 256 < 256;
    }
  }

  lemma ZeroBlock()
    ensures IsBlock(Zeros(BSIZE))
  {
    forall k | 0 <= k < BSIZE ensures IsByte(Zeros(BSIZE)[k]) { ZerosAt(BSIZE, k); }
  }

  lemma ZeroWord(j: nat)
    requires j < BSIZE / 4
    ensures Word(Zeros(BSIZE), j) == 0
  {
    ZerosAt(BSIZE, 4 * j);
    ZerosAt(BSIZE, 4 * j + 1);
    ZerosAt(BSIZE, 4 * j + 2);
    ZerosAt(BSIZE, 4 * j + 3);
  }
}
