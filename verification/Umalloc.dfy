/** The user heap of umalloc.c: the circular, address-ordered, coalescing free list of
section 8.7 of The C Programming Language, second edition.

Addresses count Header units of eight bytes. `ptr` and `size` are the memory the allocator
reads and writes: the two words of each header. */
module Umalloc {

  import opened Basics

  const HEADER_BYTES := 8
  const MIN_CORE := 4096
  const UINT := 0x1_0000_0000

  // ------------------------------------------------------------ tiling

  /** `blocks` (address to length) cut the memory `core` into pieces: every unit lies in
      exactly one of them. */
  ghost predicate Tiling(blocks: map<nat, nat>, core: set<nat>) {
    && (forall a :: a in blocks ==> blocks[a] > 0)
    && (forall a, b :: a in blocks && b in blocks && a < b ==> a + blocks[a] <= b)
    && (forall a, x :: a in blocks && In(x, a, blocks[a]) ==> x in core)
    && (forall x :: x in core ==> Covered(blocks, x))
  }

  ghost predicate Covered(blocks: map<nat, nat>, x: nat) {
    exists a :: a in blocks && In(x, a, blocks[a])
  }

  ghost function Merged(blocks: map<nat, nat>, a: nat, b: nat): map<nat, nat>
    requires a in blocks && b in blocks
  {
    (blocks - {b})[a := blocks[a] + blocks[b]]
  }

  ghost function Split(blocks: map<nat, nat>, a: nat, tail: nat): map<nat, nat>
    requires a in blocks && tail < blocks[a]
  {
    blocks[a := blocks[a] - tail][a + blocks[a] - tail := tail]
  }

  predicate In(x: nat, a: nat, n: nat) {
    a <= x < a + n
  }

  ghost function Span(a: nat, n: nat): (s: set<nat>)
    ensures forall x :: x in s <==> In(x, a, n)
  {
    if n == 0 then {} else Span(a, n - 1) + {a + n - 1}
  }

  lemma MergeCovers(blocks: map<nat, nat>, a: nat, b: nat, x: nat)
    requires a in blocks && b in blocks && a + blocks[a] == b && a != b && Covered(blocks, x)
    ensures Covered(Merged(blocks, a, b), x)
  {
    var m := Merged(blocks, a, b);
    var c :| c in blocks && In(x, c, blocks[c]);
    if c == b { assert In(x, a, m[a]); } else { assert In(x, c, m[c]); }
  }

  lemma MergeTiling(blocks: map<nat, nat>, core: set<nat>, a: nat, b: nat)
    requires Tiling(blocks, core) && a in blocks && b in blocks && a + blocks[a] == b
    ensures Tiling(Merged(blocks, a, b), core)
  {
    hide Covered;
    var m := Merged(blocks, a, b);
    forall x | x in core ensures Covered(m, x) {
      MergeCovers(blocks, a, b, x);
    }
    forall c, x: nat | c in m && In(x, c, m[c]) ensures x in core {
      if c == a && x >= b { assert In(x, b, blocks[b]); } else { assert In(x, c, blocks[c]); }
    }
  }

  lemma SplitCovers(blocks: map<nat, nat>, a: nat, tail: nat, x: nat)
    requires a in blocks && 0 < tail < blocks[a] && Covered(blocks, x) && a + blocks[a] - tail !in blocks
    ensures Covered(Split(blocks, a, tail), x)
  {
    var m, t := Split(blocks, a, tail), a + blocks[a] - tail;
    var c :| c in blocks && In(x, c, blocks[c]);
    if c == a && x >= t { assert In(x, t, m[t]); } else { assert In(x, c, m[c]); }
  }

  lemma SplitTiling(blocks: map<nat, nat>, core: set<nat>, a: nat, tail: nat)
    requires Tiling(blocks, core) && a in blocks && 0 < tail < blocks[a]
    ensures Tiling(Split(blocks, a, tail), core)
    ensures a + blocks[a] - tail !in blocks
  {
    hide Covered;
    var m, t := Split(blocks, a, tail), a + blocks[a] - tail;
    forall x | x in core ensures Covered(m, x) {
      SplitCovers(blocks, a, tail, x);
    }
    forall c, x: nat | c in m && In(x, c, m[c]) ensures x in core {
      if c == t { assert In(x, a, blocks[a]); } else { assert In(x, c, blocks[c]); }
    }
  }

  lemma GrowCovers(blocks: map<nat, nat>, a: nat, n: nat, x: nat)
    requires a !in blocks && (Covered(blocks, x) || In(x, a, n))
    ensures Covered(blocks[a := n], x)
  {
    var m := blocks[a := n];
    if In(x, a, n) {
      assert In(x, a, m[a]);
    } else {
      var b :| b in blocks && In(x, b, blocks[b]);
      assert In(x, b, m[b]);
    }
  }

  lemma GrowTiling(blocks: map<nat, nat>, core: set<nat>, a: nat, n: nat)
    requires Tiling(blocks, core) && n > 0 && Span(a, n) !! core
    ensures Tiling(blocks[a := n], core + Span(a, n)) && a !in blocks
  {
    hide Covered;
    assert a in Span(a, n);
    forall b | b in blocks ensures b + blocks[b] <= a || a + n <= b {
      assert In(b, b, blocks[b]) && b !in Span(a, n);
      assert In(a, b, blocks[b]) ==> a in core;
    }
    forall x | x in core + Span(a, n) ensures Covered(blocks[a := n], x) {
      GrowCovers(blocks, a, n, x);
    }
  }

  // ------------------------------------------------------------ the ring

  /** A word of memory; one never written reads as anything, here 0. */
  function At(m: map<nat, nat>, a: nat): nat {
    if a in m then m[a] else 0
  }

  /** Index of the successor in a ring of `n`. */
  ghost function Succ(i: nat, n: nat): nat {
    if i + 1 < n then i + 1 else 0
  }

  /** The ptr words lead once around `ring`. */
  ghost predicate Linked(ptr: map<nat, nat>, ring: seq<nat>) {
    forall i {:trigger At(ptr, ring[i])} :: 0 <= i < |ring| ==> At(ptr, ring[i]) == ring[Succ(i, |ring|)]
  }

  /** The ring runs in address order, so it wraps in one place only, and its blocks do
      not overlap. */
  ghost predicate Ordered(size: map<nat, nat>, ring: seq<nat>) {
    forall i, j :: 0 <= i < j < |ring| ==> ring[i] < ring[j] && ring[i] + At(size, ring[i]) <= ring[j]
  }

  /** Ring members `i` and `i + 1` do not touch. */
  ghost predicate Gap(size: map<nat, nat>, ring: seq<nat>, i: nat)
    requires i + 1 < |ring|
  {
    ring[i] + At(size, ring[i]) < ring[i + 1]
  }

  /** No two neighbours touch, except possibly at the indices in `but`. */
  ghost predicate Gaps(size: map<nat, nat>, ring: seq<nat>, but: set<nat>) {
    forall i: nat :: i + 1 < |ring| && i !in but ==> Gap(size, ring, i)
  }

  ghost function Inserted(ring: seq<nat>, t: nat, b: nat): seq<nat>
    requires t < |ring|
  {
    ring[..t + 1] + [b] + ring[t + 1..]
  }

  ghost function Without(ring: seq<nat>, i: nat): seq<nat>
    requires i < |ring|
  {
    ring[..i] + ring[i + 1..]
  }

  ghost predicate Distinct(ring: seq<nat>) {
    forall i, j :: 0 <= i < j < |ring| ==> ring[i] != ring[j]
  }

  /** Block `b` lies between ring member `t` and its successor. */
  ghost predicate Fits(size: map<nat, nat>, ring: seq<nat>, t: nat, b: nat)
    requires t < |ring|
  {
    && ring[t] < b && ring[t] + At(size, ring[t]) <= b && At(size, b) > 0
    && (t + 1 < |ring| ==> b + At(size, b) <= ring[t + 1])
  }

  // Linking in, linking out.

  lemma InsertLinked(ptr: map<nat, nat>, ring: seq<nat>, t: nat, b: nat)
    requires Linked(ptr, ring) && t < |ring| && b !in ring && Distinct(ring)
    ensures Linked(ptr[b := ring[Succ(t, |ring|)]][ring[t] := b], Inserted(ring, t, b))
  {
    var p, r := ptr[b := ring[Succ(t, |ring|)]][ring[t] := b], Inserted(ring, t, b);
    forall i | 0 <= i < |r| ensures At(p, r[i]) == r[Succ(i, |r|)] {
      if i < t {
        assert r[i] == ring[i] && At(ptr, ring[i]) == ring[i + 1];
      } else if i > t + 1 {
        assert r[i] == ring[i - 1] && At(ptr, ring[i - 1]) == ring[Succ(i - 1, |ring|)];
      }
    }
  }

  /** Skipping ring member `i`, whose predecessor now points behind it. */
  lemma SkipLinked(ptr: map<nat, nat>, ring: seq<nat>, i: nat)
    requires Linked(ptr, ring) && 1 <= i < |ring| && Distinct(ring)
    ensures Linked(ptr[ring[i - 1] := At(ptr, ring[i])], Without(ring, i))
  {
    var p, r := ptr[ring[i - 1] := At(ptr, ring[i])], Without(ring, i);
    forall k | 0 <= k < |r| ensures At(p, r[k]) == r[Succ(k, |r|)] {
      if k < i - 1 {
        assert r[k] == ring[k] && At(ptr, ring[k]) == ring[k + 1];
      } else if k >= i {
        assert r[k] == ring[k + 1] && At(ptr, ring[k + 1]) == ring[Succ(k + 1, |ring|)];
      }
    }
  }

  // Address order and gaps.

  lemma OrderedDistinct(size: map<nat, nat>, ring: seq<nat>)
    requires Ordered(size, ring)
    ensures Distinct(ring)
  {
  }

  lemma FitsOutside(size: map<nat, nat>, ring: seq<nat>, t: nat, b: nat)
    requires Ordered(size, ring) && t < |ring| && Fits(size, ring, t, b)
    ensures b !in ring
  {
    forall i | 0 <= i < |ring| ensures ring[i] != b {
      if i < t { assert ring[i] < ring[t]; } else if i > t + 1 { assert ring[t + 1] < ring[i]; }
    }
  }

  lemma InsertOrdered(size: map<nat, nat>, ring: seq<nat>, t: nat, b: nat)
    requires Ordered(size, ring) && t < |ring| && Fits(size, ring, t, b)
    ensures Ordered(size, Inserted(ring, t, b))
  {
    var r := Inserted(ring, t, b);
    forall i, j | 0 <= i < j < |r| ensures r[i] < r[j] && r[i] + At(size, r[i]) <= r[j] {
      if i != t + 1 && j != t + 1 {
        var i' := if i <= t then i else i - 1;
        var j' := if j <= t then j else j - 1;
        assert r[i] == ring[i'] && r[j] == ring[j'];
      } else if j == t + 1 {
        if i < t { assert ring[i] + At(size, ring[i]) <= ring[t]; }
      } else if j > t + 2 {
        assert ring[t + 1] < ring[j - 1];
      }
    }
  }

  lemma InsertGaps(size: map<nat, nat>, ring: seq<nat>, t: nat, b: nat)
    requires t < |ring| && Gaps(size, ring, {})
    ensures Gaps(size, Inserted(ring, t, b), {t, t + 1})
  {
    var r := Inserted(ring, t, b);
    forall i: nat | i + 1 < |r| && i !in {t, t + 1} ensures Gap(size, r, i) {
      assert Gap(size, ring, if i < t then i else i - 1);
    }
  }

  lemma MergeOrdered(size: map<nat, nat>, ring: seq<nat>, i: nat)
    requires Ordered(size, ring) && i + 1 < |ring| && ring[i] + At(size, ring[i]) == ring[i + 1]
    ensures Ordered(size[ring[i] := At(size, ring[i]) + At(size, ring[i + 1])], Without(ring, i + 1))
  {
    var s, r := size[ring[i] := At(size, ring[i]) + At(size, ring[i + 1])], Without(ring, i + 1);
    forall k, l | 0 <= k < l < |r| ensures r[k] < r[l] && r[k] + At(s, r[k]) <= r[l] {
      var k' := if k <= i then k else k + 1;
      var l' := if l <= i then l else l + 1;
      assert r[k] == ring[k'] && r[l] == ring[l'];
      if k == i { assert ring[i + 1] + At(size, ring[i + 1]) <= ring[l']; }
    }
  }

  lemma MergeGaps(size: map<nat, nat>, ring: seq<nat>, i: nat, but: set<nat>)
    requires Ordered(size, ring) && i + 1 < |ring| && ring[i] + At(size, ring[i]) == ring[i + 1]
    requires Gaps(size, ring, but) && forall k :: k in but ==> k <= i
    ensures Gaps(size[ring[i] := At(size, ring[i]) + At(size, ring[i + 1])], Without(ring, i + 1), but - {i})
  {
    var s, r := size[ring[i] := At(size, ring[i]) + At(size, ring[i + 1])], Without(ring, i + 1);
    forall k: nat | k + 1 < |r| && k !in but - {i} ensures Gap(s, r, k) {
      if k < i {
        assert Gap(size, ring, k) && ring[k] < ring[i];
      } else {
        assert Gap(size, ring, k + 1) && (k > i ==> ring[k + 1] > ring[i]);
      }
    }
  }

  lemma SkipOrdered(size: map<nat, nat>, ring: seq<nat>, i: nat)
    requires Ordered(size, ring) && Gaps(size, ring, {}) && 1 <= i < |ring|
    ensures Ordered(size, Without(ring, i)) && Gaps(size, Without(ring, i), {})
  {
    var r := Without(ring, i);
    forall k: nat | k + 1 < |r| ensures Gap(size, r, k) {
      assert Gap(size, ring, if k < i then k else k + 1);
      if k == i - 1 { assert ring[i] < ring[i + 1]; }
    }
  }

  lemma ShrinkOrdered(size: map<nat, nat>, ring: seq<nat>, i: nat, n: nat, a: nat, m: nat)
    requires Ordered(size, ring) && Gaps(size, ring, {}) && i < |ring| && n <= At(size, ring[i]) && a !in ring
    ensures Ordered(size[ring[i] := n][a := m], ring) && Gaps(size[ring[i] := n][a := m], ring, {})
  {
    var s := size[ring[i] := n][a := m];
    assert forall j :: 0 <= j < |ring| ==> At(s, ring[j]) <= At(size, ring[j]);
    forall j: nat | j + 1 < |ring| ensures Gap(s, ring, j) {
      assert Gap(size, ring, j);
    }
  }

  // ------------------------------------------------------------ the whole heap

  /** The free blocks: the ring members behind the static header. */
  ghost function Members(ring: seq<nat>): set<nat> {
    set i | 1 <= i < |ring| :: ring[i]
  }

  /** Every block is either free or live, and its size word is right. */
  ghost predicate Accounts(size: map<nat, nat>, base: nat, ring: seq<nat>, blocks: map<nat, nat>, live: set<nat>) {
    && |ring| >= 1 && ring[0] == base && At(size, base) == 0
    && Members(ring) !! live && Members(ring) + live == blocks.Keys
    && (forall a :: a in blocks ==> base < a && At(size, a) == blocks[a])
  }

  ghost predicate HeapInv(ptr: map<nat, nat>, size: map<nat, nat>, base: nat, ring: seq<nat>,
                          blocks: map<nat, nat>, live: set<nat>, core: set<nat>)
  {
    && Accounts(size, base, ring, blocks, live)
    && Linked(ptr, ring) && Ordered(size, ring)
    && Tiling(blocks, core)
  }

  lemma MembersInserted(ring: seq<nat>, t: nat, b: nat)
    requires t < |ring|
    ensures Members(Inserted(ring, t, b)) == Members(ring) + {b}
  {
    var r := Inserted(ring, t, b);
    assert r[t + 1] == b;
    forall x | x in Members(ring) ensures x in Members(r) {
      var i :| 1 <= i < |ring| && ring[i] == x;
      assert r[if i <= t then i else i + 1] == x;
    }
  }

  lemma MembersWithout(ring: seq<nat>, i: nat)
    requires 1 <= i < |ring| && Distinct(ring)
    ensures Members(Without(ring, i)) == Members(ring) - {ring[i]}
    ensures ring[i] in Members(ring)
  {
    var r := Without(ring, i);
    forall x | x in Members(ring) && x != ring[i] ensures x in Members(r) {
      var k :| 1 <= k < |ring| && ring[k] == x;
      assert r[if k < i then k else k - 1] == x;
    }
    forall x | x in Members(r) ensures x in Members(ring) && x != ring[i] {
      var k :| 1 <= k < |r| && r[k] == x;
      assert ring[if k < i then k else k + 1] == x;
    }
  }

  lemma InsertHeap(ptr: map<nat, nat>, size: map<nat, nat>, base: nat, ring: seq<nat>,
                   blocks: map<nat, nat>, live: set<nat>, core: set<nat>, t: nat, b: nat)
    requires HeapInv(ptr, size, base, ring, blocks, live, core) && t < |ring| && b in live && Fits(size, ring, t, b)
    ensures HeapInv(ptr[b := ring[Succ(t, |ring|)]][ring[t] := b], size, base, Inserted(ring, t, b),
                    blocks, live - {b}, core)
  {
    hide Linked, Ordered, Tiling, Members;
    FitsOutside(size, ring, t, b);
    OrderedDistinct(size, ring);
    InsertLinked(ptr, ring, t, b);
    InsertOrdered(size, ring, t, b);
    MembersInserted(ring, t, b);
  }

  lemma MergeHeap(ptr: map<nat, nat>, size: map<nat, nat>, base: nat, ring: seq<nat>,
                  blocks: map<nat, nat>, live: set<nat>, core: set<nat>, i: nat)
    requires HeapInv(ptr, size, base, ring, blocks, live, core) && 1 <= i && i + 1 < |ring|
    requires ring[i] + At(size, ring[i]) == ring[i + 1]
    ensures ring[i] in blocks && ring[i + 1] in blocks
    ensures HeapInv(ptr[ring[i] := At(ptr, ring[i + 1])], size[ring[i] := At(size, ring[i]) + At(size, ring[i + 1])],
                    base, Without(ring, i + 1), Merged(blocks, ring[i], ring[i + 1]), live, core)
  {
    hide Linked, Ordered, Tiling, Members;
    OrderedDistinct(size, ring);
    SkipLinked(ptr, ring, i + 1);
    MergeOrdered(size, ring, i);
    MembersWithout(ring, i);
    MembersWithout(ring, i + 1);
    MergeTiling(blocks, core, ring[i], ring[i + 1]);
  }

  /** Taking ring member `i` out of the list makes it a live block. */
  lemma TakeHeap(ptr: map<nat, nat>, size: map<nat, nat>, base: nat, ring: seq<nat>,
                 blocks: map<nat, nat>, live: set<nat>, core: set<nat>, i: nat)
    requires HeapInv(ptr, size, base, ring, blocks, live, core) && 1 <= i < |ring| && Gaps(size, ring, {})
    ensures HeapInv(ptr[ring[i - 1] := At(ptr, ring[i])], size, base, Without(ring, i), blocks, live + {ring[i]}, core)
    ensures Gaps(size, Without(ring, i), {})
  {
    hide Linked, Ordered, Tiling, Gaps, Members;
    OrderedDistinct(size, ring);
    SkipLinked(ptr, ring, i);
    SkipOrdered(size, ring, i);
    MembersWithout(ring, i);
  }

  /** Cutting `n` units off the end of ring member `i` makes them a live block. */
  lemma CutHeap(ptr: map<nat, nat>, size: map<nat, nat>, base: nat, ring: seq<nat>,
                blocks: map<nat, nat>, live: set<nat>, core: set<nat>, i: nat, n: nat)
    requires HeapInv(ptr, size, base, ring, blocks, live, core) && 1 <= i < |ring| && Gaps(size, ring, {})
    requires 0 < n < At(size, ring[i])
    ensures var s := At(size, ring[i]) - n;
            var a := ring[i] + s;
            && ring[i] in blocks && a !in blocks
            && HeapInv(ptr, size[ring[i] := s][a := n], base, ring, Split(blocks, ring[i], n), live + {a}, core)
            && Gaps(size[ring[i] := s][a := n], ring, {})
  {
    hide Linked, Ordered, Tiling, Gaps, Members;
    var s := At(size, ring[i]) - n;
    var a := ring[i] + s;
    OrderedDistinct(size, ring);
    MembersWithout(ring, i);
    SplitTiling(blocks, core, ring[i], n);
    RingInBlocks(ring, base, blocks, a);
    ShrinkOrdered(size, ring, i, s, a, n);
  }

  lemma RingInBlocks(ring: seq<nat>, base: nat, blocks: map<nat, nat>, a: nat)
    requires |ring| >= 1 && ring[0] == base < a && Members(ring) <= blocks.Keys && a !in blocks
    ensures a !in ring
  {
    forall i | 0 <= i < |ring| ensures ring[i] != a {
      if i >= 1 { assert ring[i] in Members(ring); }
    }
  }

  // ------------------------------------------------------------ malloc and free

  /** nunits of malloc(), in 32-bit arithmetic. */
  function Units(nbytes: nat): (n: nat)
    ensures 1 <= n
  {
    ((nbytes + HEADER_BYTES - 1) % UINT) / HEADER_BYTES + 1
  }

  function CoreUnits(nu: nat): nat {
    if nu < MIN_CORE then MIN_CORE else nu
  }

  /** The argument that morecore() passes to sbrk(): a product in 32 bits, read as signed. */
  function SbrkArgument(nu: nat): int {
    var bytes := CoreUnits(nu) * HEADER_BYTES % UINT;
    if bytes < UINT / 2 then bytes else bytes - UINT
  }

  /** sbrk() is asked for all the units that morecore() then takes for its own. */
  predicate AsksEnough(nu: nat) {
    SbrkArgument(nu) == CoreUnits(nu) * HEADER_BYTES
  }

  /** The block malloc() asks for has room for the request behind its header exactly
      when the rounding does not wrap around. */
  lemma PayloadIff(nbytes: nat)
    requires nbytes < UINT
    ensures (Units(nbytes) - 1) * HEADER_BYTES >= nbytes <==> nbytes + HEADER_BYTES - 1 < UINT
  {
  }

  /** Neither the rounding nor the request to sbrk() goes wrong exactly up to 2^31 - 16 bytes. */
  lemma RequestIff(nbytes: nat)
    requires nbytes < UINT
    ensures (Units(nbytes) - 1) * HEADER_BYTES >= nbytes && AsksEnough(Units(nbytes)) <==>
              nbytes + 2 * HEADER_BYTES <= UINT / 2
  {
    PayloadIff(nbytes);
    var n := CoreUnits(Units(nbytes));
    assert AsksEnough(Units(nbytes)) <==> n * HEADER_BYTES < UINT / 2;
  }

  /** The largest request gets a block without payload; one of half the address space asks
      sbrk() for a negative number of bytes. */
  lemma WrappingRequests()
    ensures Units(UINT - 1) == 1 && SbrkArgument(Units(UINT / 2)) < 0
  {
    assert Units(UINT - 1) == 1;
    assert Units(UINT / 2) == UINT / 16 + 1;
  }

  /** The position in the ring at which free() must stop. */
  lemma SlotOf(size: map<nat, nat>, ring: seq<nat>, b: nat) returns (t: nat)
    requires |ring| >= 1 && Ordered(size, ring) && ring[0] < b && b !in ring
    ensures t < |ring| && ring[t] < b && (t + 1 < |ring| ==> b < ring[t + 1])
  {
    t := 0;
    while t + 1 < |ring| && ring[t + 1] < b
      invariant t < |ring| && ring[t] < b
    {
      t := t + 1;
    }
    assert t + 1 < |ring| ==> ring[t + 1] in ring;
  }

  lemma SlotFits(size: map<nat, nat>, base: nat, ring: seq<nat>, blocks: map<nat, nat>, live: set<nat>,
                 core: set<nat>, t: nat, b: nat)
    requires Accounts(size, base, ring, blocks, live) && Tiling(blocks, core) && b in live
    requires t < |ring| && ring[t] < b && (t + 1 < |ring| ==> b < ring[t + 1])
    ensures Fits(size, ring, t, b)
  {
    assert b in blocks;
    if t >= 1 { assert ring[t] in Members(ring); }
    if t + 1 < |ring| { assert ring[t + 1] in Members(ring); }
  }

  /** What free() does to the words once it has found the place behind `p`. */
  function FreedSize(ptr: map<nat, nat>, size: map<nat, nat>, p: nat, b: nat): map<nat, nat> {
    var s := if b + At(size, b) == At(ptr, p) then size[b := At(size, b) + At(size, At(ptr, p))] else size;
    if p + At(s, p) == b then s[p := At(s, p) + At(s, b)] else s
  }

  function FreedPtr(ptr: map<nat, nat>, size: map<nat, nat>, p: nat, b: nat): map<nat, nat> {
    var q := ptr[b := if b + At(size, b) == At(ptr, p) then At(ptr, At(ptr, p)) else At(ptr, p)];
    if p + At(size, p) == b then q[p := At(q, b)] else q[p := b]
  }

  /** A free block that contains the freed one. */
  ghost predicate HasRoom(size: map<nat, nat>, ring: seq<nat>, n: nat) {
    exists i :: 1 <= i < |ring| && At(size, ring[i]) >= n
  }

  lemma NoRoomInBase(size: map<nat, nat>, base: nat, n: nat)
    ensures !HasRoom(size, [base], n)
  {
  }

  lemma RoomLess(size: map<nat, nat>, ring: seq<nat>, n: nat, m: nat)
    requires HasRoom(size, ring, n) && m <= n
    ensures HasRoom(size, ring, m)
  {
  }

  lemma ThereIsRoom(size: map<nat, nat>, ring: seq<nat>, i: nat, n: nat)
    requires 1 <= i < |ring| && At(size, ring[i]) >= n
    ensures HasRoom(size, ring, n)
  {
  }

  lemma NotTouching(size: map<nat, nat>, ring: seq<nat>, i: nat, but: set<nat>)
    requires Ordered(size, ring) && Gaps(size, ring, but)
    requires i + 1 < |ring| ==> ring[i] + At(size, ring[i]) != ring[i + 1]
    ensures Gaps(size, ring, but - {i})
  {
    assert i + 1 < |ring| ==> ring[i] + At(size, ring[i]) <= ring[i + 1];
  }

  lemma BaseIsApart(size: map<nat, nat>, ring: seq<nat>)
    requires |ring| > 1 && Ordered(size, ring) && At(size, ring[0]) == 0
    ensures ring[0] + At(size, ring[0]) != ring[1]
  {
  }

  /** Joining the freed block with its upper neighbour, if they touch. */
  lemma JoinUp(ptr: map<nat, nat>, size: map<nat, nat>, base: nat, ring: seq<nat>, blocks: map<nat, nat>,
               live: set<nat>, core: set<nat>, i: nat)
    returns (ring': seq<nat>, blocks': map<nat, nat>)
    requires HeapInv(ptr, size, base, ring, blocks, live, core) && 1 <= i < |ring| && Gaps(size, ring, {i - 1, i})
    ensures var up := i + 1 < |ring| && ring[i] + At(size, ring[i]) == ring[i + 1];
            var ptr' := if up then ptr[ring[i] := At(ptr, ring[i + 1])] else ptr;
            var size' := if up then size[ring[i] := At(size, ring[i]) + At(size, ring[i + 1])] else size;
            && HeapInv(ptr', size', base, ring', blocks', live, core)
            && Gaps(size', ring', {i - 1}) && i < |ring'| && ring'[..i + 1] == ring[..i + 1]
            && (forall a :: a in live ==> a in blocks' && a in blocks && blocks'[a] == blocks[a])
  {
    hide Linked, Tiling, Members, Ordered, Gaps;
    assert {i - 1, i} - {i} == {i - 1};
    if i + 1 < |ring| && ring[i] + At(size, ring[i]) == ring[i + 1] {
      MergeHeap(ptr, size, base, ring, blocks, live, core, i);
      MergeGaps(size, ring, i, {i - 1, i});
      ring', blocks' := Without(ring, i + 1), Merged(blocks, ring[i], ring[i + 1]);
      MemberNotLive(ring, live, i);
      MemberNotLive(ring, live, i + 1);
    } else {
      ring', blocks' := ring, blocks;
      NotTouching(size, ring, i, {i - 1, i});
    }
  }

  lemma MemberNotLive(ring: seq<nat>, live: set<nat>, i: nat)
    requires 1 <= i < |ring| && Members(ring) !! live
    ensures ring[i] !in live
  {
    assert ring[i] in Members(ring);
  }

  /** Joining ring member `i`, the freed block, into its lower neighbour, if they touch. */
  lemma JoinDown(ptr: map<nat, nat>, size: map<nat, nat>, base: nat, ring: seq<nat>, blocks: map<nat, nat>,
                 live: set<nat>, core: set<nat>, i: nat)
    returns (ring': seq<nat>, blocks': map<nat, nat>)
    requires HeapInv(ptr, size, base, ring, blocks, live, core) && 1 <= i < |ring| && Gaps(size, ring, {i - 1})
    ensures var down := ring[i - 1] + At(size, ring[i - 1]) == ring[i];
            var ptr' := if down then ptr[ring[i - 1] := At(ptr, ring[i])] else ptr;
            var size' := if down then size[ring[i - 1] := At(size, ring[i - 1]) + At(size, ring[i])] else size;
            && HeapInv(ptr', size', base, ring', blocks', live, core)
            && Gaps(size', ring', {}) && ring[i - 1] in ring' && HasRoom(size', ring', At(size, ring[i]))
            && (forall a :: a in live ==> a in blocks' && a in blocks && blocks'[a] == blocks[a])
  {
    hide Linked, Tiling, Members, Ordered, Gaps, HasRoom;
    assert {i - 1} - {i - 1} == {};
    if ring[i - 1] + At(size, ring[i - 1]) == ring[i] {
      if i == 1 { BaseIsApart(size, ring); }
      MergeHeap(ptr, size, base, ring, blocks, live, core, i - 1);
      MergeGaps(size, ring, i - 1, {i - 1});
      ring', blocks' := Without(ring, i), Merged(blocks, ring[i - 1], ring[i]);
      assert ring'[i - 1] == ring[i - 1];
      ThereIsRoom(size[ring[i - 1] := At(size, ring[i - 1]) + At(size, ring[i])], ring', i - 1, At(size, ring[i]));
      MemberNotLive(ring, live, i - 1);
      MemberNotLive(ring, live, i);
    } else {
      ring', blocks' := ring, blocks;
      NotTouching(size, ring, i - 1, {i - 1});
      ThereIsRoom(size, ring, i, At(size, ring[i]));
    }
  }

  /** free() keeps the heap: the block goes back, nobody else's block changes. */
  lemma FreeHeap(ptr: map<nat, nat>, size: map<nat, nat>, base: nat, ring: seq<nat>, blocks: map<nat, nat>,
                 live: set<nat>, core: set<nat>, t: nat, b: nat)
    returns (ring': seq<nat>, blocks': map<nat, nat>)
    requires HeapInv(ptr, size, base, ring, blocks, live, core) && Gaps(size, ring, {}) && b in live && b in blocks
    requires t < |ring| && ring[t] < b && (t + 1 < |ring| ==> b < ring[t + 1])
    ensures var ptr', size' := FreedPtr(ptr, size, ring[t], b), FreedSize(ptr, size, ring[t], b);
            && HeapInv(ptr', size', base, ring', blocks', live - {b}, core)
            && Gaps(size', ring', {}) && ring[t] in ring' && HasRoom(size', ring', blocks[b])
            && (forall a :: a in live - {b} ==> a in blocks' && a in blocks && blocks'[a] == blocks[a])
  {
    hide Linked, Ordered, Tiling, Members, Gaps, HasRoom, FreedPtr, FreedSize;
    var p, n := ring[t], |ring|;
    var q := ring[Succ(t, n)];
    var up := t + 1 < n && b + At(size, b) == ring[t + 1];
    RingNext(ptr, size, ring, t, b);
    SlotFits(size, base, ring, blocks, live, core, t, b);
    InsertHeap(ptr, size, base, ring, blocks, live, core, t, b);
    InsertGaps(size, ring, t, b);
    var ring1, live1 := Inserted(ring, t, b), live - {b};
    FreedWords(ptr, size, p, b, q, up);
    var ring2, blocks2 := JoinUp(ptr[b := q][p := b], size, base, ring1, blocks, live1, core, t + 1);
    assert ring1[t + 1] == b && ring1[t] == p && ring2[t + 1] == ring2[..t + 2][t + 1] && ring2[t] == ring2[..t + 2][t];
    ring', blocks' := JoinDown(JoinedPtr(ptr, b, p, q, up), JoinedSize(size, b, q, up), base, ring2, blocks2,
                               live1, core, t + 1);
    RoomLess(FreedSize(ptr, size, p, b), ring', At(JoinedSize(size, b, q, up), b), blocks[b]);
  }

  /** The words after the first half of free(). */
  ghost function JoinedPtr(ptr: map<nat, nat>, b: nat, p: nat, q: nat, up: bool): map<nat, nat> {
    var linked := ptr[b := q][p := b];
    if up then linked[b := At(linked, q)] else linked
  }

  ghost function JoinedSize(size: map<nat, nat>, b: nat, q: nat, up: bool): map<nat, nat> {
    if up then size[b := At(size, b) + At(size, q)] else size
  }

  lemma FreedWords(ptr: map<nat, nat>, size: map<nat, nat>, p: nat, b: nat, q: nat, up: bool)
    requires p < b && At(ptr, p) == q && (up <==> b + At(size, b) == q) && (up ==> b < q)
    ensures var ptr2, size2 := JoinedPtr(ptr, b, p, q, up), JoinedSize(size, b, q, up);
            var down := p + At(size2, p) == b;
            && FreedPtr(ptr, size, p, b) == (if down then ptr2[p := At(ptr2, b)] else ptr2)
            && FreedSize(ptr, size, p, b) == (if down then size2[p := At(size2, p) + At(size2, b)] else size2)
            && At(size2, b) >= At(size, b)
  {
  }

  lemma RingNext(ptr: map<nat, nat>, size: map<nat, nat>, ring: seq<nat>, t: nat, b: nat)
    requires Linked(ptr, ring) && Ordered(size, ring) && t < |ring| && ring[t] < b
    requires t + 1 < |ring| ==> b < ring[t + 1]
    ensures At(ptr, ring[t]) == ring[Succ(t, |ring|)]
    ensures (t + 1 < |ring| && b + At(size, b) == ring[t + 1]) <==> b + At(size, b) == ring[Succ(t, |ring|)]
    ensures t + 1 < |ring| ==> b < ring[Succ(t, |ring|)]
  {
  }

  lemma NextOf(ptr: map<nat, nat>, ring: seq<nat>, t: nat)
    requires Linked(ptr, ring) && t < |ring|
    ensures At(ptr, ring[t]) == ring[Succ(t, |ring|)]
  {
  }

  /** The walk of free() stops at ring member `t` and nowhere else. */
  lemma StopsAtSlot(ptr: map<nat, nat>, size: map<nat, nat>, ring: seq<nat>, i: nat, t: nat, b: nat)
    requires Linked(ptr, ring) && Ordered(size, ring) && i < |ring| && t < |ring| && ring[0] < b
    requires ring[t] < b && (t + 1 < |ring| ==> b < ring[t + 1])
    ensures var p := ring[i]; var q := At(ptr, p);
            (p < b < q || (p >= q && (b > p || b < q))) <==> i == t
  {
    NextOf(ptr, ring, i);
    if i < t { assert ring[i + 1] <= ring[t]; }
    if i > t { assert ring[t + 1] <= ring[i]; }
    if i + 1 < |ring| { assert ring[i] < ring[i + 1]; } else if i > 0 { assert ring[0] < ring[i]; }
  }

  /** Fresh memory from sbrk(), first taken as one live block. */
  lemma GrowHeap(ptr: map<nat, nat>, size: map<nat, nat>, base: nat, ring: seq<nat>,
                 blocks: map<nat, nat>, live: set<nat>, core: set<nat>, a: nat, n: nat)
    requires HeapInv(ptr, size, base, ring, blocks, live, core) && Gaps(size, ring, {})
    requires n > 0 && base < a && Span(a, n) !! core
    ensures HeapInv(ptr, size[a := n], base, ring, blocks[a := n], live + {a}, core + Span(a, n))
    ensures Gaps(size[a := n], ring, {}) && a !in blocks
  {
    hide Linked, Tiling, Members, Ordered, Gaps;
    GrowTiling(blocks, core, a, n);
    RingInBlocks(ring, base, blocks, a);
    GrowOrdered(size, ring, a, n);
  }

  lemma GrowOrdered(size: map<nat, nat>, ring: seq<nat>, a: nat, n: nat)
    requires Ordered(size, ring) && Gaps(size, ring, {}) && a !in ring
    ensures Ordered(size[a := n], ring) && Gaps(size[a := n], ring, {})
  {
    assert forall i :: 0 <= i < |ring| ==> At(size[a := n], ring[i]) == At(size, ring[i]);
    var none: set<nat> := {};
    forall i: nat | i + 1 < |ring| && i !in none ensures Gap(size[a := n], ring, i) {
      assert ring[i] != a && Gap(size, ring, i);
    }
  }

  lemma EmptyHeap(ptr: map<nat, nat>, size: map<nat, nat>, base: nat)
    requires At(ptr, base) == base && At(size, base) == 0
    ensures HeapInv(ptr, size, base, [base], map[], {}, {}) && Gaps(size, [base], {})
  {
  }

  /** The `k`-th ring member malloc() looks at when it starts behind member `f`. */
  ghost function Turn(f: nat, k: nat, n: nat): nat {
    if f + 1 + k < n then f + 1 + k else f + 1 + k - n
  }

  ghost predicate TooSmall(size: map<nat, nat>, ring: seq<nat>, f: nat, k: nat, n: nat) {
    f < |ring| && k <= |ring| && forall d: nat :: d < k ==> At(size, ring[Turn(f, d, |ring|)]) < n
  }

  lemma RoundTrip(size: map<nat, nat>, ring: seq<nat>, f: nat, n: nat)
    requires f < |ring| && TooSmall(size, ring, f, |ring|, n)
    ensures !HasRoom(size, ring, n)
  {
    forall i | 1 <= i < |ring| ensures At(size, ring[i]) < n {
      var d := if i > f then i - f - 1 else i + |ring| - f - 1;
      assert Turn(f, d, |ring|) == i;
    }
  }

  lemma RingPositive(size: map<nat, nat>, ring: seq<nat>, i: nat)
    requires Ordered(size, ring) && i < |ring| && ring[0] > 0
    ensures ring[i] > 0
  {
  }

  lemma IsMember(ring: seq<nat>, i: nat)
    requires 1 <= i < |ring|
    ensures ring[i] in Members(ring)
  {
  }

  /** malloc()'s loop stands at `p` behind `prevp`, the first `k` blocks after ring[f] being
      too small. */
  ghost predicate Walk(size: map<nat, nat>, ring: seq<nat>, f: nat, k: nat, prevp: nat, p: nat, n: nat) {
    && f < |ring| && k < |ring|
    && p == ring[Turn(f, k, |ring|)]
    && prevp == (if k == 0 then ring[f] else ring[Turn(f, k - 1, |ring|)])
    && TooSmall(size, ring, f, k, n)
  }

  lemma WalkStarts(ptr: map<nat, nat>, size: map<nat, nat>, ring: seq<nat>, f: nat, n: nat)
    requires Linked(ptr, ring) && f < |ring|
    ensures Walk(size, ring, f, 0, ring[f], At(ptr, ring[f]), n)
  {
    NextOf(ptr, ring, f);
  }

  lemma WalkGoesOn(ptr: map<nat, nat>, size: map<nat, nat>, ring: seq<nat>, f: nat, k: nat, prevp: nat, p: nat, n: nat)
    requires Linked(ptr, ring) && Walk(size, ring, f, k, prevp, p, n) && At(size, p) < n && p != ring[f]
    ensures Walk(size, ring, f, k + 1, p, At(ptr, p), n)
  {
    NextOf(ptr, ring, Turn(f, k, |ring|));
  }

  lemma WalkFinds(size: map<nat, nat>, base: nat, ring: seq<nat>, f: nat, k: nat, prevp: nat, p: nat, n: nat)
    requires Walk(size, ring, f, k, prevp, p, n) && ring[0] == base && At(size, base) == 0 && 0 < n <= At(size, p)
    ensures var i := Turn(f, k, |ring|);
            1 <= i < |ring| && p == ring[i] && prevp == ring[i - 1]
    ensures HasRoom(size, ring, n)
  {
  }

  /** Back at the start: every free block has been found too small. */
  lemma WalkEnds(size: map<nat, nat>, ring: seq<nat>, f: nat, k: nat, prevp: nat, p: nat, n: nat)
    requires Ordered(size, ring) && Walk(size, ring, f, k, prevp, p, n) && At(size, p) < n && p == ring[f]
    ensures !HasRoom(size, ring, n)
  {
    OrderedDistinct(size, ring);
    assert k + 1 == |ring|;
    RoundTrip(size, ring, f, n);
  }

  lemma LiveOutside(base: nat, ring: seq<nat>, blocks: map<nat, nat>, live: set<nat>, b: nat)
    requires b in live && Members(ring) !! live && |ring| >= 1 && ring[0] == base && b > base
    ensures b !in ring
  {
    forall i | 0 <= i < |ring| ensures ring[i] != b {
      if i >= 1 { assert ring[i] in Members(ring); }
    }
  }

  class Heap {
    const base: nat           // &base
    var freep: nat            // 0 before the first malloc()
    var ptr: map<nat, nat>    // the ptr and size words of headers
    var size: map<nat, nat>
    ghost var ring: seq<nat>  // the free list, from `base` on
    ghost var blocks: map<nat, nat>
    ghost var live: set<nat>  // headers of the blocks handed out
    ghost var core: set<nat>  // every unit sbrk() has given

    ghost predicate Valid()
      reads this
    {
      && base > 0
      && if freep == 0 then blocks == map[] && live == {} && core == {}
         else
           && HeapInv(ptr, size, base, ring, blocks, live, core)
           && Gaps(size, ring, {})
           && freep in ring
    }

    constructor (b: nat)
      requires b > 0
      ensures Valid() && base == b && freep == 0 && core == {}
    {
      base := b;
      freep, ptr, size := 0, map[], map[];
      ring, blocks, live, core := [], map[], {}, {};
    }

    /** The walk of free() to the ring member below `bp`. */
    method FindSlot(bp: nat) returns (p: nat, ghost t: nat)
      requires Valid() && bp in live && bp in blocks
      ensures t < |ring| && p == ring[t] && p < bp
      ensures t + 1 < |ring| ==> bp < ring[t + 1]
    {
      hide Linked, Ordered, Tiling, Gaps, Members, HasRoom;
      LiveOutside(base, ring, blocks, live, bp);
      t := SlotOf(size, ring, bp);
      ghost var i :| 0 <= i < |ring| && ring[i] == freep;
      p := freep;
      StopsAtSlot(ptr, size, ring, i, t, bp);
      while !(bp > p && bp < At(ptr, p))
        invariant 0 <= i < |ring| && p == ring[i]
        invariant p < bp < At(ptr, p) ==> i == t
        decreases if i <= t then t - i else t - i + |ring|
      {
        StopsAtSlot(ptr, size, ring, i, t, bp);
        if p >= At(ptr, p) && (bp > p || bp < At(ptr, p)) {
          break;
        }
        NextOf(ptr, ring, i);
        i := Succ(i, |ring|);
        StopsAtSlot(ptr, size, ring, i, t, bp);
        p := At(ptr, p);
      }
    }

    /** free(): `ap` points behind the header of a live block. */
    method Free(ap: nat)
      requires Valid() && ap >= 1 && ap - 1 in live && ap - 1 in blocks
      modifies this
      ensures Valid() && freep != 0 && core == old(core)
      ensures live == old(live) - {ap - 1}
      ensures forall a :: a in live ==> a in blocks && a in old(blocks) && blocks[a] == old(blocks)[a]
      ensures HasRoom(size, ring, old(blocks)[ap - 1])
    {
      hide Linked, Ordered, Tiling, Gaps, Members, HasRoom;
      var bp := ap - 1;
      var p, t := FindSlot(bp);
      ghost var ring', blocks' := FreeHeap(ptr, size, base, ring, blocks, live, core, t, bp);
      RingPositive(size, ring, t);
      Coalesce(p, bp);
      freep := p;
      ring, blocks, live := ring', blocks', live - {bp};
    }

    /** Link `bp` in behind `p`, joining it with the blocks it touches. */
    method Coalesce(p: nat, bp: nat)
      requires p != bp
      modifies `ptr, `size
      ensures ptr == FreedPtr(old(ptr), old(size), p, bp) && size == FreedSize(old(ptr), old(size), p, bp)
    {
      if bp + At(size, bp) == At(ptr, p) {
        size := size[bp := At(size, bp) + At(size, At(ptr, p))];
        ptr := ptr[bp := At(ptr, At(ptr, p))];
      } else {
        ptr := ptr[bp := At(ptr, p)];
      }
      if p + At(size, p) == bp {
        size := size[p := At(size, p) + At(size, bp)];
        ptr := ptr[p := At(ptr, bp)];
      } else {
        ptr := ptr[p := bp];
      }
    }

    /** morecore(): `brk` is what sbrk() returns, None when it refuses. */
    method Morecore(nu: nat, brk: Option<nat>) returns (p: nat)
      requires Valid() && freep != 0 && nu > 0
      requires brk.Some? ==> base < brk.value && Span(brk.value, CoreUnits(nu)) !! core
      modifies this
      ensures Valid() && freep != 0 && live == old(live)
      ensures core == if brk.Some? then old(core) + Span(brk.value, CoreUnits(nu)) else old(core)
      ensures forall a :: a in live ==> a in blocks && a in old(blocks) && blocks[a] == old(blocks)[a]
      ensures p == if brk.Some? then freep else 0
      ensures brk.None? ==> ring == old(ring) && size == old(size) && ptr == old(ptr) && freep == old(freep)
      ensures brk.Some? ==> HasRoom(size, ring, nu)
    {
      hide Linked, Ordered, Tiling, Gaps, Members, HasRoom;
      var n := if nu < MIN_CORE then MIN_CORE else nu;
      if brk.None? {
        return 0;
      }
      var hp := brk.value;
      GrowHeap(ptr, size, base, ring, blocks, live, core, hp, n);
      size := size[hp := n];
      core, live, blocks := core + Span(hp, n), live + {hp}, blocks[hp := n];
      assert hp !in old(live);
      Free(hp + 1);
      assert live == old(live);
      RoomLess(size, ring, n, nu);
      return freep;
    }

    /** Hand out `n` units of ring member `p`, whose predecessor is `prevp`. */
    method Carve(prevp: nat, p: nat, n: nat, ghost i: nat) returns (r: nat)
      requires Valid() && freep != 0 && 1 <= i < |ring| && p == ring[i] && prevp == ring[i - 1] && 0 < n <= At(size, p)
      modifies this
      ensures Valid() && core == old(core)
      ensures r > 0 && r - 1 !in old(live) && live == old(live) + {r - 1}
      ensures r - 1 in blocks && blocks[r - 1] == n
      ensures forall a :: a in old(live) ==> a in blocks && a in old(blocks) && blocks[a] == old(blocks)[a]
    {
      hide Linked, Ordered, Tiling, Gaps, Members;
      MemberNotLive(ring, live, i);
      IsMember(ring, i);
      RingPositive(size, ring, i - 1);
      var q := p;
      if At(size, p) == n {
        TakeHeap(ptr, size, base, ring, blocks, live, core, i);
        ptr := ptr[prevp := At(ptr, p)];
        ring := Without(ring, i);
        assert ring[i - 1] == prevp;
      } else {
        CutHeap(ptr, size, base, ring, blocks, live, core, i, n);
        blocks := Split(blocks, p, n);
        size := size[p := At(size, p) - n];
        q := p + At(size, p);
        size := size[q := n];
      }
      freep := prevp;
      live := live + {q};
      r := q + 1;
    }

    /** malloc(): `brk` is what sbrk() will return if it is called. The block handed out
        is new and of the size asked for, no live block changes, and memory is asked
        for at most once, and then the request succeeds. It is `wild` when morecore() takes
        more units for its own than it asked sbrk() for; nothing is then promised. */
    method Malloc(nbytes: nat, brk: Option<nat>) returns (r: nat, grew: bool, wild: bool)
      requires Valid() && nbytes < UINT
      requires brk.Some? && AsksEnough(Units(nbytes)) ==>
                 base < brk.value && Span(brk.value, CoreUnits(Units(nbytes))) !! core
      modifies this
      ensures grew <==> old(freep) == 0 || !HasRoom(old(size), old(ring), Units(nbytes))
      ensures wild <==> grew && brk.Some? && !AsksEnough(Units(nbytes))
      ensures !wild ==> Valid()
      ensures core == if grew && brk.Some? && !wild then old(core) + Span(brk.value, CoreUnits(Units(nbytes)))
                      else old(core)
      ensures r == 0 ==> wild || (grew && brk.None? && live == old(live))
      ensures r != 0 ==>
                && !wild && r - 1 !in old(live) && live == old(live) + {r - 1}
                && r - 1 in blocks && blocks[r - 1] == Units(nbytes)
      ensures forall a :: a in old(live) ==> a in blocks && a in old(blocks) && blocks[a] == old(blocks)[a]
    {
      hide Linked, Ordered, Tiling, Gaps, Members, HasRoom, Walk, Span, CoreUnits, AsksEnough, Units, Turn;
      var nunits := Units(nbytes);
      if freep == 0 {
        ptr, size, freep := ptr[base := base], size[base := 0], base;
        EmptyHeap(ptr, size, base);
        ring := [base];
        NoRoomInBase(size, base, nunits);
      }
      ghost var ring0, size0 := ring, size;
      grew, wild := false, false;
      var prevp := freep;
      ghost var f: nat :| f < |ring| && ring[f] == freep;
      ghost var k := 0;
      WalkStarts(ptr, size, ring, f, nunits);
      var p := At(ptr, prevp);
      while true
        invariant Valid() && freep != 0 && live == old(live)
        invariant forall a :: a in live ==> a in blocks && a in old(blocks) && blocks[a] == old(blocks)[a]
        invariant 0 <= k < |ring| && f < |ring| && ring[f] == freep && Walk(size, ring, f, k, prevp, p, nunits)
        invariant if grew then brk.Some? && AsksEnough(nunits) && HasRoom(size, ring, nunits)
            && !HasRoom(size0, ring0, nunits)
                  else ring == ring0 && size == size0
        invariant core == if grew then old(core) + Span(brk.value, CoreUnits(nunits)) else old(core)
        decreases !grew, |ring| - k
      {
        if At(size, p) >= nunits {
          WalkFinds(size, base, ring, f, k, prevp, p, nunits);
          r := Carve(prevp, p, nunits, Turn(f, k, |ring|));
          return;
        }
        if p == freep {
          WalkEnds(size, ring, f, k, prevp, p, nunits);
          if brk.Some? && !AsksEnough(nunits) {
            return 0, true, true;   // the block is not what sbrk() gave
          }
          p := Morecore(nunits, brk);
          grew := true;
          if p == 0 {
            return 0, true, false;
          }
          f :| f < |ring| && ring[f] == freep;
          k := 0;
          WalkStarts(ptr, size, ring, f, nunits);
        } else {
          WalkGoesOn(ptr, size, ring, f, k, prevp, p, nunits);
          k := k + 1;
        }
        prevp := p;
        p := At(ptr, p);
      }
    }
  }
}
