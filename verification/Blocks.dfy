/** Geometry of the binary buddy system: power-of-two blocks inside 4 MiB regions, the
    buddy/parent arithmetic on addresses, the position of a block in its region's bitmap,
    and what it means for a set of blocks to tile a set of regions. */
module Blocks {
  import opened Bits

  const MIN_BLOCK_SHIFT: nat := 4
  const MAX_ORDER: nat := 16
  const NUM_ORDERS: nat := MAX_ORDER + 1
  const REGION_BYTES: nat := 0x40_0000
  const OOB_MIN_ORDER: nat := 10
  const OOB_ORDERS: nat := NUM_ORDERS - OOB_MIN_ORDER
  /** Bytes per order-map and link-array slot: the block size of `OOB_MIN_ORDER`. */
  const SLOT_BYTES: nat := 0x4000
  const SLOTS: nat := 256

  /** `bytes >> log2(size)`, for a power-of-two `size`. */
  function Units(bytes: nat, size: nat): nat
    requires size > 0
  {
    bytes / size
  }

  datatype Block = Block(addr: nat, order: nat)

  /** `MIN_BLOCK << order`. */
  function BlockSize(order: nat): (s: nat)
    ensures s > 0
  {
    Pow2(MIN_BLOCK_SHIFT + order)
  }

  /** `addr & !(REGION_BYTES - 1)`. */
  function RegionBase(addr: nat): nat {
    addr - addr % REGION_BYTES
  }

  lemma Sizes()
    ensures BlockSize(MAX_ORDER) == 0x10_0000
    ensures BlockSize(OOB_MIN_ORDER) == SLOT_BYTES
    ensures Pow2(22) == REGION_BYTES
  {
    assert Pow2(10) == 1024;
    Pow2Sum(10, 10);
    Pow2Sum(4, 10);
    Pow2Sum(20, 2);
    assert Pow2(2) == 4 && Pow2(4) == 16;
  }

  /** Rounding down to the region base is the masking the code performs. */
  lemma RegionBaseIsMask(addr: nat)
    ensures AndNot(addr, REGION_BYTES - 1) == RegionBase(addr)
  {
    Sizes();
    AndNotMask(addr, 22, REGION_BYTES);
  }

  lemma Multiple(a: nat, s: nat) returns (k: nat)
    requires s > 0 && a % s == 0
    ensures a == s * k
  {
    k := a / s;
  }

  lemma MultipleMod(s: nat, k: nat)
    requires s > 0
    ensures s * k % s == 0
  {
    Quotient(s * k, s, k, 0);
  }

  /** Smaller block sizes divide larger ones. */
  lemma SizeDivides(o: nat, p: nat) returns (f: nat)
    requires o <= p
    ensures BlockSize(p) == BlockSize(o) * f
  {
    f := Pow2(p - o);
    Pow2Sum(MIN_BLOCK_SHIFT + o, p - o);
  }

  lemma SizeDividesRegion(o: nat) returns (m: nat)
    requires o <= MAX_ORDER
    ensures REGION_BYTES == BlockSize(o) * m
  {
    Sizes();
    m := SizeDivides(o, 18);
  }

  /** An aligned block lies wholly inside the region its address masks to. */
  lemma InsideRegion(addr: nat, order: nat)
    requires order <= MAX_ORDER && addr % BlockSize(order) == 0
    ensures RegionBase(addr) <= addr
    ensures addr + BlockSize(order) <= RegionBase(addr) + REGION_BYTES
  {
    hide BlockSize;
    var s, base := BlockSize(order), RegionBase(addr);
    var m := SizeDividesRegion(order);
    var k := Multiple(addr, s);
    var q := addr / REGION_BYTES;
    assert base + REGION_BYTES == REGION_BYTES * (q + 1);
    StepBelow(s, k, m, q + 1);
  }

  lemma StepBelow(s: nat, k: nat, m: nat, q: nat)
    requires s * k < s * m * q
    ensures s * k + s <= s * m * q
  {
    assert s * m * q == s * (m * q);
    if k >= m * q { Grows(s, k, m * q); }
    Grows(s, m * q, k + 1);
    assert s * (k + 1) == s * k + s;
  }

  /** `addr ^ block_size(order)`. */
  function BuddyOf(addr: nat, order: nat): nat {
    Xor(addr, BlockSize(order))
  }

  /** `addr & !(block_size(order + 1) - 1)`. */
  function ParentOf(addr: nat, order: nat): nat {
    AndNot(addr, BlockSize(order + 1) - 1)
  }

  lemma EvenOrOdd(a: nat, s: nat)
    requires s > 0 && a % s == 0
    ensures a / s % 2 == 0 ==> a % (2 * s) == 0
    ensures a / s % 2 == 1 ==> a % (2 * s) == s && a >= s
  {
    var k := a / s;
    assert a == s * k;
    var h := k / 2;
    if k % 2 == 0 {
      assert s * k == 2 * s * h;
      Quotient(a, 2 * s, h, 0);
    } else {
      assert s * k == s * (2 * h + 1) == 2 * s * h + s;
      Quotient(a, 2 * s, h, s);
      assert 2 * s * h >= 0;
    }
  }

  /** A block and its buddy are the two halves of the block one order up, in either order,
      and none of the three leaves the region: merging never crosses a region boundary. */
  lemma BuddyGeometry(addr: nat, order: nat)
    requires order < MAX_ORDER && addr % BlockSize(order) == 0
    ensures var (s, b, p) := (BlockSize(order), BuddyOf(addr, order), ParentOf(addr, order));
      && BlockSize(order + 1) == 2 * s
      && b % s == 0 && p % BlockSize(order + 1) == 0
      && ((addr == p && b == p + s) || (addr == p + s && b == p))
      && RegionBase(b) == RegionBase(p) == RegionBase(addr)
  {
    hide BlockSize, BuddyOf, ParentOf, Flipped, RegionBase;
    var s, b, p := BlockSize(order), BuddyOf(addr, order), ParentOf(addr, order);
    BuddyAndParent(addr, order);
    HalfPoints(addr, s, b, p);
    InsideRegion(p, order + 1);
    SameRegion(p, addr);
    SameRegion(p, b);
  }

  lemma SameRegion(p: nat, x: nat)
    requires p <= x < RegionBase(p) + REGION_BYTES
    ensures RegionBase(x) == RegionBase(p)
  {
  }

  /** The size bit of the address flipped, and the address rounded down to twice the size. */
  ghost predicate Flipped(addr: nat, s: nat, b: int, p: int)
    requires s > 0
  {
    b == (if addr / s % 2 == 0 then addr + s else addr - s) && p == addr - addr % (2 * s)
  }

  lemma BuddyAndParent(addr: nat, order: nat)
    ensures BlockSize(order + 1) == 2 * BlockSize(order)
    ensures Flipped(addr, BlockSize(order), BuddyOf(addr, order), ParentOf(addr, order))
  {
    hide Xor, AndNot;
    XorPow2(addr, MIN_BLOCK_SHIFT + order);
    AndNotMask(addr, MIN_BLOCK_SHIFT + order + 1, 2 * BlockSize(order));
  }

  lemma HalfPoints(addr: nat, s: nat, b: nat, p: nat)
    requires s > 0 && addr % s == 0
    requires Flipped(addr, s, b, p)
    ensures b % s == 0 && p % (2 * s) == 0
    ensures (addr == p && b == p + s) || (addr == p + s && b == p)
  {
    EvenOrOdd(addr, s);
    var k := addr / (2 * s);
    assert p == 2 * s * k;
    MultipleMod(2 * s, k);
    assert p + s == s * (2 * k + 1) && p == s * (2 * k);
    MultipleMod(s, 2 * k + 1);
    MultipleMod(s, 2 * k);
  }

  /** Block halves, as `alloc_order` splits them. */
  lemma SplitGeometry(addr: nat, order: nat)
    requires 0 < order <= MAX_ORDER && addr % BlockSize(order) == 0
    ensures BlockSize(order) == 2 * BlockSize(order - 1)
    ensures addr % BlockSize(order - 1) == 0
    ensures (addr + BlockSize(order - 1)) % BlockSize(order - 1) == 0
    ensures RegionBase(addr + BlockSize(order - 1)) == RegionBase(addr)
  {
    var s := BlockSize(order - 1);
    assert BlockSize(order) == 2 * s;
    hide BlockSize, RegionBase;
    HalfMultiple(addr, s);
    InsideRegion(addr, order);
    SameRegion(addr, addr + s);
  }

  lemma HalfMultiple(addr: nat, s: nat)
    requires s > 0 && addr % (2 * s) == 0
    ensures addr % s == 0 && (addr + s) % s == 0
  {
    var k := Multiple(addr, 2 * s);
    assert addr == s * (2 * k) && addr + s == s * (2 * k + 1);
    MultipleMod(s, 2 * k);
    MultipleMod(s, 2 * k + 1);
  }

  // ---- the bitmap ------------------------------------------------------------------------

  /** `ORDER_BIT_OFFSET[order]`. */
  function BitOffset(order: nat): nat {
    if order == 0 then 0
    else BitOffset(order - 1) + Units(REGION_BYTES, BlockSize(order - 1))
  }

  const BITMAP_BITS: nat := BitOffset(NUM_ORDERS)

  function BitPos(b: Block): nat {
    BitOffset(b.order) + Units(b.addr - RegionBase(b.addr), BlockSize(b.order))
  }

  ghost predicate Fits(b: Block, bases: set<nat>) {
    b.order <= MAX_ORDER && b.addr % BlockSize(b.order) == 0 && RegionBase(b.addr) in bases
  }

  lemma {:induction false} BitOffsetMonotone(o: nat, p: nat)
    requires o <= p
    ensures BitOffset(o) <= BitOffset(p)
  {
    if o < p { BitOffsetMonotone(o, p - 1); }
  }

  /** The index of a block among its order's positions, recovered exactly. */
  lemma BlockIndex(b: Block) returns (i: nat)
    requires b.order <= MAX_ORDER && b.addr % BlockSize(b.order) == 0
    ensures i == Units(b.addr - RegionBase(b.addr), BlockSize(b.order))
    ensures b.addr == RegionBase(b.addr) + BlockSize(b.order) * i
    ensures i < Units(REGION_BYTES, BlockSize(b.order))
  {
    hide BlockSize;
    var s, base := BlockSize(b.order), RegionBase(b.addr);
    var m := SizeDividesRegion(b.order);
    var k := Multiple(b.addr, s);
    var q := b.addr / REGION_BYTES;
    assert base == REGION_BYTES * q;
    assert s * m * q == s * (m * q);
    assert k >= m * q by {
      if k < m * q { Grows(s, m * q, k + 1); }
      assert s * (k + 1) == s * k + s;
    }
    i := k - m * q;
    assert s * i == s * k - s * (m * q);
    Quotient(b.addr - base, s, i, 0);
    Quotient(REGION_BYTES, s, m, 0);
    if i >= m { Grows(s, i, m); }
  }

  /** Different blocks of one region own different bits, all inside the bitmap. */
  lemma BitPosInjective(b: Block, c: Block)
    requires b.order <= MAX_ORDER && b.addr % BlockSize(b.order) == 0
    requires c.order <= MAX_ORDER && c.addr % BlockSize(c.order) == 0
    requires RegionBase(b.addr) == RegionBase(c.addr)
    ensures BitPos(b) < BITMAP_BITS
    ensures BitPos(b) == BitPos(c) ==> b == c
  {
    hide BlockSize, RegionBase, Units;
    var i := BlockIndex(b);
    var j := BlockIndex(c);
    BitOffsetMonotone(b.order + 1, NUM_ORDERS);
    if b.order < c.order {
      BitOffsetMonotone(b.order + 1, c.order);
    } else if c.order < b.order {
      BitOffsetMonotone(c.order + 1, b.order);
    }
  }

  // ---- order-map and link slots ----------------------------------------------------------

  /** `order_map_slot`. */
  function SlotOf(addr: nat): nat {
    (addr - RegionBase(addr)) / SLOT_BYTES
  }

  /** A block of an out-of-band order starts exactly at its slot. */
  lemma SlotGeometry(b: Block)
    requires OOB_MIN_ORDER <= b.order <= MAX_ORDER && b.addr % BlockSize(b.order) == 0
    ensures SlotOf(b.addr) < SLOTS
    ensures b.addr == RegionBase(b.addr) + SlotOf(b.addr) * SLOT_BYTES
  {
    hide BlockSize, Pow2, SlotOf, RegionBase;
    Sizes();
    var f := SizeDivides(OOB_MIN_ORDER, b.order);
    var k := Multiple(b.addr, BlockSize(b.order));
    SlotMultiple(b.addr, f, k);
    SlotDivision(b.addr);
  }

  lemma SlotMultiple(addr: nat, f: nat, k: nat)
    requires addr == SLOT_BYTES * f * k
    ensures addr % SLOT_BYTES == 0
  {
    assert SLOT_BYTES * f * k == SLOT_BYTES * (f * k);
    MultipleMod(SLOT_BYTES, f * k);
  }

  lemma SlotDivision(addr: nat)
    requires addr % SLOT_BYTES == 0
    ensures SlotOf(addr) < SLOTS && addr == RegionBase(addr) + SlotOf(addr) * SLOT_BYTES
  {
  }
}
