/** When a set of blocks partitions a set of regions exactly, and the three edits of a buddy
    system that keep it so: splitting a block, merging two buddies, mapping a region. */
module Tiling {
  import opened Bits
  import opened Blocks

  ghost function End(b: Block): nat {
    b.addr + BlockSize(b.order)
  }

  ghost predicate Disjoint(b: Block, c: Block) {
    End(b) <= c.addr || End(c) <= b.addr
  }

  ghost predicate Covers(b: Block, x: nat) {
    b.addr <= x < End(b)
  }

  /** Total size of a finite set of blocks, in bytes. */
  ghost function Bytes(blocks: set<Block>): nat {
    if blocks == {} then 0
    else var b :| b in blocks; BlockSize(b.order) + Bytes(blocks - {b})
  }

  ghost predicate AllFit(blocks: set<Block>, bases: set<nat>) {
    forall b :: b in blocks ==> Fits(b, bases)
  }

  ghost predicate NoOverlap(blocks: set<Block>) {
    forall b, c :: b in blocks && c in blocks && b != c ==> Disjoint(b, c)
  }

  ghost predicate Covered(blocks: set<Block>, x: nat) {
    exists b :: b in blocks && Covers(b, x)
  }

  ghost predicate NoGap(blocks: set<Block>, bases: set<nat>) {
    forall x: nat :: RegionBase(x) in bases ==> Covered(blocks, x)
  }

  /** Every block is aligned and inside a region, no two overlap, every byte of every region
      is in some block, and the block sizes add up to the mapped memory. */
  ghost predicate Tiles(blocks: set<Block>, bases: set<nat>) {
    && AllFit(blocks, bases)
    && NoOverlap(blocks)
    && NoGap(blocks, bases)
    && Bytes(blocks) == |bases| * REGION_BYTES
  }

  lemma {:induction false} BytesTake(blocks: set<Block>, b: Block)
    requires b in blocks
    ensures Bytes(blocks) == BlockSize(b.order) + Bytes(blocks - {b})
  {
    hide BlockSize;
    var c :| c in blocks && Bytes(blocks) == BlockSize(c.order) + Bytes(blocks - {c});
    if c != b {
      BytesTake(blocks - {c}, b);
      BytesTake(blocks - {b}, c);
      assert blocks - {c} - {b} == blocks - {b} - {c};
    }
  }

  lemma BytesAdd(blocks: set<Block>, b: Block)
    requires b !in blocks
    ensures Bytes(blocks + {b}) == Bytes(blocks) + BlockSize(b.order)
  {
    BytesTake(blocks + {b}, b);
    assert blocks + {b} - {b} == blocks;
  }

  /** Disjoint sets of blocks add up: free bytes plus live bytes are the mapped bytes. */
  lemma {:induction false} BytesUnion(s: set<Block>, t: set<Block>)
    requires s !! t
    ensures Bytes(s + t) == Bytes(s) + Bytes(t)
    decreases s
  {
    if s == {} {
      assert s + t == t;
    } else {
      var b :| b in s;
      BytesTake(s, b);
      BytesTake(s + t, b);
      assert s + t - {b} == (s - {b}) + t;
      BytesUnion(s - {b}, t);
    }
  }

  /** A block of a tiling overlaps no other; in particular no address starts two blocks. */
  lemma OneBlockPerAddress(blocks: set<Block>, bases: set<nat>, b: Block, c: Block)
    requires Tiles(blocks, bases) && b in blocks && c in blocks && b.addr == c.addr
    ensures b == c
  {
    hide BlockSize;
    assert BlockSize(b.order) > 0 && BlockSize(c.order) > 0;
  }

  ghost function Halves(b: Block): (Block, Block)
    requires b.order > 0
  {
    (Block(b.addr, b.order - 1), Block(b.addr + BlockSize(b.order - 1), b.order - 1))
  }

  ghost predicate AreHalves(b: Block, lo: Block, hi: Block) {
    && BlockSize(b.order) == 2 * BlockSize(lo.order) == 2 * BlockSize(hi.order)
    && lo.addr == b.addr && hi.addr == b.addr + BlockSize(lo.order)
  }

  lemma HalvesBytes(b: Block, lo: Block, hi: Block, rest: set<Block>)
    requires AreHalves(b, lo, hi) && b !in rest && lo !in rest && hi !in rest
    ensures Bytes(rest + {b}) == Bytes(rest + {lo, hi})
  {
    hide BlockSize;
    BytesAdd(rest, b);
    BytesAdd(rest, lo);
    BytesAdd(rest + {lo}, hi);
    assert rest + {lo} + {hi} == rest + {lo, hi};
  }

  lemma HalvesOverlap(b: Block, lo: Block, hi: Block, rest: set<Block>)
    requires AreHalves(b, lo, hi) && b !in rest && lo !in rest && hi !in rest
    ensures NoOverlap(rest + {b}) <==> NoOverlap(rest + {lo, hi})
  {
    hide BlockSize;
    var whole, halves := rest + {b}, rest + {lo, hi};
    assert forall c :: Disjoint(b, c) <==> Disjoint(lo, c) && Disjoint(hi, c);
    if NoOverlap(whole) {
      forall c, d | c in halves && d in halves && c != d ensures Disjoint(c, d) {
        assert c in rest ==> c in whole;
        assert d in rest ==> d in whole;
        assert b in whole;
      }
    }
    if NoOverlap(halves) {
      forall c, d | c in whole && d in whole && c != d ensures Disjoint(c, d) {
        assert c in rest ==> c in halves;
        assert d in rest ==> d in halves;
        assert lo in halves && hi in halves;
      }
    }
  }

  lemma HalvesGap(b: Block, lo: Block, hi: Block, rest: set<Block>, x: nat)
    requires AreHalves(b, lo, hi)
    ensures Covered(rest + {b}, x) <==> Covered(rest + {lo, hi}, x)
  {
    hide BlockSize;
    var whole, halves := rest + {b}, rest + {lo, hi};
    assert Covers(b, x) <==> Covers(lo, x) || Covers(hi, x);
    if Covered(whole, x) {
      var c :| c in whole && Covers(c, x);
      assert (if c in rest then c else if Covers(lo, x) then lo else hi) in halves;
    }
    if Covered(halves, x) {
      var c :| c in halves && Covers(c, x);
      assert (if c in rest then c else b) in whole;
    }
  }

  /** Replacing a block by its two halves, or the halves by the block, keeps a tiling. */
  lemma HalvesTile(b: Block, lo: Block, hi: Block, rest: set<Block>, bases: set<nat>)
    requires AreHalves(b, lo, hi) && b !in rest && lo !in rest && hi !in rest
    requires Fits(b, bases) <==> Fits(lo, bases) && Fits(hi, bases)
    ensures Tiles(rest + {b}, bases) <==> Tiles(rest + {lo, hi}, bases)
  {
    HalvesBytes(b, lo, hi, rest);
    HalvesOverlap(b, lo, hi, rest);
    forall x ensures Covered(rest + {b}, x) <==> Covered(rest + {lo, hi}, x) {
      HalvesGap(b, lo, hi, rest, x);
    }
    hide BlockSize, NoOverlap, Covered, Fits, AreHalves, Bytes;
    assert AllFit(rest + {b}, bases) <==> AllFit(rest + {lo, hi}, bases);
  }

  lemma TilesSplit(blocks: set<Block>, bases: set<nat>, b: Block)
    requires Tiles(blocks, bases) && b in blocks && b.order > 0
    ensures var (lo, hi) := Halves(b);
      lo !in blocks && hi !in blocks && Tiles(blocks - {b} + {lo, hi}, bases)
  {
    var (lo, hi) := Halves(b);
    SplitFits(b, bases);
    NotIn(blocks, bases, b, lo);
    NotIn(blocks, bases, b, hi);
    hide Tiles, AreHalves, Fits, Halves;
    assert blocks - {b} + {b} == blocks;
    HalvesTile(b, lo, hi, blocks - {b}, bases);
  }

  lemma SplitFits(b: Block, bases: set<nat>)
    requires Fits(b, bases) && b.order > 0
    ensures var (lo, hi) := Halves(b);
      && AreHalves(b, lo, hi) && Fits(lo, bases) && Fits(hi, bases)
      && !Disjoint(b, lo) && !Disjoint(b, hi)
  {
    SplitGeometry(b.addr, b.order);
    hide BlockSize;
  }

  lemma SplitInRegion(b: Block, bases: set<nat>)
    requires Fits(b, bases) && b.order > 0
    ensures RegionBase(b.addr + BlockSize(b.order - 1)) == RegionBase(b.addr)
  {
    SplitGeometry(b.addr, b.order);
  }

  lemma NotIn(blocks: set<Block>, bases: set<nat>, b: Block, c: Block)
    requires Tiles(blocks, bases) && b in blocks && b != c && !Disjoint(b, c)
    ensures c !in blocks
  {
  }

  /** The block one order up that a block and its buddy make together. */
  ghost function Parent(b: Block): Block {
    Block(ParentOf(b.addr, b.order), b.order + 1)
  }

  ghost function Partner(b: Block): Block {
    Block(BuddyOf(b.addr, b.order), b.order)
  }

  lemma MergeFits(b: Block, bases: set<nat>)
    requires Fits(b, bases) && Fits(Partner(b), bases) && b.order < MAX_ORDER
    ensures var (p, c) := (Parent(b), Partner(b));
      && Fits(p, bases) && !Disjoint(b, p) && p.order != b.order == c.order
      && (AreHalves(p, b, c) || AreHalves(p, c, b))
  {
    hide BlockSize, BuddyOf, ParentOf, RegionBase;
    assert BlockSize(b.order) > 0 by { SizePositive(b.order); }
    BuddyGeometry(b.addr, b.order);
  }

  lemma SizePositive(order: nat)
    ensures BlockSize(order) > 0
  {
  }

  lemma TilesMerge(blocks: set<Block>, bases: set<nat>, b: Block)
    requires Tiles(blocks, bases) && b in blocks && Partner(b) in blocks && b.order < MAX_ORDER
    ensures Parent(b) !in blocks
    ensures Tiles(blocks - {b, Partner(b)} + {Parent(b)}, bases)
  {
    hide Fits, Disjoint, AreHalves, Parent, Partner, NoOverlap, NoGap, Bytes;
    var p, c, rest := Parent(b), Partner(b), blocks - {b, Partner(b)};
    MergeFits(b, bases);
    NotIn(blocks, bases, b, p);
    assert rest + {b, c} == rest + {c, b} == blocks;
    if AreHalves(p, b, c) {
      HalvesTile(p, b, c, rest, bases);
    } else {
      HalvesTile(p, c, b, rest, bases);
    }
  }

  /** The top-order blocks a freshly mapped region is carved into. */
  ghost function TopBlocks(base: nat): set<Block> {
    {Block(base, MAX_ORDER), Block(base + 0x10_0000, MAX_ORDER),
     Block(base + 0x20_0000, MAX_ORDER), Block(base + 0x30_0000, MAX_ORDER)}
  }

  lemma TopFit(base: nat, b: Block)
    requires base % REGION_BYTES == 0 && b in TopBlocks(base)
    ensures Fits(b, {base}) && RegionBase(b.addr) == base
    ensures BlockSize(b.order) == 0x10_0000
  {
    Sizes();
  }

  lemma TopOverlap(blocks: set<Block>, bases: set<nat>, base: nat)
    requires Tiles(blocks, bases) && base !in bases && base % REGION_BYTES == 0
    ensures blocks !! TopBlocks(base) && NoOverlap(blocks + TopBlocks(base))
  {
    var top := TopBlocks(base);
    forall b | b in top ensures Fits(b, {base}) && RegionBase(b.addr) == base && BlockSize(b.order) == 0x10_0000 {
      TopFit(base, b);
    }
    hide BlockSize;
    forall b, c | b in top && c in blocks ensures b != c && Disjoint(b, c) && Disjoint(c, b) {
      assert Fits(c, bases);
      ApartInRegions(b, c, bases + {base});
    }
    assert NoOverlap(top);
    assert NoOverlap(blocks);
    hide Disjoint, TopBlocks;
  }

  lemma TopGap(base: nat, x: nat)
    requires RegionBase(x) == base
    ensures Covered(TopBlocks(base), x)
  {
    Sizes();
    hide BlockSize;
    var d := x - base;
    var b := Block(if d < 0x10_0000 then base else if d < 0x20_0000 then base + 0x10_0000
                   else if d < 0x30_0000 then base + 0x20_0000 else base + 0x30_0000, MAX_ORDER);
    assert b in TopBlocks(base) && Covers(b, x);
  }

  lemma TilesGrow(blocks: set<Block>, bases: set<nat>, base: nat)
    requires Tiles(blocks, bases) && base !in bases && base % REGION_BYTES == 0
    ensures blocks !! TopBlocks(base)
    ensures Tiles(blocks + TopBlocks(base), bases + {base})
  {
    hide BlockSize, RegionBase, TopBlocks, Covered, Bytes, Fits;
    var top, bases' := TopBlocks(base), bases + {base};
    TopOverlap(blocks, bases, base);
    TopBytes(base);
    BytesUnion(blocks, top);
    forall b | b in top ensures Fits(b, bases') {
      TopFit(base, b);
      FitsMore(b, {base}, bases');
    }
    forall x: nat | RegionBase(x) in bases' ensures Covered(blocks + top, x) { GrowGap(blocks, bases, base, x); }
    hide NoOverlap;
    assert AllFit(blocks + top, bases') by {
      forall b | b in blocks ensures Fits(b, bases') { FitsMore(b, bases, bases'); }
    }
  }

  lemma FitsMore(b: Block, bases: set<nat>, more: set<nat>)
    requires Fits(b, bases) && bases <= more
    ensures Fits(b, more)
  {
  }

  lemma GrowGap(blocks: set<Block>, bases: set<nat>, base: nat, x: nat)
    requires NoGap(blocks, bases) && (RegionBase(x) == base || RegionBase(x) in bases)
    ensures Covered(blocks + TopBlocks(base), x)
  {
    if RegionBase(x) == base { TopGap(base, x); }
    hide TopBlocks, RegionBase, Covers;
    var b :| b in (if RegionBase(x) == base then TopBlocks(base) else blocks) && Covers(b, x);
    assert b in blocks + TopBlocks(base);
  }

  /** Blocks of different regions never overlap; the four top blocks of one region neither. */
  lemma ApartInRegions(b: Block, c: Block, bases: set<nat>)
    requires Fits(b, bases) && Fits(c, bases)
    requires RegionBase(b.addr) != RegionBase(c.addr)
    ensures Disjoint(b, c)
  {
    InsideRegion(b.addr, b.order);
    InsideRegion(c.addr, c.order);
    hide BlockSize;
  }

  lemma TopBytes(base: nat)
    ensures Bytes(TopBlocks(base)) == REGION_BYTES
  {
    assert BlockSize(MAX_ORDER) == 0x10_0000 by { Sizes(); }
    hide BlockSize, Bytes;
    NoBytes();
    var q := 0x10_0000;
    var a, b, c, d := Block(base, MAX_ORDER), Block(base + q, MAX_ORDER),
                      Block(base + 2 * q, MAX_ORDER), Block(base + 3 * q, MAX_ORDER);
    BytesAdd({}, a);
    BytesAdd({} + {a}, b);
    BytesAdd({} + {a} + {b}, c);
    BytesAdd({} + {a} + {b} + {c}, d);
    assert TopBlocks(base) == {} + {a} + {b} + {c} + {d};
  }

  lemma NoBytes()
    ensures Bytes({}) == 0
  {
  }
}
