/** The binary buddy allocator: a bitmap that is the truth about freeness, three access tiers
    over it, splitting on allocation, and merging that runs only inside bounded drains. */
module BuddyAllocator {
  import opened Wrappers
  import opened Bits
  import opened Blocks
  import opened Links
  import opened Tiling
  import opened BuddyTiers

  const OOB_DRAIN_AT: nat := 32

  ghost function BaseSet(regions: seq<nat>): set<nat> {
    set r | r in regions
  }

  ghost predicate Sorted(regions: seq<nat>) {
    && (forall i, j :: 0 <= i < j < |regions| ==> regions[i] < regions[j])
    && (forall i :: 0 <= i < |regions| ==> regions[i] > 0 && regions[i] % REGION_BYTES == 0)
  }

  /** Overwrite entry `i` of the row a table keeps for `base`. */
  function Entry<T>(table: map<nat, seq<T>>, base: nat, i: nat, v: T): map<nat, seq<T>>
    requires base in table && i < |table[base]|
  {
    table[base := table[base][i := v]]
  }

  /** `addr` is the first slot of the first region chained at out-of-band order index `oi`. */
  ghost predicate IsFront(chains: seq<seq<nat>>, slots: map<nat, seq<seq<nat>>>, oi: nat, addr: nat) {
    && oi < |chains| && chains[oi] != []
    && RegionBase(addr) == chains[oi][0]
    && RegionBase(addr) in slots && oi < |slots[RegionBase(addr)]| && slots[RegionBase(addr)][oi] != []
    && SlotOf(addr) + 1 == slots[RegionBase(addr)][oi][0]
  }

  /** The block an allocation of order `o` pops next: the newest of its cache row, else the head of
      its intrusive list; out of band, the front slot of the front region. */
  ghost predicate IsNext(cache: seq<seq<nat>>, nodes: seq<seq<nat>>, chains: seq<seq<nat>>, slots: map<nat,
      seq<seq<nat>>>,
                         o: nat, ptr: nat)
  {
    && o < |cache| && o < |nodes|
    && if o >= OOB_MIN_ORDER then IsFront(chains, slots, o - OOB_MIN_ORDER, ptr)
       else if cache[o] != [] then ptr == cache[o][|cache[o]| - 1]
       else nodes[o] != [] && ptr == nodes[o][0]
  }

  /** How one slot list changes, the block's order in the block's region; no other list does. */
  ghost predicate FiledFront(slots: map<nat, seq<seq<nat>>>, slots': map<nat, seq<seq<nat>>>, b: Block)
    requires b.order >= OOB_MIN_ORDER
  {
    var (base, oi) := (RegionBase(b.addr), b.order - OOB_MIN_ORDER);
    && base in slots && oi < |slots[base]|
    && slots' == slots[base := slots[base][oi := [SlotOf(b.addr) + 1] + slots[base][oi]]]
  }

  ghost predicate FiledBack(slots: map<nat, seq<seq<nat>>>, slots': map<nat, seq<seq<nat>>>, b: Block)
    requires b.order >= OOB_MIN_ORDER
  {
    var (base, oi) := (RegionBase(b.addr), b.order - OOB_MIN_ORDER);
    && base in slots && oi < |slots[base]|
    && slots' == slots[base := slots[base][oi := slots[base][oi] + [SlotOf(b.addr) + 1]]]
  }

  /** Exactly one tier receives the block, and how. */
  ghost predicate Stashed(cache: seq<seq<nat>>, cache': seq<seq<nat>>, nodes: seq<seq<nat>>, nodes': seq<seq<nat>>,
      slots: map<nat, seq<seq<nat>>>, slots': map<nat, seq<seq<nat>>>, b: Block)
  {
    && b.order < |cache| && b.order < |nodes|
    && if b.order >= OOB_MIN_ORDER then FiledFront(slots, slots', b) && cache' == cache && nodes' == nodes
       else if |cache[b.order]| < ORDER_CACHE then
         cache' == cache[b.order := cache[b.order] + [b.addr]] && nodes' == nodes && slots' == slots
       else nodes' == nodes[b.order := [b.addr] + nodes[b.order]] && cache' == cache && slots' == slots
  }

  /** No cache row has grown. */
  ghost predicate NoLonger(rows: seq<seq<nat>>, rows': seq<seq<nat>>) {
    |rows| == |rows'| == NUM_ORDERS && forall p :: 0 <= p < NUM_ORDERS ==> |rows'[p]| <= |rows[p]|
  }

  ghost predicate Unfiled(slots: map<nat, seq<seq<nat>>>, slots': map<nat, seq<seq<nat>>>, b: Block)
    requires b.order >= OOB_MIN_ORDER
  {
    var (base, oi) := (RegionBase(b.addr), b.order - OOB_MIN_ORDER);
    && base in slots && oi < |slots[base]| && base in slots' && oi < |slots'[base]|
    && slots' == slots[base := slots[base][oi := slots'[base][oi]]]
    && Without(slots[base][oi], slots'[base][oi], SlotOf(b.addr) + 1)
  }

  lemma UnfiledAt(slots: map<nat, seq<seq<nat>>>, b: Block, base: nat, oi: nat, list: seq<nat>)
    requires b.order == OOB_MIN_ORDER + oi && base == RegionBase(b.addr)
    requires base in slots && oi < |slots[base]| && Without(slots[base][oi], list, SlotOf(b.addr) + 1)
    ensures Unfiled(slots, slots[base := slots[base][oi := list]], b)
  {
    hide Without, RegionBase, SlotOf;
  }

  lemma FiledAt(slots: map<nat, seq<seq<nat>>>, b: Block, base: nat, oi: nat, enc: nat)
    requires b.order == OOB_MIN_ORDER + oi && base == RegionBase(b.addr) && enc == SlotOf(b.addr) + 1
    requires base in slots && oi < |slots[base]|
    ensures FiledFront(slots, slots[base := slots[base][oi := [enc] + slots[base][oi]]], b)
    ensures FiledBack(slots, slots[base := slots[base][oi := slots[base][oi] + [enc]]], b)
  {
    hide RegionBase, SlotOf;
  }

  /** The address lies in a free block that cannot merge any further. */
  ghost predicate Settled(free: set<Block>, addr: nat, order: nat) {
    exists b :: b in free && Covers(b, addr) && order <= b.order && (b.order < MAX_ORDER ==> Partner(b) !in free)
  }

  ghost predicate Within(b: Block, c: Block) {
    c.addr <= b.addr && End(b) <= End(c) && b.order <= c.order
  }

  /** Merging only: every block free before lies in one free after, and an address that was settled
      stays settled. */
  ghost predicate Coarser(before: set<Block>, after: set<Block>) {
    && (forall b :: b in before ==> Inside(b, after))
    && (forall x, k | Settled(before, x, k) :: Settled(after, x, k))
  }

  ghost predicate Inside(b: Block, blocks: set<Block>) {
    exists c :: c in blocks && Within(b, c)
  }

  /** What has left the free set lies in the block in hand. */
  ghost predicate Gone(before: set<Block>, others: set<Block>, b: Block) {
    others <= before && forall c :: c in before ==> c in others || Within(c, b)
  }

  /** The row lost only entries that are settled now, and gained none. */
  ghost predicate Drained(row: seq<nat>, row': seq<nat>, free: set<Block>, order: nat) {
    && (forall x :: x in row' ==> x in row)
    && (forall x :: x in row && x !in row' ==> Settled(free, x, order))
  }

  /** Rows only lose entries, and only such whose block is not free any more. */
  ghost predicate RowsLose(rows: seq<seq<nat>>, rows': seq<seq<nat>>, free: set<Block>) {
    && NoLonger(rows, rows')
    && forall o, x :: 0 <= o < NUM_ORDERS ==>
         (x in rows'[o] ==> x in rows[o]) && (x in rows[o] && x !in rows'[o] ==> Block(x, o) !in free)
  }

  lemma RowsLoseMore(a: seq<seq<nat>>, b: seq<seq<nat>>, c: seq<seq<nat>>, free: set<Block>, free': set<Block>)
    requires RowsLose(a, b, free) && RowsLose(b, c, free') && free' <= free
    ensures RowsLose(a, c, free')
  {
  }

  /** No block of the set starts at `addr`. */
  ghost predicate NoneAt(blocks: set<Block>, addr: nat) {
    forall b :: b in blocks ==> b.addr != addr
  }

  /** What the kernel, the metadata carve and the region registry together answer to a request
      for one more region: no, or a fresh aligned region nobody else has. */
  datatype Answer = Refused | Granted(base: nat)

  ghost predicate Fresh(answer: Answer, bases: set<nat>) {
    answer.Granted? ==> answer.base > 0 && answer.base % REGION_BYTES == 0 && answer.base !in bases
  }

  ghost function GrantedBases(answers: seq<Answer>): set<nat> {
    set i | 0 <= i < |answers| && answers[i].Granted? :: answers[i].base
  }

  /** The upper halves left behind when the block at `addr` is split from `top` to `order`. */
  ghost function Splits(addr: nat, order: nat, top: nat): set<Block> {
    set k: nat | order <= k < top :: Block(addr + BlockSize(k), k)
  }

  /** One order map per region, a byte per slot. */
  ghost predicate MapOk(orderMap: map<nat, seq<nat>>, bases: set<nat>) {
    orderMap.Keys == bases && forall base :: base in orderMap ==> |orderMap[base]| == SLOTS
  }

  /** Every live out-of-band block's order is in its region's order map. */
  ghost predicate OrdersRecorded(orderMap: map<nat, seq<nat>>, live: set<Block>) {
    forall b :: b in live && b.order >= OOB_MIN_ORDER ==>
      && RegionBase(b.addr) in orderMap && SlotOf(b.addr) < |orderMap[RegionBase(b.addr)]|
      && orderMap[RegionBase(b.addr)][SlotOf(b.addr)] == b.order
  }

  /** Drains are paid for by frees, never by standing free mass: at most 16 blocks examined per
      32 frees, at most `MAX_ORDER - order` merge steps per examined block. */
  ghost predicate Budget(frees: seq<nat>, examined: seq<nat>, merges: seq<nat>, pending: seq<nat>) {
    && |frees| == |examined| == |merges| == |pending| == OOB_ORDERS
    && forall i :: 0 <= i < OOB_ORDERS ==> WithinBudget(OOB_ORDERS - 1 - i, frees[i], examined[i], merges[i],
        pending[i])
  }

  ghost predicate WithinBudget(cap: nat, frees: nat, examined: nat, merges: nat, pending: nat) {
    && pending == frees % OOB_DRAIN_AT
    && examined <= OOB_DRAIN_AT / 2 * (frees / OOB_DRAIN_AT)
    && merges <= cap * examined
  }

  /** One free without, or with, a drain. */
  lemma BudgetStep(cap: nat, f: nat, x: nat, m: nat, p: nat, x': nat, m': nat)
    requires WithinBudget(cap, f, x, m, p)
    ensures p < OOB_DRAIN_AT
    ensures p + 1 < OOB_DRAIN_AT ==> (f + 1) % OOB_DRAIN_AT != 0 && WithinBudget(cap, f + 1, x, m, p + 1)
    ensures p + 1 == OOB_DRAIN_AT && x <= x' <= x + OOB_DRAIN_AT / 2 && m' - m <= cap * (x' - x) ==>
              (f + 1) % OOB_DRAIN_AT == 0 && WithinBudget(cap, f + 1, x', m', 0)
  {
    if p + 1 == OOB_DRAIN_AT && x <= x' <= x + OOB_DRAIN_AT / 2 && m' - m <= cap * (x' - x) {
      assert cap * x + cap * (x' - x) == cap * x';
    }
  }

  class BuddyHeap {
    /** Heads of the intrusive lists, and the list words stored in free blocks' own memory. */
    var freeLists: seq<nat>
    var nodePrev: map<nat, nat>
    var nodeNext: map<nat, nat>
    /** Per-order pointer stacks of at most `ORDER_CACHE` entries. */
    var cache: seq<seq<nat>>
    /** Per out-of-band order: first region of the chain, list length, pushes since a drain. */
    var oobRegionHeads: seq<nat>
    var oobLen: seq<nat>
    var oobPending: seq<nat>
    /** Region bases in ascending order, and the index the last lookup hit. */
    var regions: seq<nat>
    var lastRegion: nat
    /** Metadata of each region, by base. */
    var bitmap: map<nat, seq<bool>>
    var orderMap: map<nat, seq<nat>>
    var links: map<nat, SlotLinks>
    /** Chain links of each order, by base. */
    var rlPrev: seq<map<nat, nat>>
    var rlNext: seq<map<nat, nat>>
    var recordOrders: bool

    /** Blocks whose bit is set; blocks resident in a tier; blocks handed out or in the
        allocator's own hand in the middle of an operation. */
    ghost var free: set<Block>
    ghost var tiered: set<Block>
    ghost var live: set<Block>
    /** What the intrusive lists, the slot lists and the region chains spell out. */
    ghost var nodes: seq<seq<nat>>
    ghost var slots: map<nat, seq<seq<nat>>>
    ghost var chains: seq<seq<nat>>
    /** Per out-of-band order, since creation: frees, blocks drains examined, merge steps. */
    ghost var frees: seq<nat>
    ghost var examined: seq<nat>
    ghost var merges: seq<nat>

    ghost function Bases(): set<nat>
      reads `regions
    {
      BaseSet(regions)
    }

    /** Every tier is well formed and together they hold exactly `tiered`. */
    ghost predicate TiersOk()
      reads `regions, `nodePrev, `nodeNext, `freeLists, `nodes, `cache, `tiered
      reads `links, `slots, `chains, `oobLen, `rlPrev, `rlNext, `oobRegionHeads
    {
      && Sorted(regions)
      && RowsOk(nodePrev, nodeNext, freeLists, nodes, cache, tiered)
      && OobOk(links, slots, chains, oobLen, Bases(), tiered)
      && ChainLinks(rlPrev, rlNext, oobRegionHeads, chains)
    }

    /** The bitmap spells out `free`, and free and taken blocks tile the regions exactly. */
    ghost predicate CoreOk()
      reads `regions, `bitmap, `free, `live
    {
      && BitmapHolds(bitmap, Bases(), free)
      && Tiles(free + live, Bases())
      && free !! live
    }

    ghost predicate Ready()
      reads `regions, `nodePrev, `nodeNext, `freeLists, `nodes, `cache, `tiered
      reads `links, `slots, `chains, `oobLen, `rlPrev, `rlNext, `oobRegionHeads
      reads `bitmap, `free, `live
    {
      TiersOk() && CoreOk() && tiered == free
    }

    ghost predicate BudgetOk()
      reads `frees, `examined, `merges, `oobPending
    {
      Budget(frees, examined, merges, oobPending)
    }

    ghost predicate Valid()
      reads this
    {
      && Ready()
      && BudgetOk()
      && MapOk(orderMap, Bases())
      && (recordOrders ==> OrdersRecorded(orderMap, live))
    }

    // ---- region lookup -------------------------------------------------------------------

    /** First position whose base is not below `addr`. */
    method PartitionPoint(addr: nat) returns (p: nat)
      requires Sorted(regions)
      ensures p <= |regions|
      ensures forall i :: 0 <= i < p ==> regions[i] < addr
      ensures forall i :: p <= i < |regions| ==> addr <= regions[i]
    {
      var hi := |regions|;
      p := 0;
      while p < hi
        invariant p <= hi <= |regions|
        invariant forall i :: 0 <= i < p ==> regions[i] < addr
        invariant forall i :: hi <= i < |regions| ==> addr <= regions[i]
      {
        var mid := (p + hi) / 2;
        if regions[mid] < addr { p := mid + 1; } else { hi := mid; }
      }
    }

    /** The cached, binary-searched lookup finds a region exactly when a scan would, and then
        the only one whose base the address masks to. */
    method RegionIndexOf(addr: nat) returns (r: Option<nat>)
      requires Sorted(regions)
      modifies `lastRegion
      ensures r.None? <==> RegionBase(addr) !in regions
      ensures r.Some? ==> r.value < |regions| && regions[r.value] == RegionBase(addr)
      ensures r.Some? ==> forall i :: 0 <= i < |regions| && regions[i] == RegionBase(addr) ==> i == r.value
    {
      var masked := AndNot(addr, REGION_BYTES - 1);
      RegionBaseIsMask(addr);
      hide AndNot;
      if lastRegion < |regions| && regions[lastRegion] == masked {
        return Some(lastRegion);
      }
      var idx := PartitionPoint(masked);
      if idx < |regions| && regions[idx] == masked {
        lastRegion := idx;
        return Some(idx);
      }
      return None;
    }

    lemma AlignedBase(base: nat)
      requires Sorted(regions) && base in regions
      ensures RegionBase(base) == base > 0
    {
    }

    // ---- bitmap --------------------------------------------------------------------------

    method SetFreeBit(addr: nat, order: nat, idx: nat)
      requires BitmapHolds(bitmap, Bases(), free) && Fits(Block(addr, order), Bases())
      requires idx < |regions| && regions[idx] == RegionBase(addr)
      modifies `bitmap, `free
      ensures BitmapHolds(bitmap, Bases(), free)
      ensures free == old(free) + {Block(addr, order)}
    {
      BitsWrite(bitmap, Bases(), free, Block(addr, order), true);
      hide BlockSize, BitPos;
      var base := regions[idx];
      bitmap := Entry(bitmap, base, BitPos(Block(addr, order)), true);
      free := free + {Block(addr, order)};
    }

    method ClearFreeBit(addr: nat, order: nat, idx: nat)
      requires BitmapHolds(bitmap, Bases(), free) && Fits(Block(addr, order), Bases())
      requires idx < |regions| && regions[idx] == RegionBase(addr)
      modifies `bitmap, `free
      ensures BitmapHolds(bitmap, Bases(), free)
      ensures free == old(free) - {Block(addr, order)}
    {
      BitsWrite(bitmap, Bases(), free, Block(addr, order), false);
      hide BlockSize, BitPos;
      var base := regions[idx];
      bitmap := Entry(bitmap, base, BitPos(Block(addr, order)), false);
      free := free - {Block(addr, order)};
    }

    method IsFreeBit(addr: nat, order: nat, idx: nat) returns (r: bool)
      requires BitmapHolds(bitmap, Bases(), free) && Fits(Block(addr, order), Bases())
      requires idx < |regions| && regions[idx] == RegionBase(addr)
      ensures r <==> Block(addr, order) in free
    {
      hide BlockSize, BitPos;
      r := bitmap[regions[idx]][BitPos(Block(addr, order))];
    }

    // ---- intrusive lists -----------------------------------------------------------------

    method PushList(ptr: nat, order: nat)
      requires TiersOk() && order < OOB_MIN_ORDER
      requires Fits(Block(ptr, order), Bases()) && NoneAt(tiered, ptr)
      modifies `freeLists, `nodePrev, `nodeNext, `nodes, `tiered
      ensures TiersOk()
      ensures tiered == old(tiered) + {Block(ptr, order)}
      ensures order < |old(nodes)| && nodes == old(nodes)[order := [ptr] + old(nodes)[order]]
    {
      hide Linked, RowsHold, OobOk, Apart, BlockSize, RegionBase, ChainLinks;
      ghost var b := Block(ptr, order);
      InBase(b);
      RowUnlisted(cache, nodes, tiered, ptr);
      NodeListsPush(nodePrev, nodeNext, freeLists, nodes, order, ptr);
      RowsPushNode(cache, nodes, tiered, order, ptr);
      OobOkLow(links, slots, chains, oobLen, Bases(), tiered, b, true);
      HeadNull(nodePrev, nodeNext, nodes[order]);
      var head := freeLists[order];
      nodePrev := nodePrev[ptr := 0];
      nodeNext := nodeNext[ptr := head];
      if head != 0 {
        nodePrev := nodePrev[head := ptr];
      }
      freeLists := freeLists[order := ptr];
      nodes := nodes[order := [ptr] + nodes[order]];
      tiered := tiered + {b};
    }

    lemma InBase(b: Block)
      requires Sorted(regions) && Fits(b, Bases())
      ensures b.addr >= RegionBase(b.addr) > 0
      ensures RegionBase(b.addr) % REGION_BYTES == 0
    {
      hide BlockSize;
    }

    method Unlink(node: nat, order: nat) returns (ghost k: nat)
      requires NodeLists(nodePrev, nodeNext, freeLists, nodes) && order < NUM_ORDERS && node in nodes[order]
      modifies `freeLists, `nodePrev, `nodeNext, `nodes
      ensures NodeLists(nodePrev, nodeNext, freeLists, nodes)
      ensures k < |old(nodes)[order]| && old(nodes)[order][k] == node
      ensures nodes == old(nodes)[order := Drop(old(nodes)[order], k)]
    {
      hide Linked, Apart;
      ghost var list := nodes[order];
      k :| 0 <= k < |list| && list[k] == node;
      NodeMember(node, order, k);
      NodeListsCut(nodePrev, nodeNext, freeLists, nodes, order, k);
      CutEnds(list, k);
      var prev, next := nodePrev[node], nodeNext[node];
      hide Drop, NoDup;
      assert k > 0 ==> freeLists == freeLists[order := First(Drop(list, k))];
      if prev == 0 {
        freeLists := freeLists[order := next];
      } else {
        nodeNext := nodeNext[prev := next];
      }
      if next != 0 {
        nodePrev := nodePrev[next := prev];
      }
      nodes := nodes[order := Drop(list, k)];
    }

    /** What the code learns from the links of a listed node. */
    lemma NodeMember(node: nat, order: nat, k: nat)
      requires NodeLists(nodePrev, nodeNext, freeLists, nodes)
      requires order < NUM_ORDERS && k < |nodes[order]| && nodes[order][k] == node
      ensures node in nodePrev && node in nodeNext && NoDup(nodes[order])
      ensures nodePrev[node] == Before(nodes[order], k) && nodeNext[node] == After(nodes[order], k)
      ensures nodePrev[node] == 0 <==> k == 0
      ensures nodeNext[node] == 0 <==> k + 1 == |nodes[order]|
    {
      assert Linked(nodePrev, nodeNext, nodes[order]);
      Ends(nodePrev, nodeNext, nodes[order], k);
    }

    /** Unlink a block from its intrusive list and thereby from the tiers. */
    method TakeFromList(node: nat, order: nat)
      requires TiersOk() && order < OOB_MIN_ORDER && node in nodes[order]
      modifies `freeLists, `nodePrev, `nodeNext, `nodes, `tiered
      ensures TiersOk()
      ensures tiered == old(tiered) - {Block(node, order)}
      ensures |nodes| == |old(nodes)| && nodes == old(nodes)[order := nodes[order]]
                && Without(old(nodes)[order], nodes[order], node)
    {
      hide Linked, RowsHold, OobOk, Apart, BlockSize, ChainLinks, Drop, Fits;
      ghost var b := Block(node, order);
      InTiers(node, order);
      ghost var k := Unlink(node, order);
      RowsCutNode(cache, old(nodes), tiered, order, k);
      OobOkLow(links, slots, chains, oobLen, Bases(), tiered, b, false);
      tiered := tiered - {b};
    }

    lemma InTiers(node: nat, order: nat)
      requires TiersOk() && order < OOB_MIN_ORDER && node in nodes[order]
      ensures Block(node, order) in tiered && NoDup(nodes[order])
      ensures Fits(Block(node, order), Bases())
    {
      hide BlockSize;
      assert Linked(nodePrev, nodeNext, nodes[order]);
    }

    // ---- out-of-band lists ---------------------------------------------------------------

    method RegionListLink(idx: nat, oi: nat)
      requires Sorted(regions) && idx < |regions| && oi < OOB_ORDERS
      requires ChainLinks(rlPrev, rlNext, oobRegionHeads, chains)
      requires regions[idx] !in chains[oi] && forall base :: base in chains[oi] ==> base in regions
      modifies `rlPrev, `rlNext, `oobRegionHeads, `lastRegion, `chains
      ensures ChainLinks(rlPrev, rlNext, oobRegionHeads, chains)
      ensures chains == old(chains)[oi := [regions[idx]] + old(chains)[oi]]
    {
      hide Linked;
      var base := regions[idx];
      var headBase := oobRegionHeads[oi];
      PushFront(rlPrev[oi], rlNext[oi], chains[oi], base);
      HeadNull(rlPrev[oi], rlNext[oi], chains[oi]);
      rlPrev := rlPrev[oi := rlPrev[oi][base := 0]];
      rlNext := rlNext[oi := rlNext[oi][base := headBase]];
      if headBase != 0 {
        AlignedBase(headBase) by { assert headBase in chains[oi]; }
        var hidx := RegionIndexOf(headBase);
        rlPrev := rlPrev[oi := rlPrev[oi][regions[hidx.value] := base]];
      }
      oobRegionHeads := oobRegionHeads[oi := base];
      chains := chains[oi := [base] + chains[oi]];
    }

    method RegionListUnlink(idx: nat, oi: nat)
      requires Sorted(regions) && idx < |regions| && oi < OOB_ORDERS
      requires ChainLinks(rlPrev, rlNext, oobRegionHeads, chains)
      requires regions[idx] in chains[oi] && forall base :: base in chains[oi] ==> base in regions
      modifies `rlPrev, `rlNext, `oobRegionHeads, `lastRegion, `chains
      ensures ChainLinks(rlPrev, rlNext, oobRegionHeads, chains)
      ensures |chains| == |old(chains)| && forall i :: 0 <= i < |chains| && i != oi ==> chains[i] == old(chains)[i]
      ensures forall base :: base in chains[oi] <==> base in old(chains)[oi] && base != regions[idx]
    {
      hide Linked;
      var base := regions[idx];
      ghost var list := chains[oi];
      ghost var k :| 0 <= k < |list| && list[k] == base;
      ChainMember(oi, k);
      Cut(rlPrev[oi], rlNext[oi], list, k);
      CutEnds(list, k);
      DropMembers(list, k);
      hide Drop;
      var prevBase, nextBase := rlPrev[oi][base], rlNext[oi][base];
      if prevBase == 0 {
        oobRegionHeads := oobRegionHeads[oi := nextBase];
      } else {
        AlignedBase(prevBase) by { assert prevBase in list; }
        var pidx := RegionIndexOf(prevBase);
        rlNext := rlNext[oi := rlNext[oi][regions[pidx.value] := nextBase]];
      }
      if nextBase != 0 {
        AlignedBase(nextBase) by { assert nextBase in list; }
        var nidx := RegionIndexOf(nextBase);
        rlPrev := rlPrev[oi := rlPrev[oi][regions[nidx.value] := prevBase]];
      }
      chains := chains[oi := Drop(list, k)];
    }

    lemma ChainMember(oi: nat, k: nat)
      requires ChainLinks(rlPrev, rlNext, oobRegionHeads, chains) && oi < OOB_ORDERS && k < |chains[oi]|
      ensures var (list, base) := (chains[oi], chains[oi][k]);
        && NoDup(list) && base in rlPrev[oi] && base in rlNext[oi]
        && rlPrev[oi][base] == Before(list, k) && rlNext[oi][base] == After(list, k)
        && (rlPrev[oi][base] == 0 <==> k == 0) && (rlNext[oi][base] == 0 <==> k + 1 == |list|)
    {
      Ends(rlPrev[oi], rlNext[oi], chains[oi], k);
    }

    lemma BaseAt(idx: nat)
      requires idx < |regions|
      ensures regions[idx] in Bases()
      ensures forall base :: base in Bases() ==> base in regions
    {
    }

    /** Push a free block at the front of its region's list for the order. */
    method OobPush(ptr: nat, order: nat, idx: nat)
      requires TiersOk() && OOB_MIN_ORDER <= order <= MAX_ORDER
      requires Fits(Block(ptr, order), Bases()) && NoneAt(tiered, ptr)
      requires idx < |regions| && regions[idx] == RegionBase(ptr)
      modifies `links, `oobLen, `rlPrev, `rlNext, `oobRegionHeads, `lastRegion, `slots, `chains, `tiered
      ensures TiersOk()
      ensures tiered == old(tiered) + {Block(ptr, order)}
      ensures FiledFront(old(slots), slots, Block(ptr, order))
    {
      hide BlockSize, RowsOk, OobOk, ChainLinks, SlotLists, Fits, First, Last, Sorted, RegionBase, SlotOf, Bases,
           Unlisted;
      ghost var b := Block(ptr, order);
      var oi, base := order - OOB_MIN_ORDER, regions[idx];
      BaseAt(idx);
      var enc := SlotOf(ptr) + 1;
      SlotFacts(links, slots, chains, oobLen, Bases(), tiered, base, oi);
      FreeSlot(links, slots, chains, oobLen, Bases(), tiered, b, base, oi, enc);
      RowsOkHigh(b, true);
      var head := links[base].head[oi];
      var m := LinkFront(links[base], oi, enc, slots[base]);
      FiledAt(slots, b, base, oi, enc);
      hide FiledFront;
      if head == 0 {
        RegionListLink(idx, oi);
      }
      ghost var list := [enc] + slots[base][oi];
      StorePush(b, base, oi, enc, m, list, old(chains));
    }

    lemma RowsOkHigh(b: Block, add: bool)
      requires RowsOk(nodePrev, nodeNext, freeLists, nodes, cache, tiered) && b.order >= OOB_MIN_ORDER
      ensures RowsOk(nodePrev, nodeNext, freeLists, nodes, cache, if add then tiered + {b} else tiered - {b})
    {
      hide NodeLists;
      RowsHoldSame(cache, nodes, tiered, if add then tiered + {b} else tiered - {b});
    }

    /** Push a free block at the back: where a drain parks what it could not merge. */
    method OobPushTail(ptr: nat, order: nat, idx: nat)
      requires TiersOk() && OOB_MIN_ORDER <= order <= MAX_ORDER
      requires Fits(Block(ptr, order), Bases()) && NoneAt(tiered, ptr)
      requires idx < |regions| && regions[idx] == RegionBase(ptr)
      modifies `links, `oobLen, `rlPrev, `rlNext, `oobRegionHeads, `lastRegion, `slots, `chains, `tiered
      ensures TiersOk()
      ensures tiered == old(tiered) + {Block(ptr, order)}
      ensures FiledBack(old(slots), slots, Block(ptr, order))
    {
      hide BlockSize, RowsOk, OobOk, ChainLinks, SlotLists, Fits, First, Last, Sorted, RegionBase, SlotOf, Bases,
           Unlisted;
      ghost var b := Block(ptr, order);
      var oi, base := order - OOB_MIN_ORDER, regions[idx];
      BaseAt(idx);
      var enc := SlotOf(ptr) + 1;
      SlotFacts(links, slots, chains, oobLen, Bases(), tiered, base, oi);
      FreeSlot(links, slots, chains, oobLen, Bases(), tiered, b, base, oi, enc);
      RowsOkHigh(b, true);
      var tail := links[base].tail[oi];
      var m := LinkBack(links[base], oi, enc, slots[base]);
      FiledAt(slots, b, base, oi, enc);
      hide FiledBack;
      if tail == 0 {
        RegionListLink(idx, oi);
      }
      ghost var list := slots[base][oi] + [enc];
      StorePush(b, base, oi, enc, m, list, old(chains));
    }

    /** Take a known-free block off its slot list, and its region off the order's chain when
        the list runs empty. */
    method OobRemove(ptr: nat, order: nat, idx: nat)
      requires TiersOk() && OOB_MIN_ORDER <= order <= MAX_ORDER && Block(ptr, order) in tiered
      requires idx < |regions| && regions[idx] == RegionBase(ptr)
      modifies `links, `oobLen, `rlPrev, `rlNext, `oobRegionHeads, `lastRegion, `slots, `chains, `tiered
      ensures TiersOk()
      ensures tiered == old(tiered) - {Block(ptr, order)}
      ensures Unfiled(old(slots), slots, Block(ptr, order))
    {
      hide BlockSize, RowsOk, OobOk, ChainLinks, SlotLists, Fits, First, Last, NoDup, Without, Sorted, RegionBase,
           SlotOf, Bases;
      ghost var b := Block(ptr, order);
      var oi, base := order - OOB_MIN_ORDER, regions[idx];
      BaseAt(idx);
      var enc := SlotOf(ptr) + 1;
      TieredFits(b);
      SlotFacts(links, slots, chains, oobLen, Bases(), tiered, base, oi);
      UsedSlot(links, slots, chains, oobLen, Bases(), tiered, b, base, oi, enc);
      RowsOkHigh(b, false);
      ghost var lists: seq<seq<nat>> := slots[base];
      var m, list := LinkCut(links[base], oi, enc, lists);
      UnfiledAt(slots, b, base, oi, list);
      hide Unfiled;
      if m.head[oi] == 0 {
        RegionListUnlink(idx, oi);
      }
      StoreCut(b, base, oi, enc, m, list, old(chains));
    }

    /** Store a slot list that lost its slot, the chain being edited already. */
    method StoreCut(ghost b: Block, base: nat, oi: nat, ghost enc: nat, m: SlotLinks, ghost list: seq<nat>,
        ghost was: seq<seq<nat>>)
      requires Sorted(regions) && ChainLinks(rlPrev, rlNext, oobRegionHeads, chains)
      requires RowsOk(nodePrev, nodeNext, freeLists, nodes, cache, tiered - {b})
      requires OobOk(links, slots, was, oobLen, Bases(), tiered) && At(b, Bases(), base, oi, enc) && b in tiered
      requires base in links && base in slots && |slots[base]| == |oobLen| == OOB_ORDERS
      requires SlotLists(m, slots[base][oi := list]) && forall x :: x in list <==> x != enc && x in slots[base][oi]
      requires |chains| == |was| == OOB_ORDERS && forall i :: 0 <= i < OOB_ORDERS && i != oi ==> chains[i] == was[i]
      requires forall r :: r in chains[oi] <==> if r == base then list != [] else r in was[oi]
      modifies `links, `oobLen, `slots, `tiered
      ensures TiersOk() && tiered == old(tiered) - {b}
      ensures slots == old(slots)[base := old(slots)[base][oi := list]]
    {
      hide RowsOk, OobOk, ChainLinks, SlotLists, Sorted, Bases, Fits, RegionBase, SlotOf;
      OobOkCut(links, slots, was, oobLen, Bases(), tiered, b, base, oi, enc, m, list, chains[oi]);
      assert was[oi := chains[oi]] == chains;
      links, oobLen := links[base := m], oobLen[oi := oobLen[oi] - 1];
      slots, tiered := slots[base := slots[base][oi := list]], tiered - {b};
    }

    /** Store a slot list that gained a slot, the chain being edited already. */
    method StorePush(ghost b: Block, base: nat, oi: nat, ghost enc: nat, m: SlotLinks, ghost list: seq<nat>,
        ghost was: seq<seq<nat>>)
      requires Sorted(regions) && ChainLinks(rlPrev, rlNext, oobRegionHeads, chains)
      requires RowsOk(nodePrev, nodeNext, freeLists, nodes, cache, tiered + {b})
      requires OobOk(links, slots, was, oobLen, Bases(), tiered) && At(b, Bases(), base, oi, enc) && b !in tiered
      requires base in links && base in slots && |slots[base]| == |oobLen| == OOB_ORDERS
      requires SlotLists(m, slots[base][oi := list]) && forall x :: x in list <==> x == enc || x in slots[base][oi]
      requires |chains| == |was| == OOB_ORDERS && forall i :: 0 <= i < OOB_ORDERS && i != oi ==> chains[i] == was[i]
      requires forall r :: r in chains[oi] <==> r == base || r in was[oi]
      modifies `links, `oobLen, `slots, `tiered
      ensures TiersOk() && tiered == old(tiered) + {b}
      ensures slots == old(slots)[base := old(slots)[base][oi := list]]
    {
      hide RowsOk, OobOk, ChainLinks, SlotLists, Sorted, Bases, Fits, RegionBase, SlotOf;
      OobOkPush(links, slots, was, oobLen, Bases(), tiered, b, base, oi, enc, m, list, chains[oi]);
      assert was[oi := chains[oi]] == chains;
      links, oobLen := links[base := m], oobLen[oi := oobLen[oi] + 1];
      slots, tiered := slots[base := slots[base][oi := list]], tiered + {b};
    }

    lemma TieredFits(b: Block)
      requires TiersOk() && b in tiered
      ensures b.order >= OOB_MIN_ORDER ==> Fits(b, Bases())
    {
    }

    /** Pop the next block of an out-of-band order: first region of its chain, first slot of
        that region's list; None exactly when the order has no free block. */
    method OobPop(order: nat) returns (r: Option<nat>)
      requires TiersOk() && OOB_MIN_ORDER <= order <= MAX_ORDER
      modifies `links, `oobLen, `rlPrev, `rlNext, `oobRegionHeads, `lastRegion, `slots, `chains, `tiered
      ensures TiersOk()
      ensures r.None? <==> OfOrder(old(tiered), order) == {}
      ensures r.None? ==> tiered == old(tiered)
      ensures r.Some? ==> IsFront(old(chains), old(slots), order - OOB_MIN_ORDER, r.value)
      ensures r.Some? ==> Block(r.value, order) in old(tiered) && tiered == old(tiered) - {Block(r.value, order)}
      ensures r.Some? ==> Unfiled(old(slots), slots, Block(r.value, order))
    {
      hide BlockSize, RowsOk, OobOk, SlotLists, Fits, NoDup, OfOrder, Unfiled;
      var oi := order - OOB_MIN_ORDER;
      ghost var b := ChainHead(oi);
      var headBase := oobRegionHeads[oi];
      if headBase == 0 {
        return None;
      }
      hide ChainLinks;
      var idx := RegionIndexOf(headBase);
      var enc := links[headBase].head[oi];
      var slot := enc - 1;
      var ptr := headBase + slot * SLOT_BYTES;
      assert Block(ptr, order) == b;
      OobRemove(ptr, order, idx.value);
      return Some(ptr);
    }

    lemma ChainHead(oi: nat) returns (b: Block)
      requires TiersOk() && oi < OOB_ORDERS
      ensures |oobRegionHeads| == |chains| == OOB_ORDERS
      ensures oobRegionHeads[oi] == 0 <==> OfOrder(tiered, OOB_MIN_ORDER + oi) == {}
      ensures OfOrder(tiered, OOB_MIN_ORDER + oi) != {} ==>
        var base := oobRegionHeads[oi];
        && base in regions && RegionBase(base) == base
        && base in links && |links[base].head| == OOB_ORDERS && links[base].head[oi] > 0
        && b == SlotBlock(base, links[base].head[oi], oi)
        && b in tiered && RegionBase(b.addr) == base && IsFront(chains, slots, oi, b.addr)
    {
      hide BlockSize, RowsOk;
      HeadNull(rlPrev[oi], rlNext[oi], chains[oi]);
      ChainEmpty(chains, slots, Bases(), tiered, oi);
      if chains[oi] != [] {
        var base := chains[oi][0];
        assert base in chains[oi];
        SlotFacts(links, slots, chains, oobLen, Bases(), tiered, base, oi);
        var e := slots[base][oi][0];
        assert e in slots[base][oi];
        SlotBlockBase(base, e, oi);
        AlignedBase(base);
        b := SlotBlock(base, e, oi);
      } else {
        b := Block(0, 0);
      }
    }

    // ---- moving blocks between tiers and hand --------------------------------------------

    lemma BlockFacts(b: Block)
      requires CoreOk() && (b in free || b in live)
      ensures Fits(b, Bases()) && b.order <= MAX_ORDER && RegionBase(b.addr) in regions
      ensures b in live ==> b !in free && NoneAt(free, b.addr)
    {
      hide BlockSize, NoOverlap, NoGap, BitmapHolds;
      if b in live {
        forall c | c in free ensures c.addr != b.addr {
          if c.addr == b.addr { OneBlockPerAddress(free + live, Bases(), b, c); }
        }
      }
    }

    /** Record a block in hand as free: bit first, then its order's tier. */
    method StashFree(ptr: nat, order: nat, idx: nat)
      requires Ready() && Block(ptr, order) in live
      requires idx < |regions| && regions[idx] == RegionBase(ptr)
      modifies `bitmap, `free, `tiered, `live, `cache, `freeLists, `nodePrev, `nodeNext, `nodes
      modifies `links, `oobLen, `rlPrev, `rlNext, `oobRegionHeads, `lastRegion, `slots, `chains
      ensures Ready()
      ensures free == old(free) + {Block(ptr, order)} && live == old(live) - {Block(ptr, order)}
      ensures Stashed(old(cache), cache, old(nodes), nodes, old(slots), slots, Block(ptr, order))
    {
      hide BlockSize, Tiles, BitmapHolds, TiersOk, NoneAt, Stashed, Bases;
      ghost var b := Block(ptr, order);
      BlockFacts(b);
      hide Fits, RegionBase;
      SetFreeBit(ptr, order, idx);
      PushTier(ptr, order, idx);
      live := live - {b};
      assert free + live == old(free + live);
    }

    /** Into the tier of the block's order: out of band, the cache row while it has room, else the
        intrusive list. */
    method PushTier(ptr: nat, order: nat, idx: nat)
      requires TiersOk() && Fits(Block(ptr, order), Bases()) && NoneAt(tiered, ptr)
      requires idx < |regions| && regions[idx] == RegionBase(ptr)
      modifies `tiered, `cache, `freeLists, `nodePrev, `nodeNext, `nodes
      modifies `links, `oobLen, `rlPrev, `rlNext, `oobRegionHeads, `lastRegion, `slots, `chains
      ensures TiersOk() && tiered == old(tiered) + {Block(ptr, order)}
      ensures Stashed(old(cache), cache, old(nodes), nodes, old(slots), slots, Block(ptr, order))
    {
      hide TiersOk, BlockSize, RegionBase, NoneAt, FiledFront, Bases, Fits;
      TierShape(Block(ptr, order));
      if order >= OOB_MIN_ORDER {
        OobPush(ptr, order, idx);
      } else if |cache[order]| < ORDER_CACHE {
        PushRow(ptr, order);
      } else {
        PushList(ptr, order);
      }
    }

    lemma RowShape()
      requires TiersOk()
      ensures |cache| == |nodes| == |freeLists| == NUM_ORDERS
      ensures forall o :: 0 <= o < NUM_ORDERS ==> |cache[o]| <= ORDER_CACHE
      ensures forall o :: OOB_MIN_ORDER <= o < NUM_ORDERS ==> cache[o] == [] && freeLists[o] == 0
      ensures forall o :: 0 <= o < NUM_ORDERS ==> (freeLists[o] == 0 <==> nodes[o] == [])
    {
      hide OobOk, ChainLinks, Sorted;
      forall o | 0 <= o < NUM_ORDERS ensures freeLists[o] == 0 <==> nodes[o] == [] {
        HeadNull(nodePrev, nodeNext, nodes[o]);
      }
    }

    lemma RowCount()
      requires TiersOk()
      ensures |cache| == |nodes| == NUM_ORDERS
    {
      RowShape();
      hide TiersOk;
    }

    lemma TierShape(b: Block)
      requires TiersOk() && Fits(b, Bases())
      ensures b.order <= MAX_ORDER && |cache| == |nodes| == NUM_ORDERS
    {
      RowShape();
      hide TiersOk, BlockSize, RegionBase;
    }

    /** Push onto a cache row that has room. */
    method PushRow(ptr: nat, order: nat)
      requires TiersOk() && order < OOB_MIN_ORDER && |cache| == NUM_ORDERS && |cache[order]| < ORDER_CACHE
      requires Fits(Block(ptr, order), Bases()) && NoneAt(tiered, ptr)
      modifies `cache, `tiered
      ensures TiersOk()
      ensures tiered == old(tiered) + {Block(ptr, order)}
      ensures cache == old(cache)[order := old(cache)[order] + [ptr]]
    {
      hide BlockSize, NodeLists, OobOk, ChainLinks, Sorted, RowsHold;
      RowUnlisted(cache, nodes, tiered, ptr);
      RowsPushCache(cache, nodes, tiered, order, ptr);
      OobOkLow(links, slots, chains, oobLen, Bases(), tiered, Block(ptr, order), true);
      cache := cache[order := cache[order] + [ptr]];
      tiered := tiered + {Block(ptr, order)};
    }

    /** Swap-remove entry `i` of a cache row; for the last entry this is a pop. */
    method TakeFromRow(order: nat, i: nat)
      requires TiersOk() && order < OOB_MIN_ORDER && |cache| == NUM_ORDERS && i < |cache[order]|
      modifies `cache, `tiered
      ensures TiersOk()
      ensures Block(old(cache)[order][i], order) in old(tiered)
      ensures tiered == old(tiered) - {Block(old(cache)[order][i], order)}
      ensures cache == old(cache)[order := SwapRemove(old(cache)[order], i)]
    {
      hide BlockSize, OobOk, ChainLinks, Sorted, NodeLists, SwapRemove, RowsHold;
      InRow(order, i);
      var row := cache[order];
      ghost var b := Block(row[i], order);
      RowsDropCache(cache, nodes, tiered, order, i);
      OobOkLow(links, slots, chains, oobLen, Bases(), tiered, b, false);
      assert row[i := row[|row| - 1]][..|row| - 1] == SwapRemove(row, i) by { RowSwap(row, i); }
      cache := cache[order := row[i := row[|row| - 1]][..|row| - 1]];
      tiered := tiered - {b};
    }

    lemma RowSwap(row: seq<nat>, i: nat)
      requires i < |row|
      ensures row[i := row[|row| - 1]][..|row| - 1] == SwapRemove(row, i)
    {
    }

    lemma InRow(order: nat, i: nat)
      requires TiersOk() && order < OOB_MIN_ORDER && |cache| == NUM_ORDERS && i < |cache[order]|
      ensures Block(cache[order][i], order) in tiered && Fits(Block(cache[order][i], order), Bases())
    {
      hide BlockSize, NodeLists;
    }

    /** Take a known-free block out of whichever tier holds it. */
    method RemoveFree(ptr: nat, order: nat)
      requires TiersOk() && Block(ptr, order) in tiered && order <= MAX_ORDER
      requires RegionBase(ptr) in regions
      modifies `tiered, `cache, `freeLists, `nodePrev, `nodeNext, `nodes
      modifies `links, `oobLen, `rlPrev, `rlNext, `oobRegionHeads, `lastRegion, `slots, `chains
      ensures TiersOk()
      ensures tiered == old(tiered) - {Block(ptr, order)}
      ensures RowsLose(old(cache), cache, tiered)
    {
      hide BlockSize, RowsOk, OobOk, ChainLinks, Sorted, Fits, RegionBase, RowsLose;
      RowShape();
      NoneLost(cache, tiered - {Block(ptr, order)});
      for i := 0 to |cache[order]|
        invariant TiersOk() && ptr !in cache[order][..i]
        invariant |cache| == NUM_ORDERS && cache == old(cache) && tiered == old(tiered)
      {
        if cache[order][i] == ptr {
          LowRow(order);
          RowApart(order);
          OneLost(cache, order, i, tiered - {Block(ptr, order)});
          TakeFromRow(order, i);
          return;
        }
      }
      assert ptr !in cache[order];
      if order >= OOB_MIN_ORDER {
        var idx := RegionIndexOf(ptr);
        OobRemove(ptr, order, idx.value);
      } else {
        OnList(ptr, order);
        TakeFromList(ptr, order);
      }
    }

    lemma RowApart(order: nat)
      requires TiersOk() && order <= MAX_ORDER && |cache| == NUM_ORDERS
      ensures NoDup(cache[order])
    {
    }

    lemma LowRow(order: nat)
      requires TiersOk() && order <= MAX_ORDER && |cache| == NUM_ORDERS && cache[order] != []
      ensures order < OOB_MIN_ORDER
    {
    }

    lemma OnList(ptr: nat, order: nat)
      requires TiersOk() && order < OOB_MIN_ORDER && Block(ptr, order) in tiered && |cache| == |nodes| == NUM_ORDERS
      requires ptr !in cache[order]
      ensures ptr in nodes[order]
    {
      hide BlockSize, NodeLists;
    }

    // ---- merging -------------------------------------------------------------------------

    /** Absorb a free buddy: take it out of its tier, clear its bit, and hold the parent instead. */
    method Absorb(b: Block, idx: nat) returns (p: Block)
      requires Ready() && b in live && b.order < MAX_ORDER && Partner(b) in free
      requires idx < |regions| && regions[idx] == RegionBase(b.addr)
      modifies `bitmap, `free, `tiered, `live, `cache, `freeLists, `nodePrev, `nodeNext, `nodes
      modifies `links, `oobLen, `rlPrev, `rlNext, `oobRegionHeads, `lastRegion, `slots, `chains
      ensures Ready()
      ensures p == Parent(b) && p !in old(free) + old(live) && RegionBase(p.addr) == RegionBase(b.addr)
      ensures free == old(free) - {Partner(b)} && live == old(live) - {b} + {p}
      ensures Within(b, p) && Within(Partner(b), p)
      ensures RowsLose(old(cache), cache, free)
    {
      hide BlockSize, Tiles, BitmapHolds, RowsOk, OobOk, ChainLinks, Sorted, Fits, RegionBase, BuddyOf, ParentOf,
           RowsLose, Within;
      ghost var tiles := free + live;
      var buddy := BuddyOf(b.addr, b.order);
      MergeFacts(b);
      HalvesWithin(b, Bases());
      TilesMerge(tiles, Bases(), b);
      RemoveFree(buddy, b.order);
      ClearFreeBit(buddy, b.order, idx);
      p := Block(ParentOf(b.addr, b.order), b.order + 1);
      live := live - {b} + {p};
      assert free + live == tiles - {b, Partner(b)} + {p};
    }

    lemma RowsAsLong()
      requires TiersOk()
      ensures RowsLose(cache, cache, free)
    {
      RowShape();
      hide TiersOk;
      NoneLost(cache, free);
    }

    /** Merge a block in hand upward while its buddy is free. The result cannot merge further;
        nothing but absorbed buddies leaves the free set. */
    method MergeUp(addr: nat, order: nat, idx: nat) returns (a: nat, o: nat)
      requires Ready() && Block(addr, order) in live && order <= MAX_ORDER
      requires idx < |regions| && regions[idx] == RegionBase(addr)
      modifies `bitmap, `free, `tiered, `live, `cache, `freeLists, `nodePrev, `nodeNext, `nodes
      modifies `links, `oobLen, `rlPrev, `rlNext, `oobRegionHeads, `lastRegion, `slots, `chains
      ensures Ready()
      ensures order <= o <= MAX_ORDER && RegionBase(a) == RegionBase(addr)
      ensures Block(a, o) in live && live == old(live) - {Block(addr, order)} + {Block(a, o)}
      ensures Block(a, o) !in old(live) - {Block(addr, order)}
      ensures Gone(old(free), free, Block(a, o)) && Within(Block(addr, order), Block(a, o))
      ensures o < MAX_ORDER ==> Partner(Block(a, o)) !in free && Partner(Block(a, o)) != Block(a, o)
      ensures o == order ==> a == addr && free == old(free) && slots == old(slots) && nodes == old(nodes)
      ensures RowsLose(old(cache), cache, free)
    {
      hide BlockSize, TiersOk, CoreOk, BitmapHolds, Fits, RegionBase, BuddyOf, ParentOf, RowsLose, Gone, Within;
      RowsAsLong();
      a, o := addr, order;
      NothingGone(free, Block(addr, order));
      while o < MAX_ORDER
        invariant Ready() && order <= o <= MAX_ORDER
        invariant RegionBase(a) == RegionBase(addr)
        invariant Block(a, o) in live && live == old(live) - {Block(addr, order)} + {Block(a, o)}
        invariant Block(a, o) !in old(live) - {Block(addr, order)}
        invariant Gone(old(free), free, Block(a, o)) && Within(Block(addr, order), Block(a, o))
        invariant o == order ==> a == addr && free == old(free) && slots == old(slots) && nodes == old(nodes)
        invariant RowsLose(old(cache), cache, free)
      {
        var buddy := BuddyOf(a, o);
        MergeFacts(Block(a, o));
        BitsOk();
        var isFree := IsFreeBit(buddy, o, idx);
        if !isFree {
          break;
        }
        ghost var rows, others := cache, free;
        var p := Absorb(Block(a, o), idx);
        RowsLoseMore(old(cache), rows, cache, others, free);
        GoneMore(old(free), others, Block(a, o), p, Block(addr, order));
        a, o := p.addr, p.order;
      }
    }

    lemma BitsOk()
      requires CoreOk()
      ensures BitmapHolds(bitmap, Bases(), free)
    {
      hide BitmapHolds;
    }

    lemma MergeFacts(b: Block)
      requires CoreOk() && b in live && b.order < MAX_ORDER
      ensures Fits(b, Bases())
      ensures Fits(Partner(b), Bases()) && RegionBase(BuddyOf(b.addr, b.order)) == RegionBase(b.addr)
      ensures RegionBase(ParentOf(b.addr, b.order)) == RegionBase(b.addr) && RegionBase(b.addr) in regions
      ensures Partner(b) != b
    {
      BlockFacts(b);
      assert Fits(b, Bases());
      BuddyGeometry(b.addr, b.order);
      hide BlockSize, BuddyOf, ParentOf;
    }

    /** A block just popped from its tier comes into the allocator's hand. */
    method TakeInHand(ptr: nat, order: nat) returns (idx: nat)
      requires TiersOk() && CoreOk() && Block(ptr, order) in free && tiered == free - {Block(ptr, order)}
      modifies `lastRegion, `bitmap, `free, `live
      ensures Ready()
      ensures free == old(free) - {Block(ptr, order)} && live == old(live) + {Block(ptr, order)}
      ensures idx < |regions| && regions[idx] == RegionBase(ptr)
    {
      hide BlockSize, Tiles, BitmapHolds, RowsOk, OobOk, ChainLinks, Sorted, RegionBase, Fits;
      BlockFacts(Block(ptr, order));
      var r := RegionIndexOf(ptr);
      idx := r.value;
      ClearFreeBit(ptr, order, idx);
      live := live + {Block(ptr, order)};
      assert free + live == old(free + live);
    }

    /** An unmerged block goes to the intrusive list, never back into the row being drained. */
    method ParkOnList(ptr: nat, order: nat, idx: nat)
      requires Ready() && Block(ptr, order) in live && order < OOB_MIN_ORDER
      requires idx < |regions| && regions[idx] == RegionBase(ptr)
      modifies `bitmap, `free, `tiered, `live, `freeLists, `nodePrev, `nodeNext, `nodes
      ensures Ready()
      ensures free == old(free) + {Block(ptr, order)} && live == old(live) - {Block(ptr, order)}
      ensures order < |old(nodes)| && nodes == old(nodes)[order := [ptr] + old(nodes)[order]]
    {
      hide BlockSize, Tiles, BitmapHolds, RowsOk, OobOk, ChainLinks, Sorted, Fits, RegionBase;
      BlockFacts(Block(ptr, order));
      SetFreeBit(ptr, order, idx);
      PushList(ptr, order);
      live := live - {Block(ptr, order)};
      assert free + live == old(free + live);
    }

    /** An unmerged out-of-band block goes to the tail, out of the next drain's way. */
    method ParkAtTail(ptr: nat, order: nat, idx: nat)
      requires Ready() && Block(ptr, order) in live && OOB_MIN_ORDER <= order <= MAX_ORDER
      requires idx < |regions| && regions[idx] == RegionBase(ptr)
      modifies `bitmap, `free, `tiered, `live
      modifies `links, `oobLen, `rlPrev, `rlNext, `oobRegionHeads, `lastRegion, `slots, `chains
      ensures Ready()
      ensures free == old(free) + {Block(ptr, order)} && live == old(live) - {Block(ptr, order)}
      ensures FiledBack(old(slots), slots, Block(ptr, order))
    {
      hide BlockSize, Tiles, BitmapHolds, RowsOk, OobOk, ChainLinks, Sorted, Fits, RegionBase, FiledBack;
      BlockFacts(Block(ptr, order));
      SetFreeBit(ptr, order, idx);
      OobPushTail(ptr, order, idx);
      live := live - {Block(ptr, order)};
      assert free + live == old(free + live);
    }

    /** A drained block goes to the intrusive list unmerged, or to its new order's tier. */
    method FileDrained(addr: nat, o: nat, order: nat, idx: nat)
      requires Ready() && Block(addr, o) in live && order < OOB_MIN_ORDER && order <= o <= MAX_ORDER
      requires idx < |regions| && regions[idx] == RegionBase(addr)
      modifies `bitmap, `free, `tiered, `live, `cache, `freeLists, `nodePrev, `nodeNext, `nodes
      modifies `links, `oobLen, `rlPrev, `rlNext, `oobRegionHeads, `lastRegion, `slots, `chains
      ensures Ready()
      ensures free == old(free) + {Block(addr, o)} && live == old(live) - {Block(addr, o)}
      ensures order < |cache| == |old(cache)| && cache[order] == old(cache)[order]
      ensures o == order ==> order < |old(nodes)| && nodes == old(nodes)[order := [addr] + old(nodes)[order]]
    {
      hide BlockSize, TiersOk, CoreOk, RegionBase, FiledFront;
      RowShape();
      if o == order {
        ParkOnList(addr, o, idx);
      } else {
        StashFree(addr, o, idx);
      }
    }

    /** Pop the top of a cache row and merge it as far as it goes. The row only shrinks. */
    method DrainRowTop(order: nat)
      requires Ready() && order < OOB_MIN_ORDER && |cache| == NUM_ORDERS && cache[order] != []
      modifies `bitmap, `free, `tiered, `live, `cache, `freeLists, `nodePrev, `nodeNext, `nodes
      modifies `links, `oobLen, `rlPrev, `rlNext, `oobRegionHeads, `lastRegion, `slots, `chains
      ensures Ready()
      ensures live == old(live)
      ensures |cache| == NUM_ORDERS && |cache[order]| < |old(cache)[order]|
      ensures |old(cache)| == NUM_ORDERS && Settled(free, old(cache)[order][|old(cache)[order]| - 1], order)
      ensures Drained(old(cache)[order], cache[order], free, order) && Coarser(old(free), free)
    {
      hide BlockSize, Tiles, BitmapHolds, RowsOk, OobOk, ChainLinks, Sorted, Fits, RegionBase, Settled, Coarser,
           Drained, Gone, Within, RowsLose, SwapRemove;
      AllFree();
      RowApart(order);
      RowFree(order);
      ghost var rows := cache;
      var len := |cache[order]|;
      var ptr := cache[order][len - 1];
      TakeFromRow(order, len - 1);
      ghost var popped := cache;
      var idx := TakeInHand(ptr, order);
      var addr, o := MergeUp(ptr, order, idx);
      ghost var others, b := free, Block(addr, o);
      GoneToo(old(free), Block(ptr, order), others, b);
      RowDrained(rows[order], popped, cache, order, old(free), others, b);
      FileDrained(addr, o, order, idx);
      SettledNow(others, b, ptr, order);
      CoarserNow(old(free), Bases(), others, b);
    }

    lemma AllFree()
      requires CoreOk()
      ensures AllFit(free, Bases())
    {
      hide Fits;
    }

    /** Row entries are free blocks. */
    lemma RowFree(order: nat)
      requires Ready() && order < OOB_MIN_ORDER && |cache| == NUM_ORDERS
      ensures forall x :: x in cache[order] ==> Block(x, order) in free
    {
      hide BlockSize, NodeLists, OobOk, ChainLinks, CoreOk;
    }

    /** Drain up to `count` entries of a cache row. Nothing drained comes back to the row, so a
        full row is left with room. */
    method MergeDrainRow(order: nat, count: nat)
      requires Ready() && order <= MAX_ORDER
      modifies `bitmap, `free, `tiered, `live, `cache, `freeLists, `nodePrev, `nodeNext, `nodes
      modifies `links, `oobLen, `rlPrev, `rlNext, `oobRegionHeads, `lastRegion, `slots, `chains
      ensures Ready()
      ensures live == old(live)
      ensures |cache| == |old(cache)| == NUM_ORDERS
      ensures |cache[order]| <= if |old(cache)[order]| < count then 0 else |old(cache)[order]| - count
      ensures Drained(old(cache)[order], cache[order], free, order) && Coarser(old(free), free)
    {
      hide TiersOk, CoreOk, Settled, Drained, Coarser;
      RowShape();
      NothingDrained(cache[order], free, order);
      for i := 0 to count
        invariant Ready() && live == old(live) && |cache| == NUM_ORDERS
        invariant Drained(old(cache)[order], cache[order], free, order) && Coarser(old(free), free)
        invariant |cache[order]| <= if |old(cache)[order]| < i then 0 else |old(cache)[order]| - i
      {
        if |cache[order]| == 0 {
          break;
        }
        LowRow(order);
        ghost var row, was := cache[order], free;
        DrainRowTop(order);
        DrainedMore(old(cache)[order], row, cache[order], old(free), was, free, order);
      }
    }

    /** Drain up to `count` blocks of an out-of-band order, from the fresh end of the chain. */
    method OobDrain(order: nat, count: nat) returns (ghost seen: seq<nat>)
      requires Ready() && OOB_MIN_ORDER <= order <= MAX_ORDER
      requires |examined| == |merges| == OOB_ORDERS
      modifies `bitmap, `free, `tiered, `live, `cache, `freeLists, `nodePrev, `nodeNext, `nodes
      modifies `links, `oobLen, `rlPrev, `rlNext, `oobRegionHeads, `lastRegion, `slots, `chains
      modifies `examined, `merges
      ensures Ready()
      ensures live == old(live)
      ensures |examined| == |merges| == OOB_ORDERS
      ensures var oi := order - OOB_MIN_ORDER;
        && old(examined)[oi] <= examined[oi] <= old(examined)[oi] + count
        && merges[oi] - old(merges)[oi] <= (OOB_ORDERS - 1 - oi) * (examined[oi] - old(examined)[oi])
        && forall i :: 0 <= i < OOB_ORDERS && i != oi ==>
             examined[i] == old(examined)[i] && merges[i] == old(merges)[i]
      ensures examined[order - OOB_MIN_ORDER]
                == old(examined)[order - OOB_MIN_ORDER] + count || OfOrder(free, order) == {}
      ensures |seen| == examined[order - OOB_MIN_ORDER] - old(examined)[order - OOB_MIN_ORDER]
      ensures (forall x :: x in seen ==> Settled(free, x, order)) && Coarser(old(free), free)
    {
      hide TiersOk, CoreOk, OfOrder, Settled, FiledBack, IsFront, Unfiled, Coarser;
      ghost var oi := order - OOB_MIN_ORDER;
      seen := [];
      NothingDrained([], free, order);
      for n := 0 to count
        invariant Ready() && live == old(live)
        invariant |examined| == |merges| == OOB_ORDERS
        invariant examined[oi] == old(examined)[oi] + n
        invariant |seen| == n && (forall x :: x in seen ==> Settled(free, x, order)) && Coarser(old(free), free)
        invariant merges[oi] - old(merges)[oi] <= (OOB_ORDERS - 1 - oi) * (examined[oi] - old(examined)[oi])
        invariant forall i :: 0 <= i < OOB_ORDERS && i != oi ==>
                    examined[i] == old(examined)[i] && merges[i] == old(merges)[i]
      {
        var r := OobPop(order);
        if r.None? {
          break;
        }
        ghost var was := free;
        ghost var steps := MergePopped(r.value, order);
        SeenMore(seen, old(free), was, free, order);
        seen := seen + [r.value];
        AddOnce(OOB_ORDERS - 1 - oi, examined[oi] - old(examined)[oi]);
        examined := examined[oi := examined[oi] + 1];
        merges := merges[oi := merges[oi] + steps];
      }
    }

    lemma AddOnce(c: nat, x: nat)
      ensures c * (x + 1) == c * x + c
    {
    }

    /** Merge a block just popped from an out-of-band order as far as it goes. */
    method MergePopped(ptr: nat, order: nat) returns (ghost steps: nat)
      requires TiersOk() && CoreOk() && Block(ptr, order) in free && tiered == free - {Block(ptr, order)}
      requires OOB_MIN_ORDER <= order <= MAX_ORDER
      modifies `bitmap, `free, `tiered, `live, `cache, `freeLists, `nodePrev, `nodeNext, `nodes
      modifies `links, `oobLen, `rlPrev, `rlNext, `oobRegionHeads, `lastRegion, `slots, `chains
      ensures Ready()
      ensures live == old(live)
      ensures steps <= MAX_ORDER - order
      ensures Settled(free, ptr, order) && Coarser(old(free), free)
      ensures steps == 0 ==> FiledBack(old(slots), slots, Block(ptr, order))
    {
      hide BlockSize, Tiles, BitmapHolds, RowsOk, OobOk, ChainLinks, Sorted, Fits, RegionBase, Settled, FiledBack,
           Coarser, Gone, Within, RowsLose;
      AllFree();
      var idx := TakeInHand(ptr, order);
      var addr, o := MergeUp(ptr, order, idx);
      steps := o - order;
      ghost var others, b := free, Block(addr, o);
      GoneToo(old(free), Block(ptr, order), others, b);
      if o == order {
        ParkAtTail(addr, o, idx);
      } else {
        StashFree(addr, o, idx);
      }
      SettledNow(others, b, ptr, order);
      CoarserNow(old(free), Bases(), others, b);
    }

    // ---- mapping a region ----------------------------------------------------------------

    /** Map a region, insert it in order, and carve it into its top-order blocks. */
    method Refill(answer: Answer) returns (ok: bool)
      requires Ready() && Fresh(answer, Bases())
      requires MapOk(orderMap, Bases())
      modifies `regions, `orderMap
      modifies `bitmap, `free, `tiered, `live, `cache, `freeLists, `nodePrev, `nodeNext, `nodes
      modifies `links, `oobLen, `rlPrev, `rlNext, `oobRegionHeads, `lastRegion, `slots, `chains
      ensures Ready()
      ensures ok <==> answer.Granted?
      ensures live == old(live)
      ensures !ok ==> regions == old(regions) && free == old(free) && orderMap == old(orderMap)
      ensures ok ==> Bases() == old(Bases()) + {answer.base} && |regions| == |old(regions)| + 1
      ensures ok ==> free == old(free) + TopBlocks(answer.base) && old(free) !! TopBlocks(answer.base)
      ensures MapOk(orderMap, Bases()) && (ok ==> answer.base !in old(orderMap))
      ensures forall base :: base in old(orderMap) ==> base in orderMap && orderMap[base] == old(orderMap)[base]
    {
      hide TiersOk, CoreOk, RegionBase, TopBlocks, BlockSize, Bases;
      if answer.Refused? {
        return false;
      }
      var base := answer.base;
      var idx := InsertRegion(base);
      orderMap := orderMap[base := seq(SLOTS, i => 0)];
      CarveTop(base, idx);
      ok := true;
      assert live == old(live);
    }

    /** Move a fresh region's top-order blocks from hand to the free tiers, in address order. */
    method CarveTop(base: nat, idx: nat)
      requires Ready() && TopBlocks(base) <= live
      requires idx < |regions| && regions[idx] == base && base % REGION_BYTES == 0
      modifies `bitmap, `free, `tiered, `live, `cache, `freeLists, `nodePrev, `nodeNext, `nodes
      modifies `links, `oobLen, `rlPrev, `rlNext, `oobRegionHeads, `lastRegion, `slots, `chains
      ensures Ready()
      ensures live == old(live) - TopBlocks(base) && free == old(free) + TopBlocks(base)
    {
      hide TiersOk, CoreOk, TopBlocks, RegionBase, Below;
      var off := 0;
      TopBelow(base, 0);
      while off < REGION_BYTES
        invariant Ready() && off % 0x10_0000 == 0 && off <= REGION_BYTES
        invariant live == old(live) - Below(base, off) && free == old(free) + Below(base, off)
      {
        TopBelow(base, off);
        StashFree(base + off, MAX_ORDER, idx);
        off := off + 0x10_0000;
      }
      TopBelow(base, off);
    }

    method InsertBase(base: nat) returns (idx: nat)
      requires Sorted(regions) && base !in Bases() && base > 0 && base % REGION_BYTES == 0
      modifies `regions, `lastRegion
      ensures Sorted(regions) && Bases() == old(Bases()) + {base} && |regions| == |old(regions)| + 1
      ensures idx < |regions| && regions[idx] == base
    {
      idx := PartitionPoint(base);
      InsertSorted(regions, base, idx);
      hide Sorted;
      regions := regions[..idx] + [base] + regions[idx..];
      lastRegion := idx;
    }

    /** Sorted insertion of a fresh region with zeroed metadata; its blocks are in hand. */
    method InsertRegion(base: nat) returns (idx: nat)
      requires Ready() && Fresh(Granted(base), Bases())
      modifies `regions, `bitmap, `links, `slots, `lastRegion, `live
      ensures Ready()
      ensures idx < |regions| && regions[idx] == base
      ensures Bases() == old(Bases()) + {base} && |regions| == |old(regions)| + 1
      ensures old(free + live) !! TopBlocks(base) && live == old(live) + TopBlocks(base)
    {
      hide Tiles, BitmapHolds, RowsOk, OobOk, ChainLinks, Fits, BlockSize, TopBlocks, Sorted, NoLists, ZeroBits,
           ZeroLinks, Bases;
      ghost var bases := Bases();
      idx := InsertBase(base);
      MapMetadata(base, bases);
      MapTop(base, bases);
    }

    /** A zeroed bitmap and zeroed slot links for the new region. */
    method MapMetadata(base: nat, ghost bases: set<nat>)
      requires Sorted(regions) && Bases() == bases + {base} && Fresh(Granted(base), bases)
      requires RowsOk(nodePrev, nodeNext, freeLists, nodes, cache, tiered)
      requires OobOk(links, slots, chains, oobLen, bases, tiered)
      requires ChainLinks(rlPrev, rlNext, oobRegionHeads, chains) && BitmapHolds(bitmap, bases, free)
      modifies `bitmap, `links, `slots
      ensures TiersOk() && BitmapHolds(bitmap, Bases(), free)
    {
      hide BitmapHolds, RowsOk, OobOk, ChainLinks, Sorted, NoLists, ZeroBits, ZeroLinks, Bases;
      var bits := ZeroBits();
      BitmapGrow(bitmap, bases, free, base, bits);
      var m := ZeroLinks();
      OobOkGrow(links, slots, chains, oobLen, bases, tiered, base, m);
      bitmap, links, slots := bitmap[base := bits], links[base := m], slots[base := NoLists()];
    }

    /** The region's top-order blocks come into the allocator's hand. */
    ghost method MapTop(base: nat, bases: set<nat>)
      requires TiersOk() && BitmapHolds(bitmap, Bases(), free) && Tiles(free + live, bases) && free !! live
      requires Bases() == bases + {base} && Fresh(Granted(base), bases) && tiered == free
      modifies `live
      ensures Ready() && old(free + live) !! TopBlocks(base) && live == old(live) + TopBlocks(base)
    {
      hide TiersOk, BitmapHolds, Tiles, TopBlocks, Bases;
      TilesGrow(free + live, bases, base);
      live := live + TopBlocks(base);
      assert free + live == old(free + live) + TopBlocks(base);
    }

    // ---- allocation ----------------------------------------------------------------------

    /** A level is empty in every tier exactly when no free block has its order. */
    lemma LevelEmpty(o: nat)
      requires TiersOk() && o <= MAX_ORDER
      ensures |cache| == |freeLists| == NUM_ORDERS && |oobRegionHeads| == OOB_ORDERS
      ensures (cache[o] == [] && freeLists[o] == 0 && (o < OOB_MIN_ORDER || oobRegionHeads[o - OOB_MIN_ORDER] == 0))
              <==> OfOrder(tiered, o) == {}
    {
      hide BlockSize, OobOk, Fits;
      RowShape();
      if o >= OOB_MIN_ORDER {
        var _ := ChainHead(o - OOB_MIN_ORDER);
      } else {
        hide ChainLinks, NodeLists;
        if cache[o] != [] { assert Block(cache[o][0], o) in OfOrder(tiered, o) by { assert cache[o][0] in cache[o]; } }
        if nodes[o] != [] { assert Block(nodes[o][0], o) in OfOrder(tiered, o) by { assert nodes[o][0] in nodes[o]; } }
        if OfOrder(tiered, o) != {} {
          var b :| b in OfOrder(tiered, o);
          assert b.addr in cache[o] || b.addr in nodes[o];
        }
      }
      assert |oobRegionHeads| == OOB_ORDERS;
    }

    /** The smallest order from `order` up that has a free block, or `NUM_ORDERS`. */
    method FindOrder(order: nat) returns (o: nat)
      requires Ready() && order <= MAX_ORDER
      ensures order <= o <= NUM_ORDERS
      ensures forall p :: order <= p < o ==> OfOrder(free, p) == {}
      ensures o <= MAX_ORDER ==> OfOrder(free, o) != {}
    {
      hide Sorted, RowsOk, OobOk, ChainLinks, CoreOk, OfOrder;
      o := order;
      LevelEmpty(order);
      while o <= MAX_ORDER && |cache[o]| == 0 && freeLists[o] == 0
            && (o < OOB_MIN_ORDER || oobRegionHeads[o - OOB_MIN_ORDER] == 0)
        invariant order <= o <= NUM_ORDERS
        invariant forall p :: order <= p < o ==> OfOrder(free, p) == {}
      {
        LevelEmpty(o);
        o := o + 1;
      }
      if o <= MAX_ORDER { LevelEmpty(o); }
    }

    /** Pop a block of a nonempty order: cache row first, then the out-of-band front, then the
        intrusive list's head. */
    method PopAt(o: nat) returns (ptr: nat)
      requires TiersOk() && o <= MAX_ORDER && OfOrder(tiered, o) != {}
      modifies `tiered, `cache, `freeLists, `nodePrev, `nodeNext, `nodes
      modifies `links, `oobLen, `rlPrev, `rlNext, `oobRegionHeads, `lastRegion, `slots, `chains
      ensures TiersOk()
      ensures Block(ptr, o) in old(tiered) && tiered == old(tiered) - {Block(ptr, o)}
      ensures IsNext(old(cache), old(nodes), old(chains), old(slots), o, ptr)
    {
      hide BlockSize, RowsOk, OobOk, ChainLinks, Sorted, SwapRemove, IsFront, OfOrder;
      RowShape();
      LevelEmpty(o);
      if |cache[o]| > 0 {
        var n := |cache[o]| - 1;
        ptr := cache[o][n];
        TakeFromRow(o, n);
      } else if o >= OOB_MIN_ORDER {
        var r := OobPop(o);
        ptr := r.value;
      } else {
        ptr := freeLists[o];
        ListHead(o);
        TakeFromList(ptr, o);
      }
    }

    lemma ListHead(o: nat)
      requires TiersOk() && o < OOB_MIN_ORDER && |freeLists| == |nodes| == NUM_ORDERS && freeLists[o] != 0
      ensures nodes[o] != [] && freeLists[o] == nodes[o][0] && nodes[o][0] in nodes[o]
      ensures Block(freeLists[o], o) in tiered
    {
      hide BlockSize;
    }

    /** Split a block in hand down to `order`, stashing each upper half. */
    method SplitDown(addr: nat, top: nat, order: nat, idx: nat)
      requires Ready() && Block(addr, top) in live && order <= top <= MAX_ORDER
      requires idx < |regions| && regions[idx] == RegionBase(addr)
      modifies `bitmap, `free, `tiered, `live, `cache, `freeLists, `nodePrev, `nodeNext, `nodes
      modifies `links, `oobLen, `rlPrev, `rlNext, `oobRegionHeads, `lastRegion, `slots, `chains
      ensures Ready()
      ensures free == old(free) + Splits(addr, order, top)
      ensures live == old(live) - {Block(addr, top)} + {Block(addr, order)}
      ensures Block(addr, order) !in old(live) - {Block(addr, top)}
    {
      hide BlockSize, Tiles, BitmapHolds, TiersOk, RegionBase, Splits;
      var o := top;
      SplitsStep(addr, top, top);
      while o > order
        invariant Ready() && order <= o <= top && Block(addr, o) in live
        invariant free == old(free) + Splits(addr, o, top)
        invariant live == old(live) - {Block(addr, top)} + {Block(addr, o)}
        invariant Block(addr, o) !in old(live) - {Block(addr, top)}
      {
        ghost var b, free0, live0 := Block(addr, o), free, live;
        SplitFacts(b);
        TilesSplit(free + live, Bases(), b);
        SplitsStep(addr, o, top);
        o := o - 1;
        var buddy := addr + BlockSize(o);
        ghost var lo, hi := Block(addr, o), Block(buddy, o);
        live := live - {b} + {lo, hi};
        assert free + live == free0 + live0 - {b} + {lo, hi};
        StashFree(buddy, o, idx);
      }
    }

    lemma SplitFacts(b: Block)
      requires CoreOk() && b in live && b.order > 0
      ensures b.order <= MAX_ORDER
      ensures RegionBase(b.addr + BlockSize(b.order - 1)) == RegionBase(b.addr)
    {
      hide CoreOk, BlockSize, Fits, RegionBase;
      BlockFacts(b);
      SplitInRegion(b, Bases());
    }

    /** Pop an order's next block and clear its bit. */
    method PopInHand(o: nat) returns (ptr: nat, idx: nat)
      requires Ready() && o <= MAX_ORDER && OfOrder(free, o) != {}
      modifies `bitmap, `free, `live
      modifies `tiered, `cache, `freeLists, `nodePrev, `nodeNext, `nodes
      modifies `links, `oobLen, `rlPrev, `rlNext, `oobRegionHeads, `lastRegion, `slots, `chains
      ensures Ready()
      ensures Block(ptr, o) in old(free) && Block(ptr, o) !in old(live)
      ensures free == old(free) - {Block(ptr, o)} && live == old(live) + {Block(ptr, o)}
      ensures idx < |regions| && regions[idx] == RegionBase(ptr)
      ensures IsNext(old(cache), old(nodes), old(chains), old(slots), o, ptr)
    {
      hide BlockSize, Tiles, BitmapHolds, TiersOk, RegionBase, OfOrder, IsFront, IsNext;
      ptr := PopAt(o);
      idx := TakeInHand(ptr, o);
    }

    /** Record a handed-out block's order where a header-free free will look for it. */
    method RecordOrder(addr: nat, order: nat, idx: nat)
      requires CoreOk() && Block(addr, order) in live && order >= OOB_MIN_ORDER
      requires OrdersRecorded(orderMap, live - {Block(addr, order)})
      requires idx < |regions| && regions[idx] == RegionBase(addr)
      requires MapOk(orderMap, Bases())
      modifies `orderMap
      ensures OrdersRecorded(orderMap, live)
      ensures MapOk(orderMap, Bases())
    {
      hide BlockSize, NoGap, BitmapHolds;
      ghost var b := Block(addr, order);
      BlockFacts(b);
      SlotGeometry(b);
      forall c | c in live && c.order >= OOB_MIN_ORDER && c != b
        ensures RegionBase(c.addr) != RegionBase(addr) || SlotOf(c.addr) != SlotOf(addr)
      {
        BlockFacts(c);
        SlotGeometry(c);
        if c.addr == addr { OneBlockPerAddress(free + live, Bases(), b, c); }
      }
      hide RegionBase, SlotOf, CoreOk;
      orderMap := Entry(orderMap, regions[idx], SlotOf(addr), order);
    }

    /** Allocate a block of `order`: the smallest sufficient order's next block, split down. One
        region is mapped if, and only if, no free block is large enough; None only when that is
        refused, and then nothing has changed. */
    method AllocOrder(order: nat, answer: Answer) returns (r: Option<nat>, ghost from: nat)
      requires Valid() && order <= MAX_ORDER && Fresh(answer, Bases())
      modifies `regions, `orderMap
      modifies `bitmap, `free, `tiered, `live, `cache, `freeLists, `nodePrev, `nodeNext, `nodes
      modifies `links, `oobLen, `rlPrev, `rlNext, `oobRegionHeads, `lastRegion, `slots, `chains
      ensures Valid()
      ensures r.None? <==> answer.Refused? && NoneFrom(old(free), order, NUM_ORDERS)
      ensures r.None? ==> free == old(free) && live == old(live) && regions == old(regions)
      ensures r.Some? ==>
        var grown := NoneFrom(old(free), order, NUM_ORDERS);
        var stock := if grown && answer.Granted? then old(free) + TopBlocks(answer.base) else old(free);
        && (grown ==> answer.Granted?)
        && Bases() == old(Bases()) + (if grown then {answer.base} else {})
        && order <= from <= MAX_ORDER && Block(r.value, from) in stock && NoneFrom(stock, order, from)
        && free == stock - {Block(r.value, from)} + Splits(r.value, order, from)
        && live == old(live) + {Block(r.value, order)} && Block(r.value, order) !in old(live)
        && (!grown ==> IsNext(old(cache), old(nodes), old(chains), old(slots), from, r.value))
    {
      hide BlockSize, CoreOk, TiersOk, RegionBase, Splits, OfOrder, TopBlocks, BudgetOk, OrdersRecorded, NoneFrom,
           IsNext, MapOk, BaseSet, Bases;
      var o := FindOrRefill(order, answer);
      from := o;
      if o > MAX_ORDER {
        return None, o;
      }
      ghost var stock := free;
      var block, idx := PopInHand(o);
      SplitDown(block, o, order, idx);
      Swapped(old(live), Block(block, o), Block(block, order));
      FinishAlloc(block, order, idx, old(live));
      r := Some(block);
    }

    /** The search of `alloc_order`: at most one region is mapped, and only when no free block
        is large enough; after that the search succeeds. */
    method FindOrRefill(order: nat, answer: Answer) returns (o: nat)
      requires Ready() && order <= MAX_ORDER && Fresh(answer, Bases())
      requires MapOk(orderMap, Bases())
      requires recordOrders ==> OrdersRecorded(orderMap, live)
      modifies `regions, `orderMap
      modifies `bitmap, `free, `tiered, `live, `cache, `freeLists, `nodePrev, `nodeNext, `nodes
      modifies `links, `oobLen, `rlPrev, `rlNext, `oobRegionHeads, `lastRegion, `slots, `chains
      ensures Ready()
      ensures MapOk(orderMap, Bases())
      ensures recordOrders ==> OrdersRecorded(orderMap, live)
      ensures live == old(live)
      ensures order <= o && (o > MAX_ORDER <==> answer.Refused? && NoneFrom(old(free), order, NUM_ORDERS))
      ensures o > MAX_ORDER ==> free == old(free) && regions == old(regions)
      ensures !NoneFrom(old(free), order, NUM_ORDERS) ==>
                cache == old(cache) && nodes == old(nodes) && chains == old(chains) && slots == old(slots)
      ensures o <= MAX_ORDER ==>
        var grown := NoneFrom(old(free), order, NUM_ORDERS);
        && (grown ==> answer.Granted?)
        && free == (if grown then old(free) + TopBlocks(answer.base) else old(free))
        && Bases() == old(Bases()) + (if grown then {answer.base} else {})
        && OfOrder(free, o) != {} && NoneFrom(free, order, o)
    {
      hide BlockSize, CoreOk, TiersOk, RegionBase, OfOrder, TopBlocks, OrdersRecorded, NoneFrom;
      o := FindOrder(order);
      NoneFromLevels(free, order, o);
      if o <= MAX_ORDER {
        NoneFromMore(free, order, o + 1, NUM_ORDERS);
        return;
      }
      var ok := Refill(answer);
      if recordOrders { RecordsKept(old(orderMap), orderMap, live); }
      if ok {
        TopLevel(free, answer.base);
        o := FindOrder(order);
        NoneFromLevels(free, order, o);
      }
    }

    /** The last step of an allocation: record the order if recording is on. */
    method FinishAlloc(addr: nat, order: nat, idx: nat, ghost before: set<Block>)
      requires Ready() && live == before + {Block(addr, order)} && Block(addr, order) !in before
      requires idx < |regions| && regions[idx] == RegionBase(addr)
      requires MapOk(orderMap, Bases())
      requires recordOrders ==> OrdersRecorded(orderMap, before)
      modifies `orderMap
      ensures MapOk(orderMap, Bases())
      ensures recordOrders ==> OrdersRecorded(orderMap, live)
    {
      hide CoreOk, TiersOk, RegionBase, SlotOf;
      assert live - {Block(addr, order)} == before;
      if recordOrders && order >= OOB_MIN_ORDER {
        RecordOrder(addr, order, idx);
      }
    }

    // ---- freeing -------------------------------------------------------------------------

    /** Free a live block. No merging happens here except in the one bounded drain that a full
        cache row, or every 32nd free at an out-of-band order, pays for. */
    method FreeOrder(ptr: nat, order: nat)
      requires Valid() && Block(ptr, order) in live
      modifies `bitmap, `free, `tiered, `live, `cache, `freeLists, `nodePrev, `nodeNext, `nodes
      modifies `links, `oobLen, `rlPrev, `rlNext, `oobRegionHeads, `lastRegion, `slots, `chains
      modifies `oobPending, `frees, `examined, `merges
      ensures Valid()
      ensures live == old(live) - {Block(ptr, order)}
      ensures order < OOB_MIN_ORDER ==> frees == old(frees) && examined == old(examined)
      ensures order >= OOB_MIN_ORDER ==>
                frees == old(frees)[order - OOB_MIN_ORDER := old(frees)[order - OOB_MIN_ORDER] + 1]
      ensures (if order < OOB_MIN_ORDER then |old(cache)[order]| < ORDER_CACHE
               else frees[order - OOB_MIN_ORDER] % OOB_DRAIN_AT != 0)
              ==> free == old(free) + {Block(ptr, order)}
      ensures order < OOB_MIN_ORDER ==>
                IsNext(cache, nodes, chains, slots, order, ptr) && order < |cache| && cache[order] != []
      ensures order < OOB_MIN_ORDER ==>
                && Block(ptr, order) in free && Coarser(old(free), free - {Block(ptr, order)})
                && Drained(old(cache)[order], cache[order][..|cache[order]| - 1], free - {Block(ptr, order)}, order)
                && (|old(cache)[order]| == ORDER_CACHE ==> |cache[order]| <= ORDER_CACHE / 2 + 1)
      ensures order >= OOB_MIN_ORDER ==> Coarser(old(free) + {Block(ptr, order)}, free)
      ensures |examined| == |old(examined)| == OOB_ORDERS
      ensures order >= OOB_MIN_ORDER && frees[order - OOB_MIN_ORDER] % OOB_DRAIN_AT != 0 ==>
                FiledFront(old(slots), slots, Block(ptr, order))
      ensures order >= OOB_MIN_ORDER && frees[order - OOB_MIN_ORDER] % OOB_DRAIN_AT == 0 ==>
                examined[order - OOB_MIN_ORDER]
                    == old(examined)[order - OOB_MIN_ORDER] + OOB_DRAIN_AT / 2 || OfOrder(free, order) == {}
    {
      hide CoreOk, TiersOk, BlockSize, RegionBase, Fits, BudgetOk, OrdersRecorded, FiledFront, OfOrder, Drained,
           Coarser, MapOk, Bases;
      ghost var b := Block(ptr, order);
      BlockFacts(b);
      TierShape(b);
      BudgetShape();
      SortedOk();
      var r := RegionIndexOf(ptr);
      var idx := r.value;
      if order >= OOB_MIN_ORDER {
        FreeOob(ptr, order, idx);
      } else {
        FreeLow(ptr, order, idx);
        RowCount();
      }
      BudgetShape();
      if recordOrders { RecordsKeptFewer(orderMap, old(live), live); }
    }

    lemma BudgetShape()
      requires BudgetOk()
      ensures |frees| == |examined| == |merges| == |oobPending| == OOB_ORDERS
    {
    }

    lemma SortedOk()
      requires TiersOk()
      ensures Sorted(regions)
    {
    }

    /** The cache-row half of a free: a full row is drained before the block is marked free, so
        the row has room and the drain never meets a marked block that is in no tier. */
    method FreeLow(ptr: nat, order: nat, idx: nat)
      requires Ready() && Block(ptr, order) in live && order < OOB_MIN_ORDER && |cache| == NUM_ORDERS
      requires idx < |regions| && regions[idx] == RegionBase(ptr)
      modifies `bitmap, `free, `tiered, `live, `cache, `freeLists, `nodePrev, `nodeNext, `nodes
      modifies `links, `oobLen, `rlPrev, `rlNext, `oobRegionHeads, `lastRegion, `slots, `chains
      ensures Ready()
      ensures live == old(live) - {Block(ptr, order)}
      ensures |old(cache)[order]| < ORDER_CACHE ==> free == old(free) + {Block(ptr, order)}
      ensures |cache| == NUM_ORDERS && cache[order] != [] && cache[order][|cache[order]| - 1] == ptr
      ensures |old(cache)[order]| == ORDER_CACHE ==> |cache[order]| <= ORDER_CACHE / 2 + 1
      ensures Block(ptr, order) in free && Coarser(old(free), free - {Block(ptr, order)})
      ensures Drained(old(cache)[order], cache[order][..|cache[order]| - 1], free - {Block(ptr, order)}, order)
    {
      hide BlockSize, Tiles, BitmapHolds, TiersOk, RegionBase, Fits, Drained, Coarser;
      RowShape();
      NothingDrained(cache[order], free, order);
      if |cache[order]| == ORDER_CACHE {
        MergeDrainRow(order, ORDER_CACHE / 2);
      }
      ghost var all, settled, row := free + live, free, cache[order];
      BlockFacts(Block(ptr, order));
      SetFreeBit(ptr, order, idx);
      PushRow(ptr, order);
      live := live - {Block(ptr, order)};
      assert free + live == all;
      assert free - {Block(ptr, order)} == settled && cache[order][..|row|] == row;
    }

    /** The out-of-band half of a free: push first, then drain on every 32nd push. */
    method FreeOob(ptr: nat, order: nat, idx: nat)
      requires Ready() && BudgetOk() && Block(ptr, order) in live && OOB_MIN_ORDER <= order <= MAX_ORDER
      requires idx < |regions| && regions[idx] == RegionBase(ptr)
      modifies `bitmap, `free, `tiered, `live, `cache, `freeLists, `nodePrev, `nodeNext, `nodes
      modifies `links, `oobLen, `rlPrev, `rlNext, `oobRegionHeads, `lastRegion, `slots, `chains
      modifies `oobPending, `frees, `examined, `merges
      ensures Ready() && BudgetOk()
      ensures live == old(live) - {Block(ptr, order)}
      ensures frees == old(frees)[order - OOB_MIN_ORDER := old(frees)[order - OOB_MIN_ORDER] + 1]
      ensures frees[order - OOB_MIN_ORDER] % OOB_DRAIN_AT != 0 ==>
                free == old(free) + {Block(ptr, order)} && FiledFront(old(slots), slots, Block(ptr, order))
      ensures |examined| == |old(examined)| == OOB_ORDERS
      ensures frees[order - OOB_MIN_ORDER] % OOB_DRAIN_AT == 0 ==>
                examined[order - OOB_MIN_ORDER]
                    == old(examined)[order - OOB_MIN_ORDER] + OOB_DRAIN_AT / 2 || OfOrder(free, order) == {}
      ensures Coarser(old(free) + {Block(ptr, order)}, free)
    {
      hide TiersOk, CoreOk, RegionBase, FiledFront, OfOrder, Coarser, Settled;
      StashFree(ptr, order, idx);
      NothingDrained([], free, order);
      var oi := order - OOB_MIN_ORDER;
      ghost var f, x, m, p := frees[oi], examined[oi], merges[oi], oobPending[oi];
      ghost var cap := OOB_ORDERS - 1 - oi;
      BudgetStep(cap, f, x, m, p, x, m);
      hide WithinBudget;
      oobPending := oobPending[oi := oobPending[oi] + 1];
      frees := frees[oi := frees[oi] + 1];
      if oobPending[oi] >= OOB_DRAIN_AT {
        oobPending := oobPending[oi := 0];
        ghost var seen := OobDrain(order, OOB_DRAIN_AT / 2);
        BudgetStep(cap, f, x, m, p, examined[oi], merges[oi]);
      }
    }

    // ---- the public face -----------------------------------------------------------------

    constructor ()
      ensures Valid() && regions == [] && live == {} && free == {} && !recordOrders
      ensures forall i :: 0 <= i < OOB_ORDERS ==> frees[i] == 0
    {
      freeLists := seq(NUM_ORDERS, i => 0);
      nodePrev, nodeNext := map[], map[];
      cache := seq(NUM_ORDERS, i => []);
      oobRegionHeads := seq(OOB_ORDERS, i => 0);
      oobLen := seq(OOB_ORDERS, i => 0);
      oobPending := seq(OOB_ORDERS, i => 0);
      regions, lastRegion := [], 0;
      bitmap, orderMap, links := map[], map[], map[];
      rlPrev, rlNext := seq(OOB_ORDERS, i => map[]), seq(OOB_ORDERS, i => map[]);
      recordOrders := false;
      free, tiered, live := {}, {}, {};
      nodes := seq(NUM_ORDERS, i => []);
      slots := map[];
      chains := seq(OOB_ORDERS, i => []);
      frees := seq(OOB_ORDERS, i => 0);
      examined := seq(OOB_ORDERS, i => 0);
      merges := seq(OOB_ORDERS, i => 0);
      new;
      hide TiersOk, CoreOk, BudgetOk, BlockSize, RegionBase, SlotOf, Budget;
      EmptyTiers();
      NothingTiled();
      EmptyBudget();
    }

    lemma EmptyBudget()
      requires |frees| == |examined| == |merges| == |oobPending| == OOB_ORDERS
      requires forall i :: 0 <= i < OOB_ORDERS ==> frees[i] == examined[i] == merges[i] == oobPending[i] == 0
      ensures BudgetOk()
    {
    }

    lemma EmptyTiers()
      requires regions == [] && tiered == {} && slots == map[] && links == map[]
      requires |freeLists| == |cache| == |nodes| == NUM_ORDERS
      requires |oobRegionHeads| == |oobLen| == |rlPrev| == |rlNext| == |chains| == OOB_ORDERS
      requires forall o :: 0 <= o < NUM_ORDERS ==> freeLists[o] == 0 && cache[o] == [] && nodes[o] == []
      requires forall i :: 0 <= i < OOB_ORDERS ==> oobRegionHeads[i] == oobLen[i] == 0 && chains[i] == []
      ensures TiersOk()
    {
      hide BlockSize;
      assert RowsOk(nodePrev, nodeNext, freeLists, nodes, cache, tiered);
      assert ChainLinks(rlPrev, rlNext, oobRegionHeads, chains);
      hide RowsOk, ChainLinks;
      assert forall o :: OfOrder(tiered, o) == {};
    }

    lemma NothingTiled()
      requires regions == [] && free == {} && live == {} && bitmap == map[]
      ensures CoreOk()
    {
      hide BlockSize;
    }

    /** Recording may only be switched on before any region exists. */
    method SetRecordOrders()
      requires Valid() && regions == []
      modifies `recordOrders
      ensures Valid() && recordOrders
    {
      hide BlockSize, Bytes;
      forall b | b in live ensures RegionBase(b.addr) in regions { BlockFacts(b); }
      assert live == {};
      recordOrders := true;
    }

    method Alloc(size: nat, answer: Answer) returns (r: Option<nat>, ghost order: nat)
      requires Valid() && Fresh(answer, Bases())
      modifies `regions, `orderMap
      modifies `bitmap, `free, `tiered, `live, `cache, `freeLists, `nodePrev, `nodeNext, `nodes
      modifies `links, `oobLen, `rlPrev, `rlNext, `oobRegionHeads, `lastRegion, `slots, `chains
      ensures Valid()
      ensures (size == 0 || size > 0x10_0000) ==> r.None?
      ensures r.None? ==> live == old(live) && free == old(free)
      ensures r.Some? ==>
        && size <= BlockSize(order) && (order > 0 ==> BlockSize(order - 1) < size)
        && live == old(live) + {Block(r.value, order)} && Block(r.value, order) !in old(live)
    {
      hide BlockSize, TiersOk, CoreOk, BudgetOk, Splits, OfOrder, TopBlocks, NoneFrom;
      order := 0;
      var o := OrderFor(size);
      if o.None? {
        return None, 0;
      }
      order := o.value;
      ghost var from;
      r, from := AllocOrder(o.value, answer);
    }

    method Dealloc(ptr: nat, size: nat)
      requires Valid() && 0 < size <= 0x10_0000
      requires exists o: nat :: Block(ptr, o) in live && size <= BlockSize(o) && (o > 0 ==> BlockSize(o - 1) < size)
      modifies `bitmap, `free, `tiered, `live, `cache, `freeLists, `nodePrev, `nodeNext, `nodes
      modifies `links, `oobLen, `rlPrev, `rlNext, `oobRegionHeads, `lastRegion, `slots, `chains
      modifies `oobPending, `frees, `examined, `merges
      ensures Valid()
      ensures exists b :: b in old(live) && b.addr == ptr && live == old(live) - {b}
    {
      hide BlockSize, TiersOk, CoreOk, BudgetOk;
      ghost var k: nat :| Block(ptr, k) in live && size <= BlockSize(k) && (k > 0 ==> BlockSize(k - 1) < size);
      var order := OrderFor(size);
      OrderUnique(size, k, order.value);
      FreeOrder(ptr, order.value);
    }

    /** Steady churn: below the out-of-band orders the block just freed is the very next one served at
        its order, with no split, no merge and no region mapped. */
    method Reuse(ptr: nat, order: nat, answer: Answer) returns (r: Option<nat>)
      requires Valid() && Block(ptr, order) in live && order < OOB_MIN_ORDER && Fresh(answer, Bases())
      modifies `regions, `orderMap
      modifies `bitmap, `free, `tiered, `live, `cache, `freeLists, `nodePrev, `nodeNext, `nodes
      modifies `links, `oobLen, `rlPrev, `rlNext, `oobRegionHeads, `lastRegion, `slots, `chains
      modifies `oobPending, `frees, `examined, `merges
      ensures Valid() && r == Some(ptr) && live == old(live) && Bases() == old(Bases())
      ensures |old(cache)| == NUM_ORDERS && (|old(cache)[order]| < ORDER_CACHE ==> free == old(free))
    {
      hide BlockSize, TiersOk, CoreOk, BudgetOk, TopBlocks, OrdersRecorded, OfOrder, NoneFrom, Splits, NoneAt;
      RowShape();
      ghost var before := free;
      BlockFacts(Block(ptr, order));
      FreeOrder(ptr, order);
      TopOfRow(order);
      SplitsNone(ptr, order);
      ghost var stock := free;
      ghost var from;
      r, from := AllocOrder(order, answer);
      SmallestIs(stock, order, from);
      assert from == order;
      assert |old(cache)[order]| < ORDER_CACHE ==> before + {Block(ptr, order)} - {Block(ptr, order)} == before;
    }

    /** A nonempty row means its order is in stock. */
    lemma TopOfRow(order: nat)
      requires TiersOk() && tiered == free && order < OOB_MIN_ORDER && order < |cache| && cache[order] != []
      ensures OfOrder(free, order) != {}
    {
      hide OfOrder;
      LevelEmpty(order);
    }

    /** Up to `|answers|` blocks of one order under one lock, stopping at the first failure. */
    method AllocOrderBatch(order: nat, answers: seq<Answer>) returns (out: seq<nat>)
      requires Valid() && order <= MAX_ORDER
      requires forall i :: 0 <= i < |answers| ==> Fresh(answers[i], Bases())
      requires forall i, j :: 0 <= i < j < |answers| && answers[i].Granted? && answers[j].Granted? ==>
                 answers[i].base != answers[j].base
      modifies `regions, `orderMap
      modifies `bitmap, `free, `tiered, `live, `cache, `freeLists, `nodePrev, `nodeNext, `nodes
      modifies `links, `oobLen, `rlPrev, `rlNext, `oobRegionHeads, `lastRegion, `slots, `chains
      ensures Valid() && |out| <= |answers|
      ensures live == old(live) + BlocksOf(out, order) && old(live) !! BlocksOf(out, order)
      ensures forall i, j :: 0 <= i < j < |out| ==> out[i] != out[j]
      ensures |out| < |answers| ==> NoneFrom(free, order, NUM_ORDERS)
      ensures old(Bases()) <= Bases() <= old(Bases()) + GrantedBases(answers)
      ensures out == [] ==> free == old(free) && live == old(live) && regions == old(regions)
    {
      hide BlockSize, TiersOk, CoreOk, BudgetOk, Splits, OfOrder, TopBlocks, NoneFrom;
      out := [];
      while |out| < |answers|
        invariant Valid() && |out| <= |answers|
        invariant old(Bases()) <= Bases() <= old(Bases()) + GrantedBases(answers)
        invariant live == old(live) + BlocksOf(out, order) && old(live) !! BlocksOf(out, order)
        invariant forall i, j :: 0 <= i < j < |out| ==> out[i] != out[j]
        invariant forall i :: |out| <= i < |answers| ==> Fresh(answers[i], Bases())
        invariant out == [] ==> free == old(free) && live == old(live) && regions == old(regions)
      {
        ghost var grown := NoneFrom(free, order, NUM_ORDERS);
        ghost var bases := Bases();
        var r, _ := AllocOrder(order, answers[|out|]);
        if r.None? {
          break;
        }
        forall x ensures Block(x, order) in BlocksOf(out, order) <==> x in out {}
        assert BlocksOf(out + [r.value], order) == BlocksOf(out, order) + {Block(r.value, order)};
        out := out + [r.value];
      }
    }

    /** Exactly `FreeOrder` per block: there is no batch-specific merging. */
    method DeallocOrderBatch(order: nat, blocks: seq<nat>)
      requires Valid() && BlocksOf(blocks, order) <= live
      requires forall i, j :: 0 <= i < j < |blocks| ==> blocks[i] != blocks[j]
      modifies `bitmap, `free, `tiered, `live, `cache, `freeLists, `nodePrev, `nodeNext, `nodes
      modifies `links, `oobLen, `rlPrev, `rlNext, `oobRegionHeads, `lastRegion, `slots, `chains
      modifies `oobPending, `frees, `examined, `merges
      ensures Valid()
      ensures live == old(live) - BlocksOf(blocks, order)
    {
      hide BlockSize, TiersOk, CoreOk, BudgetOk;
      for i := 0 to |blocks|
        invariant Valid()
        invariant live == old(live) - BlocksOf(blocks[..i], order)
      {
        assert Block(blocks[i], order) in BlocksOf(blocks, order);
        assert blocks[i] !in blocks[..i];
        assert blocks[..i + 1] == blocks[..i] + [blocks[i]];
        assert BlocksOf(blocks[..i + 1], order) == BlocksOf(blocks[..i], order) + {Block(blocks[i], order)};
        FreeOrder(blocks[i], order);
      }
      assert blocks[..|blocks|] == blocks;
    }

    /** The header-free free path: a live out-of-band block's order, from its address alone. */
    method HeaderlessOrder(ptr: nat) returns (r: Option<nat>)
      requires Valid()
      ensures recordOrders ==> forall b :: b in live && b.addr == ptr && b.order >= OOB_MIN_ORDER ==>
                r == Some(b.order)
    {
      hide BlockSize, TiersOk, CoreOk, BudgetOk;
      forall b | recordOrders && b in live && b.addr == ptr && b.order >= OOB_MIN_ORDER
        ensures b.order <= MAX_ORDER
      {
        BlockFacts(b);
      }
      var base := RegionBase(ptr);
      if base !in orderMap || SlotOf(ptr) >= |orderMap[base]| {
        return None;
      }
      var order := orderMap[base][SlotOf(ptr)];
      return if OOB_MIN_ORDER <= order <= MAX_ORDER then Some(order) else None;
    }

    /** A block's bit is set exactly when the block sits in exactly one place of one tier, and
        clear exactly when it sits in none; a listed slot is on the list of one order only. */
    lemma OneTier(b: Block)
      requires Valid() && Fits(b, Bases())
      ensures b.order < OOB_MIN_ORDER ==>
                && |cache| == |nodes| == NUM_ORDERS
                && multiset(cache[b.order])[b.addr] + multiset(nodes[b.order])[b.addr] == if b in free then 1 else 0
      ensures b.order >= OOB_MIN_ORDER ==>
                var (base, oi, e) := (RegionBase(b.addr), b.order - OOB_MIN_ORDER, SlotOf(b.addr) + 1);
                && base in slots && |slots[base]| == OOB_ORDERS
                && multiset(slots[base][oi])[e] == (if b in free then 1 else 0)
                && (b in free ==> forall i :: 0 <= i < OOB_ORDERS && i != oi ==> e !in slots[base][i])
      ensures RegionBase(b.addr) in bitmap && BitPos(b) < |bitmap[RegionBase(b.addr)]|
      ensures bitmap[RegionBase(b.addr)][BitPos(b)] <==> b in free
    {
      hide BlockSize, BitPos, Tiles, RowsOk, OobOk, ChainLinks, Sorted;
      if b.order < OOB_MIN_ORDER {
        OneRow(nodePrev, nodeNext, freeLists, nodes, cache, tiered, b);
      } else {
        OneSlot(links, slots, chains, oobLen, Bases(), tiered, b, RegionBase(b.addr), b.order - OOB_MIN_ORDER,
            SlotOf(b.addr) + 1);
      }
      hide Fits;
      assert Fits(b, Bases());
    }

    /** Over the whole life of the allocator, drains of an out-of-band order examined at most 16 blocks
        per 32 frees of that order, with at most `MAX_ORDER - order` merge steps each. */
    lemma DrainBudget(order: nat)
      requires Valid() && OOB_MIN_ORDER <= order <= MAX_ORDER
      ensures |frees| == |examined| == |merges| == OOB_ORDERS
      ensures var oi := order - OOB_MIN_ORDER;
        examined[oi] <= 16 * (frees[oi] / 32) && merges[oi] <= (MAX_ORDER - order) * examined[oi]
    {
      hide TiersOk, CoreOk, OrdersRecorded;
      assert WithinBudget(MAX_ORDER - order, frees[order - OOB_MIN_ORDER], examined[order - OOB_MIN_ORDER],
                          merges[order - OOB_MIN_ORDER], oobPending[order - OOB_MIN_ORDER]);
    }

    /** Free bytes plus live bytes are exactly the mapped bytes. */
    lemma Conservation()
      requires Valid()
      ensures Bytes(free) + Bytes(live) == |regions| * REGION_BYTES
    {
      hide BlockSize, BitmapHolds, NoOverlap, NoGap, AllFit, RowsOk, OobOk, ChainLinks, Bytes;
      BytesUnion(free, live);
      BasesCount(regions);
    }
  }

  lemma SplitsNone(addr: nat, order: nat)
    ensures Splits(addr, order, order) == {}
  {
    hide BlockSize;
  }

  /** With a block of the order itself in stock the search stops there. */
  lemma SmallestIs(stock: set<Block>, order: nat, from: nat)
    requires OfOrder(stock, order) != {} && order <= MAX_ORDER
    ensures !NoneFrom(stock, order, NUM_ORDERS)
    ensures order <= from && NoneFrom(stock, order, from) ==> from == order
  {
    var b :| b in OfOrder(stock, order);
  }

  lemma CoversSelf(b: Block)
    ensures Covers(b, b.addr)
  {
  }

  /** What a block covers its parent covers. */
  lemma SettledNow(others: set<Block>, b: Block, addr: nat, order: nat)
    requires Within(Block(addr, order), b) && (b.order < MAX_ORDER ==> Partner(b) !in others && Partner(b) != b)
    ensures Settled(others + {b}, addr, order)
  {
    CoversSelf(Block(addr, order));
    hide Partner, BlockSize;
    assert Covers(b, addr);
    hide Covers;
  }

  lemma Swapped(live: set<Block>, b: Block, c: Block)
    requires b !in live
    ensures live + {b} - {b} == live && live + {b} - {b} + {c} == live + {c}
  {
  }

  lemma HalvesWithin(b: Block, bases: set<nat>)
    requires Fits(b, bases) && b.order < MAX_ORDER
    ensures Within(b, Parent(b)) && Within(Partner(b), Parent(b))
  {
    BuddyGeometry(b.addr, b.order);
    hide BlockSize, BuddyOf, ParentOf, RegionBase;
  }

  lemma NothingGone(free: set<Block>, b: Block)
    ensures Gone(free, free, b) && Within(b, b)
  {
    hide BlockSize;
  }

  /** One absorbed buddy more lies in the parent with everything before it. */
  lemma GoneMore(before: set<Block>, others: set<Block>, b: Block, p: Block, first: Block)
    requires Gone(before, others, b) && Within(first, b) && Within(b, p) && Within(Partner(b), p)
    ensures Gone(before, others - {Partner(b)}, p) && Within(first, p)
  {
    hide BlockSize, Partner;
  }

  lemma GoneToo(before: set<Block>, first: Block, others: set<Block>, b: Block)
    requires Gone(before - {first}, others, b) && Within(first, b)
    ensures Gone(before, others, b)
  {
    hide Within;
  }

  lemma NoneLost(rows: seq<seq<nat>>, free: set<Block>)
    requires |rows| == NUM_ORDERS
    ensures RowsLose(rows, rows, free)
  {
  }

  lemma OneLost(rows: seq<seq<nat>>, order: nat, i: nat, free: set<Block>)
    requires |rows| == NUM_ORDERS && order < NUM_ORDERS && i < |rows[order]| && NoDup(rows[order])
    requires Block(rows[order][i], order) !in free
    ensures RowsLose(rows, rows[order := SwapRemove(rows[order], i)], free)
  {
    SwapRemoveMembers(rows[order], i);
    assert |SwapRemove(rows[order], i)| == |rows[order]| - 1;
    hide SwapRemove, NoDup;
  }

  lemma PartnerBack(c: Block, bases: set<nat>)
    requires Fits(c, bases) && c.order < MAX_ORDER
    ensures Partner(Partner(c)) == c
  {
    var s, a, b, p := BlockSize(c.order), c.addr, BuddyOf(c.addr, c.order), ParentOf(c.addr, c.order);
    BuddyGeometry(a, c.order);
    var p' := ParentOf(b, c.order);
    BuddyGeometry(b, c.order);
    SizePositive(c.order);
    hide BlockSize, BuddyOf, ParentOf, RegionBase, Fits;
    if a == p {
      if b == p' { HalfStep(p, s, p'); }
    } else {
      if b != p' { HalfStep(p', s, p); }
    }
  }

  lemma HalfStep(p: nat, s: nat, q: nat)
    requires s > 0 && p % (2 * s) == 0 && q % (2 * s) == 0
    ensures q != p + s
  {
    var k, l := p / (2 * s), q / (2 * s);
    assert p == 2 * s * k && q == 2 * s * l;
    assert if l <= k then 2 * s * l <= 2 * s * k else 2 * s * l >= 2 * s * (k + 1);
  }

  /** Filing a merged block that cannot merge further: nothing but what lies in it has left the free
      set, and what was settled before is settled now. */
  lemma CoarserNow(before: set<Block>, bases: set<nat>, others: set<Block>, b: Block)
    requires AllFit(before, bases) && Gone(before, others, b)
    requires b.order < MAX_ORDER ==> Partner(b) !in others && Partner(b) != b
    ensures Coarser(before, others + {b})
  {
    hide Within, Settled, Fits, Partner;
    forall c | c in before ensures Inside(c, others + {b}) {
      if c in others { NothingGone({}, c); }
    }
    forall x, k | Settled(before, x, k) ensures Settled(others + {b}, x, k) {
      SettledStays(before, bases, others, b, x, k);
    }
  }

  lemma SettledStays(before: set<Block>, bases: set<nat>, others: set<Block>, b: Block, x: nat, k: nat)
    requires AllFit(before, bases) && Gone(before, others, b) && Settled(before, x, k)
    requires b.order < MAX_ORDER ==> Partner(b) !in others && Partner(b) != b
    ensures Settled(others + {b}, x, k)
  {
    hide Fits, BuddyOf, BlockSize;
    var c :| c in before && Covers(c, x) && k <= c.order && (c.order < MAX_ORDER ==> Partner(c) !in before);
    if c in others {
      if c.order < MAX_ORDER && Partner(c) == b { PartnerBack(c, bases); }
    } else {
      assert Covers(b, x);
    }
  }

  /** A row entry that merging took away lies in the merged block. */
  lemma RowDrained(row: seq<nat>, popped: seq<seq<nat>>, rows: seq<seq<nat>>, order: nat, before: set<Block>,
      others: set<Block>, b: Block)
    requires row != [] && NoDup(row) && order < |popped| && order < NUM_ORDERS
    requires popped[order] == SwapRemove(row, |row| - 1) && RowsLose(popped, rows, others)
    requires Within(Block(row[|row| - 1], order), b) && Gone(before, others, b)
    requires forall x :: x in row ==> Block(x, order) in before
    requires b.order < MAX_ORDER ==> Partner(b) !in others && Partner(b) != b
    ensures Drained(row, rows[order], others + {b}, order)
    ensures |rows| == NUM_ORDERS && |rows[order]| < |row|
  {
    SwapRemoveMembers(row, |row| - 1);
    assert |SwapRemove(row, |row| - 1)| == |row| - 1;
    hide SwapRemove, NoDup, Within, Settled, Partner;
    forall x | x in row && x !in rows[order] ensures Settled(others + {b}, x, order) {
      SettledNow(others, b, x, order);
    }
  }

  lemma NothingDrained(row: seq<nat>, free: set<Block>, order: nat)
    ensures Drained(row, row, free, order) && Coarser(free, free)
  {
    hide Settled, Within;
    forall c | c in free ensures Inside(c, free) { NothingGone({}, c); }
  }

  lemma SeenMore(seen: seq<nat>, before: set<Block>, mid: set<Block>, after: set<Block>, order: nat)
    requires (forall x :: x in seen ==> Settled(mid, x, order)) && Coarser(before, mid) && Coarser(mid, after)
    ensures (forall x :: x in seen ==> Settled(after, x, order)) && Coarser(before, after)
  {
    CoarserMore(before, mid, after);
    hide Settled, Inside;
  }

  lemma WithinMore(b: Block, mid: set<Block>, after: set<Block>)
    requires Inside(b, mid) && forall c :: c in mid ==> Inside(c, after)
    ensures Inside(b, after)
  {
    hide BlockSize;
    var c :| c in mid && Within(b, c);
    var d :| d in after && Within(c, d);
    assert Within(b, d);
  }

  lemma CoarserMore(before: set<Block>, mid: set<Block>, after: set<Block>)
    requires Coarser(before, mid) && Coarser(mid, after)
    ensures Coarser(before, after)
  {
    hide Settled, Inside;
    forall b | b in before ensures Inside(b, after) { WithinMore(b, mid, after); }
  }

  lemma DrainedMore(row: seq<nat>, row': seq<nat>, row'': seq<nat>, before: set<Block>, mid: set<Block>,
      after: set<Block>, order: nat)
    requires Drained(row, row', mid, order) && Drained(row', row'', after, order)
    requires Coarser(before, mid) && Coarser(mid, after)
    ensures Drained(row, row'', after, order) && Coarser(before, after)
  {
    CoarserMore(before, mid, after);
    hide Settled, Inside;
  }

  ghost function BlocksOf(addrs: seq<nat>, order: nat): set<Block> {
    set a | a in addrs :: Block(a, order)
  }

  lemma {:induction false} BasesCount(regions: seq<nat>)
    requires Sorted(regions)
    ensures |BaseSet(regions)| == |regions|
  {
    if regions != [] {
      var n := |regions| - 1;
      BasesCount(regions[..n]);
      assert BaseSet(regions) == BaseSet(regions[..n]) + {regions[n]};
      assert regions[n] !in regions[..n];
    }
  }

  lemma RecordsKeptFewer(orderMap: map<nat, seq<nat>>, live: set<Block>, live': set<Block>)
    requires OrdersRecorded(orderMap, live) && live' <= live
    ensures OrdersRecorded(orderMap, live')
  {
  }

  /** Smallest power of two not below `size`. */
  function RoundUpPow2(size: nat): (p: nat)
    ensures size <= p && (size > 1 ==> p < 2 * size - 1)
    ensures exists k: nat :: p == Pow2(k)
  {
    if size <= 1 then (assert Pow2(0) == 1; 1)
    else
      var h := RoundUpPow2((size + 1) / 2);
      assert exists k: nat :: 2 * h == Pow2(k) by {
        var k: nat :| h == Pow2(k);
        assert Pow2(k + 1) == 2 * h;
      }
      2 * h
  }

  lemma {:induction false} Pow2Order(a: nat, b: nat)
    ensures a < b ==> 2 * Pow2(a) <= Pow2(b)
    ensures Pow2(a) < Pow2(b) ==> a < b
  {
    if a > 0 && b > 0 { Pow2Order(a - 1, b - 1); }
    if a == 0 && b > 0 { assert Pow2(b) == 2 * Pow2(b - 1); }
  }

  /** The smallest order whose blocks hold `size` bytes; None for 0 and above 1 MiB. */
  method OrderFor(size: nat) returns (r: Option<nat>)
    ensures r.None? <==> size == 0 || size > 0x10_0000
    ensures r.Some? ==> r.value <= MAX_ORDER && size <= BlockSize(r.value)
    ensures r.Some? ==> r.value > 0 ==> BlockSize(r.value - 1) < size
  {
    if size == 0 || size > 0x10_0000 {
      return None;
    }
    var up := RoundUpPow2(size);
    ghost var k: nat :| up == Pow2(k);
    var bs := if up < 16 then 16 else up;
    ghost var e := if up < 16 then 4 else k;
    assert Pow2(4) == 16;
    var o, s := 0, 16;
    while s < bs
      invariant s == BlockSize(o) && bs == Pow2(e) && up == Pow2(k)
      invariant o > 0 ==> BlockSize(o - 1) < bs
      decreases e - o
    {
      Pow2Order(MIN_BLOCK_SHIFT + o, e);
      s := s * 2;
      o := o + 1;
    }
    Sizes();
    if o > 0 { Pow2Order(MIN_BLOCK_SHIFT + o - 1, e); }
    Pow2Order(MIN_BLOCK_SHIFT + MAX_ORDER, MIN_BLOCK_SHIFT + o);
    return Some(o);
  }

  lemma OrderUnique(size: nat, a: nat, b: nat)
    requires size <= BlockSize(a) && (a > 0 ==> BlockSize(a - 1) < size)
    requires size <= BlockSize(b) && (b > 0 ==> BlockSize(b - 1) < size)
    ensures a == b
  {
    if a < b { SizeMonotone(a, b - 1); }
    if b < a { SizeMonotone(b, a - 1); }
  }

  lemma SizeMonotone(a: nat, b: nat)
    requires a <= b
    ensures BlockSize(a) <= BlockSize(b)
  {
    Pow2Order(MIN_BLOCK_SHIFT + a, MIN_BLOCK_SHIFT + b);
  }

  lemma SplitsStep(addr: nat, o: nat, top: nat)
    requires o <= top
    ensures Splits(addr, top, top) == {}
    ensures o > 0 ==> Splits(addr, o - 1, top) == Splits(addr, o, top) + {Block(addr + BlockSize(o - 1), o - 1)}
  {
    hide BlockSize;
  }

  lemma NoneFromLevels(blocks: set<Block>, order: nat, o: nat)
    requires forall p :: order <= p < o ==> OfOrder(blocks, p) == {}
    ensures NoneFrom(blocks, order, o)
    ensures order <= o && OfOrder(blocks, o) != {} ==> !NoneFrom(blocks, order, o + 1)
  {
    assert forall b :: b in blocks ==> b in OfOrder(blocks, b.order);
    if OfOrder(blocks, o) != {} {
      var b :| b in OfOrder(blocks, o);
    }
  }

  lemma NoneFromMore(blocks: set<Block>, order: nat, o: nat, top: nat)
    requires !NoneFrom(blocks, order, o) && o <= top
    ensures !NoneFrom(blocks, order, top)
  {
  }

  lemma TopLevel(free: set<Block>, base: nat)
    requires TopBlocks(base) <= free
    ensures OfOrder(free, MAX_ORDER) != {}
  {
    assert Block(base, MAX_ORDER) in OfOrder(free, MAX_ORDER);
  }

  lemma RecordsKept(orderMap: map<nat, seq<nat>>, orderMap': map<nat, seq<nat>>, live: set<Block>)
    requires OrdersRecorded(orderMap, live)
    requires forall base :: base in orderMap ==> base in orderMap' && orderMap'[base] == orderMap[base]
    ensures OrdersRecorded(orderMap', live)
  {
  }

  /** No block of the set has an order in `[order, top)`. */
  ghost predicate NoneFrom(blocks: set<Block>, order: nat, top: nat) {
    forall b :: b in blocks ==> !(order <= b.order < top)
  }

  function ZeroLinks(): (m: SlotLinks)
    ensures |m.head| == |m.tail| == OOB_ORDERS
    ensures forall i :: 0 <= i < OOB_ORDERS ==> m.head[i] == m.tail[i] == 0
  {
    SlotLinks(map[], map[], seq(OOB_ORDERS, i => 0), seq(OOB_ORDERS, i => 0))
  }

  function ZeroBits(): (bits: seq<bool>)
    ensures |bits| == BITMAP_BITS && forall i :: 0 <= i < |bits| ==> !bits[i]
  {
    seq(BITMAP_BITS, i => false)
  }

  /** A region's top blocks below offset `off`: those already carved. */
  ghost function Below(base: nat, off: nat): set<Block> {
    set b | b in TopBlocks(base) && b.addr < base + off
  }

  lemma TopBelow(base: nat, off: nat)
    requires off % 0x10_0000 == 0 && off <= REGION_BYTES && base % REGION_BYTES == 0
    ensures Below(base, 0) == {} && Below(base, REGION_BYTES) == TopBlocks(base)
    ensures off < REGION_BYTES ==>
      var b := Block(base + off, MAX_ORDER);
      && b in TopBlocks(base) && b !in Below(base, off) && RegionBase(b.addr) == base
      && Below(base, off + 0x10_0000) == Below(base, off) + {b}
  {
    BelowEnds(base);
    hide Below, TopBlocks;
    hide RegionBase;
    if off < REGION_BYTES {
      OffsetInRegion(base, off);
      QuarterPoints(off);
      BelowStep(base, off);
    }
  }

  lemma OffsetInRegion(base: nat, off: nat)
    requires base % REGION_BYTES == 0 && off < REGION_BYTES
    ensures RegionBase(base + off) == base
  {
  }

  lemma QuarterPoints(off: nat)
    requires off % 0x10_0000 == 0 && off < REGION_BYTES
    ensures off == 0 || off == 0x10_0000 || off == 0x20_0000 || off == 0x30_0000
  {
  }

  lemma BelowEnds(base: nat)
    ensures Below(base, 0) == {} && Below(base, REGION_BYTES) == TopBlocks(base)
  {
  }

  lemma BelowStep(base: nat, off: nat)
    requires off == 0 || off == 0x10_0000 || off == 0x20_0000 || off == 0x30_0000
    ensures var b := Block(base + off, MAX_ORDER);
      && b in TopBlocks(base) && b !in Below(base, off)
      && Below(base, off + 0x10_0000) == Below(base, off) + {b}
  {
  }

  lemma InsertSorted(regions: seq<nat>, base: nat, idx: nat)
    requires Sorted(regions) && base !in regions && base > 0 && base % REGION_BYTES == 0 && idx <= |regions|
    requires forall i :: 0 <= i < idx ==> regions[i] < base
    requires forall i :: idx <= i < |regions| ==> base <= regions[i]
    ensures Sorted(regions[..idx] + [base] + regions[idx..])
    ensures BaseSet(regions[..idx] + [base] + regions[idx..]) == BaseSet(regions) + {base}
  {
    var regions' := regions[..idx] + [base] + regions[idx..];
    assert forall i :: 0 <= i < |regions'| ==>
      regions'[i] == if i < idx then regions[i] else if i == idx then base else regions[i - 1];
    assert Sorted(regions');
    forall r ensures r in regions' <==> r in regions || r == base {
      hide Sorted;
      if r in regions {
        var i :| 0 <= i < |regions| && regions[i] == r;
        assert regions'[if i < idx then i else i + 1] == r;
      }
      assert regions'[idx] == base;
    }
  }
}
