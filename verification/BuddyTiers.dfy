/** What the buddy allocator's three access tiers must look like for a given set of tiered
    blocks, stated on plain values, with one lemma per edit.

    Orders below `OOB_MIN_ORDER` live in a cache row or on an intrusive list threaded through
    block memory. Orders from `OOB_MIN_ORDER` on live only on out-of-band slot lists: all seven
    orders of a region share one pair of link arrays, and each order chains the regions that
    have a nonempty slot list. */
module BuddyTiers {
  import opened Bits
  import opened Blocks
  import opened Links
  import opened Tiling

  const ORDER_CACHE: nat := 32

  // ---- slot lists of one region ----------------------------------------------------------

  /** One region's link arrays (keyed by `slot + 1`) and its list ends per out-of-band order. */
  datatype SlotLinks = SlotLinks(prev: map<nat, nat>, next: map<nat, nat>, head: seq<nat>, tail: seq<nat>)

  /** The links thread the seven slot lists, which share no slot. */
  ghost predicate SlotLists(m: SlotLinks, lists: seq<seq<nat>>) {
    && |m.head| == |m.tail| == |lists| == OOB_ORDERS
    && (forall i :: 0 <= i < OOB_ORDERS ==>
          Linked(m.prev, m.next, lists[i]) && m.head[i] == First(lists[i]) && m.tail[i] == Last(lists[i]))
    && (forall i, j :: 0 <= i < OOB_ORDERS && 0 <= j < OOB_ORDERS && i != j ==> Apart(lists[i], lists[j]))
  }

  ghost predicate Unlisted(lists: seq<seq<nat>>, e: nat) {
    forall i :: 0 <= i < |lists| ==> e !in lists[i]
  }

  /** Link slot `enc - 1` at the front of list `oi`. */
  method LinkFront(m: SlotLinks, oi: nat, enc: nat, ghost lists: seq<seq<nat>>) returns (r: SlotLinks)
    requires SlotLists(m, lists) && oi < OOB_ORDERS && enc > 0 && Unlisted(lists, enc)
    ensures SlotLists(r, lists[oi := [enc] + lists[oi]])
  {
    hide Linked;
    ghost var list := lists[oi];
    PushFront(m.prev, m.next, list, enc);
    HeadNull(m.prev, m.next, list);
    forall i | 0 <= i < OOB_ORDERS && i != oi
      ensures Linked(FrontPrev(m.prev, list, enc), FrontNext(m.next, list, enc), lists[i])
    {
      PushFrontApart(m.prev, m.next, list, enc, lists[i]);
    }
    var head := m.head[oi];
    var prev, next, tail := m.prev[enc := 0], m.next[enc := head], m.tail;
    if head != 0 {
      prev := prev[head := enc];
    } else {
      tail := tail[oi := enc];
    }
    assert prev == FrontPrev(m.prev, list, enc) && next == FrontNext(m.next, list, enc);
    hide FrontPrev, FrontNext;
    r := SlotLinks(prev, next, m.head[oi := enc], tail);
  }

  /** Link slot `enc - 1` at the back of list `oi`. */
  method LinkBack(m: SlotLinks, oi: nat, enc: nat, ghost lists: seq<seq<nat>>) returns (r: SlotLinks)
    requires SlotLists(m, lists) && oi < OOB_ORDERS && enc > 0 && Unlisted(lists, enc)
    ensures SlotLists(r, lists[oi := lists[oi] + [enc]])
  {
    hide Linked;
    ghost var list := lists[oi];
    PushBack(m.prev, m.next, list, enc);
    HeadNull(m.prev, m.next, list);
    forall i | 0 <= i < OOB_ORDERS && i != oi
      ensures Linked(BackPrev(m.prev, list, enc), BackNext(m.next, list, enc), lists[i])
    {
      PushBackApart(m.prev, m.next, list, enc, lists[i]);
    }
    var tail := m.tail[oi];
    var next, prev, head := m.next[enc := 0], m.prev[enc := tail], m.head;
    if tail != 0 {
      next := next[tail := enc];
    } else {
      head := head[oi := enc];
    }
    assert prev == BackPrev(m.prev, list, enc) && next == BackNext(m.next, list, enc);
    hide BackPrev, BackNext;
    r := SlotLinks(prev, next, head, m.tail[oi := enc]);
  }

  lemma CutLists(m: SlotLinks, oi: nat, lists: seq<seq<nat>>, k: nat)
    requires SlotLists(m, lists) && oi < OOB_ORDERS && k < |lists[oi]|
    ensures var list := lists[oi];
      SlotLists(SlotLinks(CutPrev(m.prev, list, k), CutNext(m.next, list, k),
                          m.head[oi := First(Drop(list, k))], m.tail[oi := Last(Drop(list, k))]),
                lists[oi := Drop(list, k)])
  {
    hide Apart, Linked, Drop, CutPrev, CutNext, First, Last;
    var list := lists[oi];
    Cut(m.prev, m.next, list, k);
    forall i | 0 <= i < OOB_ORDERS && i != oi
      ensures Linked(CutPrev(m.prev, list, k), CutNext(m.next, list, k), lists[i])
      ensures Apart(Drop(list, k), lists[i]) && Apart(lists[i], Drop(list, k))
    {
      CutApartBoth(m.prev, m.next, list, k, lists[i]);
    }
  }

  /** `list'` is `list` without one occurrence of `x`, order kept. */
  ghost predicate Without(list: seq<nat>, list': seq<nat>, x: nat) {
    exists k :: 0 <= k < |list| && list[k] == x && list' == Drop(list, k)
  }

  lemma WithoutAt(list: seq<nat>, k: nat)
    requires k < |list|
    ensures Without(list, Drop(list, k), list[k])
  {
    hide Drop;
  }

  /** Cut slot `enc - 1` out of list `oi`, at whichever end or middle it sits. */
  method LinkCut(m: SlotLinks, oi: nat, enc: nat, ghost lists: seq<seq<nat>>)
    returns (r: SlotLinks, ghost list': seq<nat>)
    requires SlotLists(m, lists) && oi < OOB_ORDERS && enc in lists[oi]
    ensures SlotLists(r, lists[oi := list'])
    ensures |r.head| == OOB_ORDERS && (r.head[oi] == 0 <==> list' == [])
    ensures Without(lists[oi], list', enc)
    ensures forall x :: x in list' <==> x != enc && x in lists[oi]
  {
    ghost var list := lists[oi];
    ghost var k :| 0 <= k < |list| && list[k] == enc;
    CutLists(m, oi, lists, k);
    CutEnds(list, k);
    DropMembers(list, k);
    CutNull(m.prev, m.next, list, k);
    list' := Drop(list, k);
    WithoutAt(list, k);
    hide Without;
    Ends(m.prev, m.next, list, k);
    assert m.head[oi := First(list)] == m.head && m.tail[oi := Last(list)] == m.tail;
    hide Linked, Drop, First, Last, Apart;
    var p, n := m.prev[enc], m.next[enc];
    var prev, next, head, tail := m.prev, m.next, m.head, m.tail;
    if p == 0 {
      head := head[oi := n];
    } else {
      next := next[p := n];
    }
    assert next == CutNext(m.next, list, k) && head == m.head[oi := First(list')];
    if n == 0 {
      tail := tail[oi := p];
    } else {
      prev := prev[n := p];
    }
    assert prev == CutPrev(m.prev, list, k) && tail == m.tail[oi := Last(list')];
    r := SlotLinks(prev, next, head, tail);
  }

  // ---- which blocks the slot lists hold --------------------------------------------------

  ghost function SlotBlock(base: nat, e: nat, oi: nat): Block
    requires e > 0
  {
    Block(base + (e - 1) * SLOT_BYTES, OOB_MIN_ORDER + oi)
  }

  /** Every region's slot lists hold exactly the tiered blocks of that region and order. */
  ghost predicate SlotsHold(slots: map<nat, seq<seq<nat>>>, bases: set<nat>, tiered: set<Block>) {
    && slots.Keys == bases
    && (forall base :: base in bases ==> |slots[base]| == OOB_ORDERS)
    && (forall base, oi, e: nat {:trigger e in slots[base][oi]} :: base in bases && 0 <= oi < OOB_ORDERS ==>
          (e in slots[base][oi] <==> 1 <= e <= SLOTS && SlotBlock(base, e, oi) in tiered))
  }

  /** Where an out-of-band block is filed. */
  lemma Filed(b: Block, bases: set<nat>)
    requires Fits(b, bases) && b.order >= OOB_MIN_ORDER
    ensures SlotOf(b.addr) < SLOTS
    ensures SlotBlock(RegionBase(b.addr), SlotOf(b.addr) + 1, b.order - OOB_MIN_ORDER) == b
  {
    SlotGeometry(b);
  }

  lemma SlotBlockBase(base: nat, e: nat, oi: nat)
    requires base % REGION_BYTES == 0 && 1 <= e <= SLOTS
    ensures RegionBase(SlotBlock(base, e, oi).addr) == base
    ensures SlotOf(SlotBlock(base, e, oi).addr) == e - 1
  {
  }

  lemma SlotsHoldAdd(slots: map<nat, seq<seq<nat>>>, bases: set<nat>, tiered: set<Block>,
                     b: Block, list: seq<nat>)
    requires SlotsHold(slots, bases, tiered) && Fits(b, bases) && b.order >= OOB_MIN_ORDER
    requires forall base :: base in bases ==> base % REGION_BYTES == 0
    requires var base, oi, e := RegionBase(b.addr), b.order - OOB_MIN_ORDER, SlotOf(b.addr) + 1;
      forall x :: x in list <==> x == e || x in slots[base][oi]
    ensures var base, oi := RegionBase(b.addr), b.order - OOB_MIN_ORDER;
      SlotsHold(slots[base := slots[base][oi := list]], bases, tiered + {b})
  {
    var base, oi := RegionBase(b.addr), b.order - OOB_MIN_ORDER;
    var slots' := slots[base := slots[base][oi := list]];
    Filed(b, bases);
    hide BlockSize;
    forall base', oi', e: nat | base' in bases && 0 <= oi' < OOB_ORDERS
      ensures e in slots'[base'][oi'] <==> 1 <= e <= SLOTS && SlotBlock(base', e, oi') in tiered + {b}
    {
      if 1 <= e <= SLOTS { SlotBlockBase(base', e, oi'); }
      assert e in slots[base'][oi'] <==> 1 <= e <= SLOTS && SlotBlock(base', e, oi') in tiered;
    }
  }

  lemma SlotsHoldRemove(slots: map<nat, seq<seq<nat>>>, bases: set<nat>, tiered: set<Block>,
                        b: Block, list: seq<nat>)
    requires SlotsHold(slots, bases, tiered) && Fits(b, bases) && b.order >= OOB_MIN_ORDER
    requires forall base :: base in bases ==> base % REGION_BYTES == 0
    requires var base, oi, e := RegionBase(b.addr), b.order - OOB_MIN_ORDER, SlotOf(b.addr) + 1;
      forall x :: x in list <==> x != e && x in slots[base][oi]
    ensures var base, oi := RegionBase(b.addr), b.order - OOB_MIN_ORDER;
      SlotsHold(slots[base := slots[base][oi := list]], bases, tiered - {b})
  {
    var base, oi := RegionBase(b.addr), b.order - OOB_MIN_ORDER;
    var slots' := slots[base := slots[base][oi := list]];
    Filed(b, bases);
    hide BlockSize;
    forall base', oi', e: nat | base' in bases && 0 <= oi' < OOB_ORDERS
      ensures e in slots'[base'][oi'] <==> 1 <= e <= SLOTS && SlotBlock(base', e, oi') in tiered - {b}
    {
      if 1 <= e <= SLOTS { SlotBlockBase(base', e, oi'); }
      assert e in slots[base'][oi'] <==> 1 <= e <= SLOTS && SlotBlock(base', e, oi') in tiered;
    }
  }

  /** A block whose address starts no tiered block has a slot on no list of its region: this is
      why one link array can serve all seven orders. */
  lemma SlotUnlisted(slots: map<nat, seq<seq<nat>>>, bases: set<nat>, tiered: set<Block>, b: Block)
    requires SlotsHold(slots, bases, tiered) && Fits(b, bases) && b.order >= OOB_MIN_ORDER
    requires forall c :: c in tiered ==> c.addr != b.addr
    ensures Unlisted(slots[RegionBase(b.addr)], SlotOf(b.addr) + 1)
  {
    Filed(b, bases);
  }

  /** All regions' slot lists, keyed by region base. */
  ghost predicate RegionLists(links: map<nat, SlotLinks>, slots: map<nat, seq<seq<nat>>>, bases: set<nat>) {
    && links.Keys == slots.Keys == bases
    && forall base :: base in bases ==> SlotLists(links[base], slots[base])
  }

  /** The slot lists depend on the out-of-band blocks only, the rows on the others only. */
  lemma SlotsHoldSame(slots: map<nat, seq<seq<nat>>>, bases: set<nat>, tiered: set<Block>, tiered': set<Block>)
    requires SlotsHold(slots, bases, tiered)
    requires forall b: Block :: b.order >= OOB_MIN_ORDER ==> (b in tiered <==> b in tiered')
    ensures SlotsHold(slots, bases, tiered')
  {
  }

  // ---- chains of regions -----------------------------------------------------------------

  /** One chain of region bases per out-of-band order. */
  ghost predicate ChainLinks(prev: seq<map<nat, nat>>, next: seq<map<nat, nat>>,
                             heads: seq<nat>, chains: seq<seq<nat>>)
  {
    && |prev| == |next| == |heads| == |chains| == OOB_ORDERS
    && (forall i :: 0 <= i < OOB_ORDERS ==>
          Linked(prev[i], next[i], chains[i]) && heads[i] == First(chains[i]))
  }

  /** A region is on an order's chain exactly when its slot list at that order is nonempty. */
  ghost predicate ChainMembers(chains: seq<seq<nat>>, slots: map<nat, seq<seq<nat>>>, bases: set<nat>) {
    && |chains| == OOB_ORDERS && slots.Keys == bases
    && (forall base :: base in bases ==> |slots[base]| == OOB_ORDERS)
    && (forall i, base {:trigger base in chains[i]} {:trigger slots[base][i]} :: 0 <= i < OOB_ORDERS ==>
          (base in chains[i] <==> base in bases && slots[base][i] != []))
  }

  /** Editing one slot list and, on its empty/nonempty edge, its order's chain. */
  lemma ChainMembersEdit(chains: seq<seq<nat>>, slots: map<nat, seq<seq<nat>>>, bases: set<nat>,
                         base: nat, oi: nat, list: seq<nat>, chain: seq<nat>)
    requires ChainMembers(chains, slots, bases) && base in bases && oi < OOB_ORDERS
    requires forall r :: r in chain <==> if r == base then list != [] else r in chains[oi]
    ensures ChainMembers(chains[oi := chain], slots[base := slots[base][oi := list]], bases)
  {
  }

  /** An order's chain is empty exactly when no tiered block has that order. */
  lemma ChainEmpty(chains: seq<seq<nat>>, slots: map<nat, seq<seq<nat>>>, bases: set<nat>, tiered: set<Block>, oi: nat)
    requires ChainMembers(chains, slots, bases) && SlotsHold(slots, bases, tiered) && AllFit(tiered, bases)
    requires oi < OOB_ORDERS
    ensures chains[oi] == [] <==> OfOrder(tiered, OOB_MIN_ORDER + oi) == {}
  {
    hide BlockSize;
    if chains[oi] != [] {
      var base := chains[oi][0];
      assert base in chains[oi];
      var e := slots[base][oi][0];
      assert e in slots[base][oi];
      assert SlotBlock(base, e, oi) in OfOrder(tiered, OOB_MIN_ORDER + oi);
    }
    if OfOrder(tiered, OOB_MIN_ORDER + oi) != {} {
      var b :| b in OfOrder(tiered, OOB_MIN_ORDER + oi);
      Filed(b, bases);
      assert SlotOf(b.addr) + 1 in slots[RegionBase(b.addr)][oi];
      assert RegionBase(b.addr) in chains[oi];
    }
  }

  // ---- cache rows and intrusive lists ----------------------------------------------------

  ghost predicate NodeLists(prev: map<nat, nat>, next: map<nat, nat>, heads: seq<nat>, nodes: seq<seq<nat>>) {
    && |heads| == |nodes| == NUM_ORDERS
    && (forall o :: 0 <= o < NUM_ORDERS ==> Linked(prev, next, nodes[o]) && heads[o] == First(nodes[o]))
    && (forall o, p :: 0 <= o < NUM_ORDERS && 0 <= p < NUM_ORDERS && o != p ==> Apart(nodes[o], nodes[p]))
  }

  /** Below `OOB_MIN_ORDER` each tiered block is in its cache row or on its intrusive list,
      never both, never twice; from there on both stay empty. */
  ghost predicate RowsHold(cache: seq<seq<nat>>, nodes: seq<seq<nat>>, tiered: set<Block>) {
    && |cache| == |nodes| == NUM_ORDERS
    && (forall o :: 0 <= o < NUM_ORDERS ==> |cache[o]| <= ORDER_CACHE && NoDup(cache[o]))
    && (forall o :: OOB_MIN_ORDER <= o < NUM_ORDERS ==> cache[o] == [] && nodes[o] == [])
    && (forall o, a :: 0 <= o < OOB_MIN_ORDER && a in cache[o] ==> a !in nodes[o] && Block(a, o) in tiered)
    && (forall o, a :: 0 <= o < OOB_MIN_ORDER && a in nodes[o] ==> Block(a, o) in tiered)
    && (forall b :: b in tiered && b.order < OOB_MIN_ORDER ==> b.addr in cache[b.order] || b.addr in nodes[b.order])
  }

  lemma RowsHoldSame(cache: seq<seq<nat>>, nodes: seq<seq<nat>>, tiered: set<Block>, tiered': set<Block>)
    requires RowsHold(cache, nodes, tiered)
    requires forall b: Block :: b.order < OOB_MIN_ORDER ==> (b in tiered <==> b in tiered')
    ensures RowsHold(cache, nodes, tiered')
  {
  }

  /** A block whose address starts no tiered block is in no row and on no intrusive list. */
  lemma RowUnlisted(cache: seq<seq<nat>>, nodes: seq<seq<nat>>, tiered: set<Block>, a: nat)
    requires RowsHold(cache, nodes, tiered) && forall c :: c in tiered ==> c.addr != a
    ensures Unlisted(nodes, a) && Unlisted(cache, a)
  {
  }

  lemma RowsPushNode(cache: seq<seq<nat>>, nodes: seq<seq<nat>>, tiered: set<Block>, o: nat, a: nat)
    requires RowsHold(cache, nodes, tiered) && o < OOB_MIN_ORDER && Unlisted(cache, a)
    ensures RowsHold(cache, nodes[o := [a] + nodes[o]], tiered + {Block(a, o)})
  {
  }

  lemma RowsCutNode(cache: seq<seq<nat>>, nodes: seq<seq<nat>>, tiered: set<Block>, o: nat, k: nat)
    requires RowsHold(cache, nodes, tiered) && o < OOB_MIN_ORDER && k < |nodes[o]| && NoDup(nodes[o])
    ensures RowsHold(cache, nodes[o := Drop(nodes[o], k)], tiered - {Block(nodes[o][k], o)})
  {
    DropMembers(nodes[o], k);
    hide Drop;
  }

  lemma RowsPushCache(cache: seq<seq<nat>>, nodes: seq<seq<nat>>, tiered: set<Block>, o: nat, a: nat)
    requires RowsHold(cache, nodes, tiered) && o < OOB_MIN_ORDER && Unlisted(cache, a) && Unlisted(nodes, a)
    requires |cache[o]| < ORDER_CACHE
    ensures RowsHold(cache[o := cache[o] + [a]], nodes, tiered + {Block(a, o)})
  {
    assert NoDup(cache[o] + [a]);
  }

  /** Swap-removal of entry `i`, which for the last entry is a plain pop. */
  ghost function SwapRemove(row: seq<nat>, i: nat): seq<nat>
    requires i < |row|
  {
    row[i := row[|row| - 1]][..|row| - 1]
  }

  lemma SwapRemoveMembers(row: seq<nat>, i: nat)
    requires NoDup(row) && i < |row|
    ensures NoDup(SwapRemove(row, i))
    ensures forall a :: a in SwapRemove(row, i) <==> a in row && a != row[i]
  {
    var row' := SwapRemove(row, i);
    forall a | a in row && a != row[i] ensures a in row' {
      var j :| 0 <= j < |row| && row[j] == a;
      assert row'[if j == |row| - 1 then i else j] == a;
    }
  }

  lemma RowsDropCache(cache: seq<seq<nat>>, nodes: seq<seq<nat>>, tiered: set<Block>, o: nat, i: nat)
    requires RowsHold(cache, nodes, tiered) && o < OOB_MIN_ORDER && i < |cache[o]|
    ensures RowsHold(cache[o := SwapRemove(cache[o], i)], nodes, tiered - {Block(cache[o][i], o)})
  {
    SwapRemoveMembers(cache[o], i);
    hide SwapRemove, NoDup;
  }

  lemma NodeListsPush(prev: map<nat, nat>, next: map<nat, nat>, heads: seq<nat>, nodes: seq<seq<nat>>, o: nat, n: nat)
    requires NodeLists(prev, next, heads, nodes) && o < NUM_ORDERS && n != 0 && Unlisted(nodes, n)
    ensures NodeLists(FrontPrev(prev, nodes[o], n), FrontNext(next, nodes[o], n),
                      heads[o := n], nodes[o := [n] + nodes[o]])
  {
    PushFront(prev, next, nodes[o], n);
    forall p | 0 <= p < NUM_ORDERS && p != o
      ensures Linked(FrontPrev(prev, nodes[o], n), FrontNext(next, nodes[o], n), nodes[p])
    {
      PushFrontApart(prev, next, nodes[o], n, nodes[p]);
    }
    hide Linked, FrontPrev, FrontNext;
  }

  lemma NodeListsCut(prev: map<nat, nat>, next: map<nat, nat>, heads: seq<nat>, nodes: seq<seq<nat>>, o: nat, k: nat)
    requires NodeLists(prev, next, heads, nodes) && o < NUM_ORDERS && k < |nodes[o]|
    ensures NodeLists(CutPrev(prev, nodes[o], k), CutNext(next, nodes[o], k),
                      heads[o := First(Drop(nodes[o], k))], nodes[o := Drop(nodes[o], k)])
  {
    hide Apart, Linked, Drop, CutPrev, CutNext, First;
    Cut(prev, next, nodes[o], k);
    forall p | 0 <= p < NUM_ORDERS && p != o
      ensures Linked(CutPrev(prev, nodes[o], k), CutNext(next, nodes[o], k), nodes[p])
      ensures Apart(Drop(nodes[o], k), nodes[p]) && Apart(nodes[p], Drop(nodes[o], k))
    {
      CutApartBoth(prev, next, nodes[o], k, nodes[p]);
    }
  }

  // ---- counts ----------------------------------------------------------------------------

  ghost function OfOrder(blocks: set<Block>, order: nat): set<Block> {
    set b | b in blocks && b.order == order
  }

  ghost predicate Lengths(len: seq<nat>, tiered: set<Block>) {
    && |len| == OOB_ORDERS
    && forall i :: 0 <= i < OOB_ORDERS ==> len[i] == |OfOrder(tiered, OOB_MIN_ORDER + i)|
  }

  lemma OfOrderAdd(blocks: set<Block>, b: Block, order: nat)
    requires b !in blocks
    ensures |OfOrder(blocks + {b}, order)| == |OfOrder(blocks, order)| + if b.order == order then 1 else 0
  {
    assert OfOrder(blocks + {b}, order) == OfOrder(blocks, order) + if b.order == order then {b} else {};
  }

  lemma LengthsAdd(len: seq<nat>, tiered: set<Block>, b: Block)
    requires Lengths(len, tiered) && b !in tiered && b.order <= MAX_ORDER
    ensures var oi := b.order - OOB_MIN_ORDER;
      Lengths(if oi >= 0 then len[oi := len[oi] + 1] else len, tiered + {b})
  {
    var oi := b.order - OOB_MIN_ORDER;
    var len' := if oi >= 0 then len[oi := len[oi] + 1] else len;
    forall i | 0 <= i < OOB_ORDERS ensures len'[i] == |OfOrder(tiered + {b}, OOB_MIN_ORDER + i)| {
      OfOrderAdd(tiered, b, OOB_MIN_ORDER + i);
    }
    hide OfOrder;
  }

  lemma LengthsRemove(len: seq<nat>, tiered: set<Block>, b: Block)
    requires Lengths(len, tiered) && b in tiered && b.order <= MAX_ORDER
    ensures var oi := b.order - OOB_MIN_ORDER;
      && (oi >= 0 ==> len[oi] > 0)
      && Lengths(if oi >= 0 then len[oi := len[oi] - 1] else len, tiered - {b})
  {
    assert tiered - {b} + {b} == tiered;
    OfOrderAdd(tiered - {b}, b, b.order);
    var oi := b.order - OOB_MIN_ORDER;
    assert oi >= 0 ==> len[oi] == |OfOrder(tiered, OOB_MIN_ORDER + oi)|;
    var len' := if oi >= 0 then len[oi := len[oi] - 1] else len;
    forall i | 0 <= i < OOB_ORDERS ensures len'[i] == |OfOrder(tiered - {b}, OOB_MIN_ORDER + i)| {
      OfOrderAdd(tiered - {b}, b, OOB_MIN_ORDER + i);
    }
    hide OfOrder;
  }

  // ---- the two halves of the tier invariant ------------------------------------------------

  ghost predicate RowsOk(prev: map<nat, nat>, next: map<nat, nat>, heads: seq<nat>, nodes: seq<seq<nat>>,
                         cache: seq<seq<nat>>, tiered: set<Block>)
  {
    NodeLists(prev, next, heads, nodes) && RowsHold(cache, nodes, tiered)
  }

  /** The out-of-band tier: per-region slot lists, what they hold, which regions each order
      chains, and how many blocks each order has. */
  ghost predicate OobOk(links: map<nat, SlotLinks>, slots: map<nat, seq<seq<nat>>>,
                        chains: seq<seq<nat>>, len: seq<nat>, bases: set<nat>, tiered: set<Block>)
  {
    && RegionLists(links, slots, bases)
    && SlotsHold(slots, bases, tiered)
    && ChainMembers(chains, slots, bases)
    && Lengths(len, tiered)
    && AllFit(tiered, bases)
    && forall base :: base in bases ==> base > 0 && base % REGION_BYTES == 0
  }

  /** The block a slot list edit is about, at its region, order index and slot code. */
  ghost predicate At(b: Block, bases: set<nat>, base: nat, oi: nat, e: nat) {
    && Fits(b, bases) && oi < OOB_ORDERS && b.order == OOB_MIN_ORDER + oi
    && base == RegionBase(b.addr) && e == SlotOf(b.addr) + 1
  }

  lemma SlotFacts(links: map<nat, SlotLinks>, slots: map<nat, seq<seq<nat>>>,
                  chains: seq<seq<nat>>, len: seq<nat>, bases: set<nat>, tiered: set<Block>,
                  base: nat, oi: nat)
    requires OobOk(links, slots, chains, len, bases, tiered) && base in bases && oi < OOB_ORDERS
    ensures base in links && base in slots && SlotLists(links[base], slots[base])
    ensures |slots[base]| == |links[base].head| == |links[base].tail| == |len| == |chains| == OOB_ORDERS
    ensures links[base].head[oi] == First(slots[base][oi]) && links[base].tail[oi] == Last(slots[base][oi])
    ensures links[base].head[oi] == 0 <==> slots[base][oi] == []
    ensures links[base].tail[oi] == 0 <==> slots[base][oi] == []
    ensures base in chains[oi] <==> slots[base][oi] != []
    ensures forall r :: r in chains[oi] ==> r in bases
  {
    HeadNull(links[base].prev, links[base].next, slots[base][oi]);
  }

  lemma FreeSlot(links: map<nat, SlotLinks>, slots: map<nat, seq<seq<nat>>>,
                 chains: seq<seq<nat>>, len: seq<nat>, bases: set<nat>, tiered: set<Block>,
                 b: Block, base: nat, oi: nat, e: nat)
    requires OobOk(links, slots, chains, len, bases, tiered) && At(b, bases, base, oi, e)
    requires forall c :: c in tiered ==> c.addr != b.addr
    ensures base in slots && Unlisted(slots[base], e)
  {
    SlotUnlisted(slots, bases, tiered, b);
  }

  lemma UsedSlot(links: map<nat, SlotLinks>, slots: map<nat, seq<seq<nat>>>,
                 chains: seq<seq<nat>>, len: seq<nat>, bases: set<nat>, tiered: set<Block>,
                 b: Block, base: nat, oi: nat, e: nat)
    requires OobOk(links, slots, chains, len, bases, tiered) && At(b, bases, base, oi, e)
    requires b in tiered
    ensures base in slots && |slots[base]| == OOB_ORDERS && e in slots[base][oi] && NoDup(slots[base][oi])
  {
    Filed(b, bases);
    assert SlotLists(links[base], slots[base]);
  }

  lemma OobOkPush(links: map<nat, SlotLinks>, slots: map<nat, seq<seq<nat>>>,
                  chains: seq<seq<nat>>, len: seq<nat>, bases: set<nat>, tiered: set<Block>,
                  b: Block, base: nat, oi: nat, e: nat, m: SlotLinks, list: seq<nat>, chain: seq<nat>)
    requires OobOk(links, slots, chains, len, bases, tiered) && At(b, bases, base, oi, e)
    requires b !in tiered && SlotLists(m, slots[base][oi := list])
    requires forall x :: x in list <==> x == e || x in slots[base][oi]
    requires forall r :: r in chain <==> r == base || r in chains[oi]
    ensures OobOk(links[base := m], slots[base := slots[base][oi := list]], chains[oi := chain],
                  len[oi := len[oi] + 1], bases, tiered + {b})
  {
    hide SlotLists, BlockSize;
    SlotsHoldAdd(slots, bases, tiered, b, list);
    LengthsAdd(len, tiered, b);
    assert e in list;
    ChainMembersEdit(chains, slots, bases, base, oi, list, chain);
    hide SlotsHold, ChainMembers, Lengths, Fits;
  }

  lemma OobOkCut(links: map<nat, SlotLinks>, slots: map<nat, seq<seq<nat>>>,
                 chains: seq<seq<nat>>, len: seq<nat>, bases: set<nat>, tiered: set<Block>,
                 b: Block, base: nat, oi: nat, e: nat, m: SlotLinks, list: seq<nat>, chain: seq<nat>)
    requires OobOk(links, slots, chains, len, bases, tiered) && At(b, bases, base, oi, e)
    requires b in tiered && SlotLists(m, slots[base][oi := list])
    requires forall x :: x in list <==> x != e && x in slots[base][oi]
    requires forall r :: r in chain <==> if r == base then list != [] else r in chains[oi]
    ensures len[oi] > 0
    ensures OobOk(links[base := m], slots[base := slots[base][oi := list]], chains[oi := chain],
                  len[oi := len[oi] - 1], bases, tiered - {b})
  {
    hide SlotLists, BlockSize;
    SlotsHoldRemove(slots, bases, tiered, b, list);
    LengthsRemove(len, tiered, b);
    ChainMembersEdit(chains, slots, bases, base, oi, list, chain);
    hide SlotsHold, ChainMembers, Lengths, Fits;
  }

  ghost function NoLists(): (lists: seq<seq<nat>>)
    ensures |lists| == OOB_ORDERS && forall i :: 0 <= i < OOB_ORDERS ==> lists[i] == []
  {
    seq(OOB_ORDERS, i => [])
  }

  /** A fresh region's zeroed metadata is a valid empty state. */
  lemma OobOkGrow(links: map<nat, SlotLinks>, slots: map<nat, seq<seq<nat>>>,
                  chains: seq<seq<nat>>, len: seq<nat>, bases: set<nat>, tiered: set<Block>,
                  base: nat, m: SlotLinks)
    requires OobOk(links, slots, chains, len, bases, tiered)
    requires base !in bases && base > 0 && base % REGION_BYTES == 0
    requires |m.head| == |m.tail| == OOB_ORDERS
    requires forall i :: 0 <= i < OOB_ORDERS ==> m.head[i] == m.tail[i] == 0
    ensures OobOk(links[base := m], slots[base := NoLists()], chains, len, bases + {base}, tiered)
  {
    var slots', bases' := slots[base := NoLists()], bases + {base};
    assert SlotLists(m, NoLists());
    hide SlotLists, BlockSize;
    assert RegionLists(links[base := m], slots', bases');
    assert SlotsHold(slots', bases', tiered) by {
      forall base', oi, e: nat | base' in bases' && 0 <= oi < OOB_ORDERS
        ensures e in slots'[base'][oi] <==> 1 <= e <= SLOTS && SlotBlock(base', e, oi) in tiered
      {
        if 1 <= e <= SLOTS { SlotBlockBase(base', e, oi); }
      }
    }
    assert ChainMembers(chains, slots', bases');
  }

  lemma BitmapGrow(bitmap: map<nat, seq<bool>>, bases: set<nat>, free: set<Block>, base: nat, bits: seq<bool>)
    requires BitmapHolds(bitmap, bases, free) && base !in bases
    requires |bits| == BITMAP_BITS && forall i :: 0 <= i < |bits| ==> !bits[i]
    ensures BitmapHolds(bitmap[base := bits], bases + {base}, free)
  {
    var bitmap', bases' := bitmap[base := bits], bases + {base};
    forall b | Fits(b, bases')
      ensures BitPos(b) < BITMAP_BITS && (bitmap'[RegionBase(b.addr)][BitPos(b)] <==> b in free)
    {
      BitPosInjective(b, b);
      hide BlockSize, BitPos;
    }
    hide BlockSize, BitPos;
  }

  /** Edits below `OOB_MIN_ORDER` do not concern the out-of-band tier. */
  lemma OobOkLow(links: map<nat, SlotLinks>, slots: map<nat, seq<seq<nat>>>,
                 chains: seq<seq<nat>>, len: seq<nat>, bases: set<nat>, tiered: set<Block>, b: Block, add: bool)
    requires OobOk(links, slots, chains, len, bases, tiered)
    requires Fits(b, bases) && b.order < OOB_MIN_ORDER && (add <==> b !in tiered)
    ensures OobOk(links, slots, chains, len, bases, if add then tiered + {b} else tiered - {b})
  {
    hide BlockSize, RegionLists, ChainMembers;
    if add { LengthsAdd(len, tiered, b); } else { LengthsRemove(len, tiered, b); }
    SlotsHoldSame(slots, bases, tiered, if add then tiered + {b} else tiered - {b});
    hide SlotsHold, Lengths;
  }

  // ---- the bitmap ------------------------------------------------------------------------

  /** A block's bit is set exactly when the block is free. */
  ghost predicate BitmapHolds(bitmap: map<nat, seq<bool>>, bases: set<nat>, free: set<Block>) {
    && bitmap.Keys == bases
    && (forall base :: base in bases ==> |bitmap[base]| == BITMAP_BITS)
    && (forall b :: b in free ==> Fits(b, bases))
    && (forall b :: Fits(b, bases) ==> BitPos(b) < BITMAP_BITS && (bitmap[RegionBase(b.addr)][BitPos(b)] <==>
        b in free))
  }

  lemma BitsWrite(bitmap: map<nat, seq<bool>>, bases: set<nat>, free: set<Block>, b: Block, v: bool)
    requires BitmapHolds(bitmap, bases, free) && Fits(b, bases)
    ensures BitPos(b) < BITMAP_BITS
    ensures var base := RegionBase(b.addr);
      BitmapHolds(bitmap[base := bitmap[base][BitPos(b) := v]], bases, if v then free + {b} else free - {b})
  {
    var base := RegionBase(b.addr);
    var bitmap', free' := bitmap[base := bitmap[base][BitPos(b) := v]], if v then free + {b} else free - {b};
    forall c | Fits(c, bases)
      ensures BitPos(c) < BITMAP_BITS && (bitmap'[RegionBase(c.addr)][BitPos(c)] <==> c in free')
    {
      if RegionBase(c.addr) == base { BitPosInjective(b, c); }
      hide BlockSize, BitPos;
    }
    hide BitPos, BlockSize;
  }

  lemma {:induction false} CountOnce(list: seq<nat>, x: nat)
    requires NoDup(list)
    ensures multiset(list)[x] == if x in list then 1 else 0
  {
    if list != [] {
      CountOnce(list[1..], x);
      assert list == [list[0]] + list[1..];
    }
  }

  lemma OneRow(prev: map<nat, nat>, next: map<nat, nat>, heads: seq<nat>, nodes: seq<seq<nat>>,
               cache: seq<seq<nat>>, tiered: set<Block>, b: Block)
    requires RowsOk(prev, next, heads, nodes, cache, tiered) && b.order < OOB_MIN_ORDER
    ensures |cache| == |nodes| == NUM_ORDERS
    ensures multiset(cache[b.order])[b.addr] + multiset(nodes[b.order])[b.addr] == if b in tiered then 1 else 0
  {
    assert Linked(prev, next, nodes[b.order]);
    CountOnce(cache[b.order], b.addr);
    CountOnce(nodes[b.order], b.addr);
    hide Linked, NoDup;
    assert b == Block(b.addr, b.order);
  }

  lemma OneSlot(links: map<nat, SlotLinks>, slots: map<nat, seq<seq<nat>>>,
                chains: seq<seq<nat>>, len: seq<nat>, bases: set<nat>, tiered: set<Block>,
                b: Block, base: nat, oi: nat, e: nat)
    requires OobOk(links, slots, chains, len, bases, tiered) && At(b, bases, base, oi, e)
    ensures base in slots && |slots[base]| == OOB_ORDERS
    ensures multiset(slots[base][oi])[e] == (if b in tiered then 1 else 0)
    ensures b in tiered ==> forall i :: 0 <= i < OOB_ORDERS && i != oi ==> e !in slots[base][i]
  {
    hide OobOk, At, NoDup;
    SlotIff(links, slots, chains, len, bases, tiered, b, base, oi, e);
    SlotDistinct(links, slots, chains, len, bases, tiered, b, base, oi, e);
    CountOnce(slots[base][oi], e);
  }

  lemma SlotIff(links: map<nat, SlotLinks>, slots: map<nat, seq<seq<nat>>>,
                chains: seq<seq<nat>>, len: seq<nat>, bases: set<nat>, tiered: set<Block>,
                b: Block, base: nat, oi: nat, e: nat)
    requires OobOk(links, slots, chains, len, bases, tiered) && At(b, bases, base, oi, e)
    ensures base in slots && |slots[base]| == OOB_ORDERS && oi < OOB_ORDERS
    ensures e in slots[base][oi] <==> b in tiered
  {
    hide BlockSize, RegionBase, SlotOf, SlotBlock, RegionLists, ChainMembers, Lengths, AllFit;
    Filed(b, bases);
  }

  lemma SlotDistinct(links: map<nat, SlotLinks>, slots: map<nat, seq<seq<nat>>>,
                     chains: seq<seq<nat>>, len: seq<nat>, bases: set<nat>, tiered: set<Block>,
                     b: Block, base: nat, oi: nat, e: nat)
    requires OobOk(links, slots, chains, len, bases, tiered) && At(b, bases, base, oi, e)
    ensures base in slots && |slots[base]| == OOB_ORDERS && oi < OOB_ORDERS
    ensures NoDup(slots[base][oi])
    ensures e in slots[base][oi] ==> forall i :: 0 <= i < OOB_ORDERS && i != oi ==> e !in slots[base][i]
  {
    hide BlockSize, SlotsHold, ChainMembers, Lengths, AllFit;
    assert SlotLists(links[base], slots[base]);
  }
}
