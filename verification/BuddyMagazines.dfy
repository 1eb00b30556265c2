/** The magazine paths over the allocator objects themselves: a thread's magazine in front of the
    striped buddy allocators, whose contracts are the stripe steps of the protocol. */
module BuddyMagazines {
  import opened Wrappers
  import opened Blocks
  import opened Tiling
  import opened BuddyAllocator
  import opened MagazineProtocol
  import M = Magazines

  ghost function View(b: BuddyHeap): Stripe
    reads b
  {
    Stripe(b.Bases(), b.free, b.live)
  }

  lemma ViewOk(b: BuddyHeap)
    requires b.Valid()
    ensures StripeOk(View(b))
  {
    hide Tiles;
  }

  /** One visit to a stripe for a refill is one allocation step of the protocol. */
  method VisitRefill(b: BuddyHeap, order: nat, answers: seq<Answer>) returns (out: seq<nat>)
    requires b.Valid() && order <= MAX_ORDER
    requires forall i :: 0 <= i < |answers| ==> Fresh(answers[i], b.Bases())
    requires forall i, j :: 0 <= i < j < |answers| && answers[i].Granted? && answers[j].Granted? ==>
               answers[i].base != answers[j].base
    modifies b
    ensures b.Valid() && |out| <= |answers| && Distinct(out)
    ensures Allocates(old(View(b)), View(b), BlocksOf(out, order))
    ensures View(b).bases <= old(View(b)).bases + GrantedBases(answers)
    ensures out == [] ==> View(b) == old(View(b))
  {
    hide Tiles, BuddyHeap.TiersOk, BuddyHeap.CoreOk, BuddyHeap.BudgetOk;
    out := b.AllocOrderBatch(order, answers);
    ViewOk(b);
  }

  /** One visit to a stripe for a flush is one free step of the protocol. */
  method VisitFlush(b: BuddyHeap, order: nat, blocks: seq<nat>)
    requires b.Valid() && Distinct(blocks) && BlocksOf(blocks, order) <= b.live
    modifies b
    ensures b.Valid() && Frees(old(View(b)), View(b), BlocksOf(blocks, order))
  {
    hide Tiles, BuddyHeap.TiersOk, BuddyHeap.CoreOk, BuddyHeap.BudgetOk;
    b.DeallocOrderBatch(order, blocks);
    ViewOk(b);
  }

  /** A magazined allocation: the newest cached block, or a batch whose first block is returned and
      whose rest fills the empty row. */
  method AllocViaMagazine(mag: M.Magazine, owner: nat, b: BuddyHeap, idx: nat, answers: seq<Answer>)
    returns (r: Option<nat>, ghost out: seq<nat>)
    requires mag.Valid() && mag.caps == M.ORDER_CAPS && b.Valid() && idx < ROWS
    requires |answers| == M.RefillCount(M.ORDER_CAPS, idx)
    requires forall i :: 0 <= i < |answers| ==> Fresh(answers[i], b.Bases())
    requires forall i, j :: 0 <= i < j < |answers| && answers[i].Granted? && answers[j].Granted? ==>
               answers[i].base != answers[j].base
    modifies mag, mag.counts, mag.slots, b
    ensures mag.Valid() && b.Valid()
    ensures forall i :: 0 <= i < ROWS && i != idx ==> mag.Row(owner, i) == old(mag.Row(owner, i))
    ensures old(mag.Row(owner, idx)) != [] ==>
              r.Some? && old(mag.Row(owner, idx)) == mag.Row(owner, idx) + [r.value] && View(b) == old(View(b))
    ensures old(mag.Row(owner, idx)) == [] ==>
              && Distinct(out) && Allocates(old(View(b)), View(b), BlocksOf(out, OrderOf(idx)))
              && (r.None? <==> out == []) && (r.Some? ==> r.value == out[0] && mag.Row(owner, idx) == out[1..])
              && (r.None? ==> mag.Row(owner, idx) == [] && View(b) == old(View(b)))
              && |out| <= |answers| && View(b).bases <= old(View(b)).bases + GrantedBases(answers)
  {
    hide BuddyHeap.Valid, Distinct, Allocates, BlocksOf, GrantedBases;
    M.RefillFits(idx);
    r := mag.Pop(owner, idx);
    out := [];
    if r.Some? {
      return;
    }
    var buf := VisitRefill(b, OrderOf(idx), answers);
    out := buf;
    if |buf| == 0 {
      return None, out;
    }
    for k := 1 to |buf|
      modifies mag, mag.counts, mag.slots
      invariant mag.Valid() && mag.owner == owner && mag.Row(owner, idx) == buf[1..k]
      invariant forall i :: 0 <= i < ROWS && i != idx ==> mag.Row(owner, i) == old(mag.Row(owner, i))
    {
      var pushed := mag.Push(owner, idx, buf[k]);
      assert buf[1..k] + [buf[k]] == buf[1..k + 1];
    }
    r := Some(buf[0]);
  }

  /** The grouping pass: the flushed blocks one stripe owns, in order. */
  method GroupLoop(registry: map<nat, nat>, blocks: seq<nat>, stripe: nat) returns (grouped: seq<nat>)
    ensures grouped == Group(registry, blocks, stripe)
  {
    hide StripeOf;
    grouped := [];
    for i := 0 to |blocks|
      invariant grouped == Group(registry, blocks[..i], stripe)
    {
      assert blocks[..i + 1][..i] == blocks[..i];
      if StripeOf(registry, blocks[i]) == Some(stripe) {
        grouped := grouped + [blocks[i]];
      }
    }
    assert blocks[..|blocks|] == blocks;
  }

  ghost predicate Separate(stripes: seq<BuddyHeap>) {
    forall i, j :: 0 <= i < j < |stripes| ==> stripes[i] != stripes[j]
  }

  ghost predicate AllValid(stripes: seq<BuddyHeap>)
    reads stripes
  {
    forall i :: 0 <= i < |stripes| ==> stripes[i].Valid()
  }

  /** What the protocol proves of every flush: each group is live, once, in its stripe. */
  ghost predicate Legal(stripes: seq<BuddyHeap>, registry: map<nat, nat>, blocks: seq<nat>, order: nat)
    reads stripes
  {
    forall i: nat :: i < |stripes| ==>
      Distinct(Group(registry, blocks, i)) && BlocksOf(Group(registry, blocks, i), order) <= stripes[i].live
  }

  ghost function RowsOf(mag: M.Magazine, owner: nat): (r: seq<seq<nat>>)
    requires mag.Valid() && mag.caps == M.ORDER_CAPS
    reads mag, mag.counts, mag.slots
    ensures |r| == ROWS && forall i :: 0 <= i < ROWS ==> r[i] == mag.Row(owner, i)
  {
    seq(ROWS, i requires mag.Valid() && mag.caps == M.ORDER_CAPS
        && 0 <= i < ROWS reads mag, mag.counts, mag.slots => mag.Row(owner, i))
  }

  ghost function Views(stripes: seq<BuddyHeap>): (r: seq<Stripe>)
    reads stripes
    ensures |r| == |stripes| && forall i :: 0 <= i < |r| ==> r[i] == View(stripes[i])
  {
    seq(|stripes|, i requires 0 <= i < |stripes| reads stripes => View(stripes[i]))
  }

  /** Every stripe lost exactly its own group. */
  ghost predicate Returned(before: seq<Stripe>, after: seq<Stripe>, registry: map<nat, nat>, blocks: seq<nat>,
      order: nat)
  {
    |before| == |after| && forall i :: 0 <= i < |before| ==>
      Frees(before[i], after[i], BlocksOf(Group(registry, blocks, i), order))
  }

  /** Return a flush, stripe by stripe: every stripe gets back exactly its own blocks. */
  method ReturnGroups(stripes: seq<BuddyHeap>, registry: map<nat, nat>, blocks: seq<nat>, order: nat)
    requires Separate(stripes) && AllValid(stripes) && Legal(stripes, registry, blocks, order)
    modifies stripes
    ensures AllValid(stripes)
    ensures Returned(old(Views(stripes)), Views(stripes), registry, blocks, order)
  {
    hide BuddyHeap.Valid, Distinct, BlocksOf, Group, Frees;
    for s := 0 to |stripes|
      invariant AllValid(stripes)
      invariant forall i :: 0 <= i < s ==>
                Frees(old(View(stripes[i])), View(stripes[i]), BlocksOf(Group(registry, blocks, i), order))
      invariant forall i :: s <= i < |stripes| ==> View(stripes[i]) == old(View(stripes[i]))
    {
      var grouped := GroupLoop(registry, blocks, s);
      if |grouped| > 0 {
        assert Separate(stripes);
        VisitFlush(stripes[s], order, grouped);
      } else {
        NoneFreed(stripes[s], order);
      }
    }
  }

  lemma NoneFreed(b: BuddyHeap, order: nat)
    requires b.Valid()
    ensures Frees(View(b), View(b), BlocksOf([], order))
  {
    hide BuddyHeap.Valid, StripeOk;
    ViewOk(b);
  }

  lemma FlushedIs(row: seq<nat>, idx: nat, block: nat)
    requires idx < ROWS && |row| >= M.ORDER_CAPS[idx]
    ensures var n := M.RefillCount(M.ORDER_CAPS, idx);
      n <= |row| && Flushed(row, idx, block) == M.TopFirst(row, n) + [block]
        && MagazineProtocol.Kept(row, idx) == row[..|row| - n]
  {
    M.RefillFits(idx);
  }

  /** Half a full row and the block that found it full. */
  method TakeHalf(mag: M.Magazine, owner: nat, idx: nat, block: nat) returns (blocks: seq<nat>)
    requires mag.Valid() && mag.caps == M.ORDER_CAPS && idx < ROWS && |mag.Row(owner, idx)| >= M.ORDER_CAPS[idx]
    modifies mag, mag.counts, mag.slots
    ensures mag.Valid() && blocks == Flushed(old(mag.Row(owner, idx)), idx, block)
    ensures RowsOf(mag, owner) == old(RowsOf(mag, owner))[idx := MagazineProtocol.Kept(old(mag.Row(owner, idx)), idx)]
  {
    hide Flushed, MagazineProtocol.Kept, M.TopFirst, M.RefillCount;
    M.RefillFits(idx);
    FlushedIs(mag.Row(owner, idx), idx, block);
    var buf := new nat[33](i => 0);
    var flush := M.RefillCount(M.ORDER_CAPS, idx);
    var n := mag.Take(owner, idx, buf, flush);
    buf[n] := block;
    blocks := buf[..n + 1];
  }

  /** A push below the cap; at the cap half the row and the block that found it full go back, each to
      its own stripe. */
  method FreeViaMagazine(mag: M.Magazine, owner: nat, stripes: seq<BuddyHeap>, registry: map<nat, nat>, idx: nat,
      block: nat) returns (pushed: bool)
    requires mag.Valid() && mag.caps == M.ORDER_CAPS && idx < ROWS && Separate(stripes) && AllValid(stripes)
    requires |mag.Row(owner, idx)| >= M.ORDER_CAPS[idx] ==>
               Legal(stripes, registry, Flushed(mag.Row(owner, idx), idx, block), OrderOf(idx))
    modifies mag, mag.counts, mag.slots, stripes
    ensures mag.Valid() && AllValid(stripes)
    ensures pushed <==> |old(mag.Row(owner, idx))| < M.ORDER_CAPS[idx]
    ensures var (row, rows) := (old(mag.Row(owner, idx)), old(RowsOf(mag, owner)));
      if pushed then
        RowsOf(mag, owner) == rows[idx := row + [block]] && Views(stripes) == old(Views(stripes))
      else
        && RowsOf(mag, owner) == rows[idx := MagazineProtocol.Kept(row, idx)]
        && Returned(old(Views(stripes)), Views(stripes), registry, Flushed(row, idx, block), OrderOf(idx))
  {
    hide BuddyHeap.Valid, Legal, AllValid, Separate, Returned, Flushed, MagazineProtocol.Kept, RowsOf, Views;
    ghost var rows := RowsOf(mag, owner);
    pushed := mag.Push(owner, idx, block);
    if pushed {
      assert RowsOf(mag, owner) == rows[idx := rows[idx] + [block]];
      return;
    }
    assert RowsOf(mag, owner) == rows;
    var blocks := TakeHalf(mag, owner, idx, block);
    ReturnGroups(stripes, registry, blocks, OrderOf(idx));
  }

  // ---- the methods are runs of the protocol ----------------------------------------------

  /** A protocol state whose stripes are these allocators and whose thread `t`, between calls, holds
      this magazine. */
  ghost predicate Shown(s: State, t: nat, mag: M.Magazine, owner: nat, stripes: seq<BuddyHeap>)
    requires mag.Valid() && mag.caps == M.ORDER_CAPS
    reads mag, mag.counts, mag.slots, stripes
  {
    s.stripes == Views(stripes) && t < |s.threads| && s.threads[t] == Local(RowsOf(mag, owner), Idle)
  }

  /** Freeing through the magazine, from any state the protocol's invariant allows, is a run of the
      protocol: a push, or a take, one visit per stripe and an end. The invariant is what makes every
      group handed to a stripe legal there. */
  method FreeInProtocol(mag: M.Magazine, owner: nat, stripes: seq<BuddyHeap>, registry: map<nat, nat>, idx: nat,
      block: nat, ghost s: State, ghost t: nat) returns (ghost actions: seq<Action>, ghost s': State)
    requires mag.Valid() && mag.caps == M.ORDER_CAPS && idx < ROWS && Separate(stripes) && AllValid(stripes)
    requires Inv(s) && Shown(s, t, mag, owner, stripes) && s.registry == registry
    requires Block(block, OrderOf(idx)) in s.user
    modifies mag, mag.counts, mag.slots, stripes
    ensures mag.Valid() && AllValid(stripes)
    ensures After(s, actions) == Some(s') && Inv(s') && Shown(s', t, mag, owner, stripes)
    ensures s'.user == s.user - {Block(block, OrderOf(idx))} && s'.registry == registry
  {
    hide BuddyHeap.Valid, Inv, After, Legal, AllValid, Separate, Frees, BlocksOf, Group, Distinct, Views, RowsOf, View,
         Flushed, MagazineProtocol.Kept;
    ghost var rows := RowsOf(mag, owner);
    if |rows[idx]| >= M.ORDER_CAPS[idx] { AllLegal(s, t, stripes, idx, block, rows); }
    var pushed := FreeViaMagazine(mag, owner, stripes, registry, idx, block);
    if pushed {
      actions, s' := PushRun(s, t, idx, block, rows);
    } else {
      actions, s' := FlushRun(s, t, idx, block, rows, Views(stripes));
    }
  }

  lemma NewRegions(s: State, home: nat, after: Stripe, answers: seq<Answer>)
    requires home < |s.stripes| && after.bases <= s.stripes[home].bases + GrantedBases(answers)
    requires forall i :: 0 <= i < |answers| && answers[i].Granted? ==> answers[i].base !in s.registry
    ensures FreshRegions(s, home, after)
  {
  }

  lemma AllLegal(s: State, t: nat, stripes: seq<BuddyHeap>, idx: nat, block: nat, rows: seq<seq<nat>>)
    requires Inv(s) && Holds(s, t, rows) && idx < ROWS && s.stripes == Views(stripes)
    requires |rows[idx]| >= M.ORDER_CAPS[idx] && Block(block, OrderOf(idx)) in s.user
    ensures Legal(stripes, s.registry, Flushed(rows[idx], idx, block), OrderOf(idx))
  {
    hide Inv, Flushed, Group, Distinct, BlocksOf;
    forall k: nat | k < |stripes|
      ensures var group := Group(s.registry, Flushed(rows[idx], idx, block), k);
        Distinct(group) && BlocksOf(group, OrderOf(idx)) <= stripes[k].live
    {
      FlushAllLegal(s, t, idx, block, rows, k);
      assert s.stripes[k] == View(stripes[k]);
    }
  }

  /** Allocating through the magazine is a run of the protocol: a pop, or a refill from the thread's
      stripe and a spread; nothing at all when memory is refused. */
  method AllocInProtocol(mag: M.Magazine, owner: nat, stripes: seq<BuddyHeap>, home: nat, idx: nat,
      answers: seq<Answer>, ghost s: State, ghost t: nat)
    returns (r: Option<nat>, ghost actions: seq<Action>, ghost s': State)
    requires mag.Valid() && mag.caps == M.ORDER_CAPS && idx < ROWS && Separate(stripes) && AllValid(stripes)
    requires Inv(s) && Shown(s, t, mag, owner, stripes) && home < |stripes|
    requires |answers| == M.RefillCount(M.ORDER_CAPS, idx)
    requires forall i :: 0 <= i < |answers| ==> Fresh(answers[i], stripes[home].Bases() + s.registry.Keys)
    requires forall i, j :: 0 <= i < j < |answers| && answers[i].Granted? && answers[j].Granted? ==>
               answers[i].base != answers[j].base
    modifies mag, mag.counts, mag.slots, stripes[home]
    ensures mag.Valid() && AllValid(stripes)
    ensures After(s, actions) == Some(s') && Inv(s') && Shown(s', t, mag, owner, stripes)
    ensures s'.user == s.user + if r.Some? then {Block(r.value, OrderOf(idx))} else {}
    ensures r.Some? ==> Block(r.value, OrderOf(idx)) !in s.user
  {
    hide BuddyHeap.Valid, Inv, After, Distinct, Allocates, BlocksOf, FreshRegions, Register, Views, RowsOf;
    ghost var rows, before := RowsOf(mag, owner), Views(stripes);
    ghost var out;
    r, out := AllocViaMagazine(mag, owner, stripes[home], idx, answers);
    assert Views(stripes) == before[home := View(stripes[home])] by {
      assert forall i :: 0 <= i < |stripes| && i != home ==> View(stripes[i]) == old(View(stripes[i]));
    }
    if rows[idx] != [] {
      actions, s' := PopRun(s, t, idx, rows, mag.Row(owner, idx), r.value);
      assert RowsOf(mag, owner) == rows[idx := mag.Row(owner, idx)];
    } else if r.Some? {
      NewRegions(s, home, View(stripes[home]), answers);
      actions, s' := RefillRun(s, t, idx, rows, home, out, View(stripes[home]));
      assert RowsOf(mag, owner) == rows[idx := out[1..]];
    } else {
      actions, s' := [], s;
      NoStep(s);
      assert RowsOf(mag, owner) == rows;
    }
  }

  ghost predicate RegistryOk(stripes: seq<BuddyHeap>, registry: map<nat, nat>)
    reads stripes
  {
    forall i: nat, base :: i < |stripes| && base in stripes[i].Bases() ==> base in registry && registry[base] == i
  }

  /** A live block whose order the stripe records. */
  ghost predicate Recorded(stripe: BuddyHeap, b: Block)
    reads stripe
  {
    stripe.recordOrders && b in stripe.live && b.order >= OOB_MIN_ORDER
  }

  /** The header-free free path recovers, from the address alone, the stripe and the order the block
      was allocated with. */
  method HeaderlessLookup(stripes: seq<BuddyHeap>, registry: map<nat, nat>, ptr: nat) returns (r: Option<(nat, nat)>)
    requires AllValid(stripes) && RegistryOk(stripes, registry)
    ensures forall i: nat, b :: i < |stripes| && Recorded(stripes[i], b) && b.addr == ptr ==> r == Some((i, b.order))
  {
    hide BuddyHeap.Valid;
    forall i: nat, b | i < |stripes| && b in stripes[i].live
        && b.addr == ptr ensures StripeOf(registry, ptr) == Some(i) {
      Owner(stripes[i], b);
    }
    var s := StripeOf(registry, ptr);
    if s.None? || s.value >= |stripes| {
      return None;
    }
    var order := stripes[s.value].HeaderlessOrder(ptr);
    return if order.None? then None else Some((s.value, order.value));
  }

  lemma Owner(buddy: BuddyHeap, b: Block)
    requires buddy.Valid() && b in buddy.live
    ensures RegionBase(b.addr) in buddy.Bases()
  {
    hide BlockSize, RegionBase, NoOverlap, NoGap, Bytes;
    assert b in buddy.free + buddy.live;
    assert Fits(b, buddy.Bases());
  }
}
