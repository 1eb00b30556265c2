/** Buddy blocks between the central stripes, the per-thread magazines and the users, as atomic
    steps of any number of threads over any number of stripes of one instance. A stripe's lock makes
    each visit to it one step; everything else a thread does touches only its own magazine. */
module MagazineProtocol {
  import opened Wrappers
  import opened Blocks
  import opened Tiling
  import BuddyAllocator
  import M = Magazines

  const ROWS: nat := 5

  /** One stripe's allocator, as its own contract describes it. */
  datatype Stripe = Stripe(bases: set<nat>, free: set<Block>, live: set<Block>)

  /** What a thread is in the middle of: a refill not yet spread over its row, or a flush whose
      blocks of the stripes below `next` are already back. */
  datatype Hand = Idle | Refilled(idx: nat, blocks: seq<nat>) | Flushing(idx: nat, blocks: seq<nat>, next: nat)

  datatype Local = Local(rows: seq<seq<nat>>, hand: Hand)

  /** `registry` maps each region base to the stripe that mapped it. */
  datatype State = State(stripes: seq<Stripe>, registry: map<nat, nat>, threads: seq<Local>, user: set<Block>)

  ghost predicate StripeOk(s: Stripe) {
    Tiles(s.free + s.live, s.bases) && s.free !! s.live
  }

  function OrderOf(idx: nat): nat { M.MIN_MAGAZINE_ORDER + idx }

  function StripeOf(registry: map<nat, nat>, addr: nat): Option<nat> {
    if RegionBase(addr) in registry then Some(registry[RegionBase(addr)]) else None
  }

  /** The flush's grouping pass for one stripe. */
  function Group(registry: map<nat, nat>, blocks: seq<nat>, stripe: nat): seq<nat> {
    if blocks == [] then []
    else
      Group(registry, blocks[..|blocks| - 1], stripe)
      + if StripeOf(registry, blocks[|blocks| - 1]) == Some(stripe) then [blocks[|blocks| - 1]] else []
  }

  // ---- steps -----------------------------------------------------------------------------

  datatype Action =
    | PopHit(t: nat, idx: nat)
    | Refill(t: nat, idx: nat, stripe: nat, out: seq<nat>, after: Stripe)
    | Spread(t: nat)
    | PushHit(t: nat, idx: nat, addr: nat)
    | FlushTake(t: nat, idx: nat, addr: nat)
    | FlushStripe(t: nat, after: Stripe)
    | FlushEnd(t: nat)
    | DirectAlloc(stripe: nat, block: Block, after: Stripe)
    | DirectFree(block: Block, after: Stripe)

  /** What a batch allocation promises: the stripe still tiles, the blocks were not live before. */
  ghost predicate Allocates(s: Stripe, s': Stripe, blocks: set<Block>) {
    StripeOk(s') && s.bases <= s'.bases && s.live !! blocks && s'.live == s.live + blocks
  }

  /** What a batch free promises, given that each block is live there and named once. */
  ghost predicate Frees(s: Stripe, s': Stripe, blocks: set<Block>) {
    StripeOk(s') && s'.bases == s.bases && s'.live == s.live - blocks
  }

  ghost predicate Distinct(addrs: seq<nat>) {
    forall i, j :: 0 <= i < j < |addrs| ==> addrs[i] != addrs[j]
  }

  function Register(registry: map<nat, nat>, bases: set<nat>, stripe: nat): map<nat, nat> {
    map b | b in registry.Keys + bases :: if b in registry then registry[b] else stripe
  }

  /** Fresh regions come from the kernel: no stripe has them. */
  ghost predicate FreshRegions(s: State, stripe: nat, after: Stripe)
    requires stripe < |s.stripes|
  {
    forall b :: b in after.bases && b !in s.stripes[stripe].bases ==> b !in s.registry
  }

  ghost predicate Enabled(s: State, a: Action) {
    match a
    case PopHit(t, idx) =>
      t < |s.threads| && idx < ROWS && |s.threads[t].rows| == ROWS && s.threads[t].hand.Idle?
          && s.threads[t].rows[idx] != []
    case Refill(t, idx, stripe, out, after) =>
      && t < |s.threads| && idx < ROWS && |s.threads[t].rows| == ROWS && s.threads[t].hand.Idle?
          && s.threads[t].rows[idx] == []
      && stripe < |s.stripes| && 0 < |out| <= M.RefillCount(M.ORDER_CAPS, idx) && Distinct(out)
      && Allocates(s.stripes[stripe], after, BuddyAllocator.BlocksOf(out, OrderOf(idx)))
          && FreshRegions(s, stripe, after)
    case Spread(t) => t < |s.threads| && s.threads[t].hand.Refilled? && LocalOk(s.threads[t])
    case PushHit(t, idx, addr) =>
      && t < |s.threads| && idx < ROWS && |s.threads[t].rows| == ROWS && s.threads[t].hand.Idle?
      && |s.threads[t].rows[idx]| < M.ORDER_CAPS[idx] && Block(addr, OrderOf(idx)) in s.user
    case FlushTake(t, idx, addr) =>
      && t < |s.threads| && idx < ROWS && |s.threads[t].rows| == ROWS && s.threads[t].hand.Idle?
      && |s.threads[t].rows[idx]| >= M.ORDER_CAPS[idx] && Block(addr, OrderOf(idx)) in s.user
    case FlushStripe(t, after) =>
      && t < |s.threads| && s.threads[t].hand.Flushing? && s.threads[t].hand.next < |s.stripes|
      && var h := s.threads[t].hand;
      && Frees(s.stripes[h.next], after, BuddyAllocator.BlocksOf(Group(s.registry, h.blocks, h.next), OrderOf(h.idx)))
    case FlushEnd(t) => t < |s.threads| && s.threads[t].hand.Flushing? && s.threads[t].hand.next == |s.stripes|
    case DirectAlloc(stripe, block, after) =>
      stripe < |s.stripes| && Allocates(s.stripes[stripe], after, {block}) && FreshRegions(s, stripe, after)
    case DirectFree(block, after) =>
      && block in s.user && StripeOf(s.registry, block.addr).Some?
          && StripeOf(s.registry, block.addr).value < |s.stripes|
      && Frees(s.stripes[StripeOf(s.registry, block.addr).value], after, {block})
  }

  function SetRow(l: Local, idx: nat, row: seq<nat>): Local
    requires idx < |l.rows|
  {
    l.(rows := l.rows[idx := row])
  }

  ghost function Next(s: State, a: Action): State
    requires Enabled(s, a)
  {
    match a
    case PopHit(t, idx) =>
      var row := s.threads[t].rows[idx];
      s.(threads := s.threads[t := SetRow(s.threads[t], idx, row[..|row| - 1])],
         user := s.user + {Block(row[|row| - 1], OrderOf(idx))})
    case Refill(t, idx, stripe, out, after) =>
      s.(stripes := s.stripes[stripe := after], registry := Register(s.registry, after.bases, stripe),
         threads := s.threads[t := s.threads[t].(hand := Refilled(idx, out))])
    case Spread(t) =>
      var h := s.threads[t].hand;
      s.(threads := s.threads[t := SetRow(s.threads[t], h.idx, h.blocks[1..]).(hand := Idle)],
         user := s.user + {Block(h.blocks[0], OrderOf(h.idx))})
    case PushHit(t, idx, addr) =>
      s.(threads := s.threads[t := SetRow(s.threads[t], idx, s.threads[t].rows[idx] + [addr])],
         user := s.user - {Block(addr, OrderOf(idx))})
    case FlushTake(t, idx, addr) =>
      var row := s.threads[t].rows[idx];
      M.RefillFits(idx);
      var n := M.RefillCount(M.ORDER_CAPS, idx);
      s.(threads := s.threads[t := SetRow(s.threads[t], idx,
          row[..|row| - n]).(hand := Flushing(idx, M.TopFirst(row, n) + [addr], 0))],
         user := s.user - {Block(addr, OrderOf(idx))})
    case FlushStripe(t, after) =>
      var h := s.threads[t].hand;
      s.(stripes := s.stripes[h.next := after],
          threads := s.threads[t := s.threads[t].(hand := h.(next := h.next + 1))])
    case FlushEnd(t) =>
      s.(threads := s.threads[t := s.threads[t].(hand := Idle)])
    case DirectAlloc(stripe, block, after) =>
      s.(stripes := s.stripes[stripe := after], registry := Register(s.registry, after.bases, stripe),
          user := s.user + {block})
    case DirectFree(block, after) =>
      s.(stripes := s.stripes[StripeOf(s.registry, block.addr).value := after], user := s.user - {block})
  }

  // ---- the ledger: how often a block occurs in each place ----------------------------------

  function One(c: bool): nat { if c then 1 else 0 }

  function InRow(addrs: seq<nat>, order: nat, b: Block): nat {
    if addrs == [] then 0
    else InRow(addrs[..|addrs| - 1], order, b) + One(b == Block(addrs[|addrs| - 1], order))
  }

  function InRows(rows: seq<seq<nat>>, b: Block): nat {
    if rows == [] then 0 else InRows(rows[..|rows| - 1], b) + InRow(rows[|rows| - 1], OrderOf(|rows| - 1), b)
  }

  /** Blocks of a flush not yet returned. */
  function Pending(registry: map<nat, nat>, blocks: seq<nat>, next: nat): seq<nat> {
    if blocks == [] then []
    else
      var last := blocks[|blocks| - 1];
      Pending(registry, blocks[..|blocks| - 1], next)
      + if StripeOf(registry, last).Some? && StripeOf(registry, last).value >= next then [last] else []
  }

  function InHand(registry: map<nat, nat>, h: Hand, b: Block): nat {
    match h
    case Idle => 0
    case Refilled(idx, blocks) => InRow(blocks, OrderOf(idx), b)
    case Flushing(idx, blocks, next) => InRow(Pending(registry, blocks, next), OrderOf(idx), b)
  }

  function InLocal(registry: map<nat, nat>, l: Local, b: Block): nat {
    InRows(l.rows, b) + InHand(registry, l.hand, b)
  }

  function Held(registry: map<nat, nat>, threads: seq<Local>, b: Block): nat {
    if threads == [] then 0 else
        Held(registry, threads[..|threads| - 1], b) + InLocal(registry, threads[|threads| - 1], b)
  }

  function Live(stripes: seq<Stripe>, b: Block): nat {
    if stripes == [] then 0 else Live(stripes[..|stripes| - 1], b) + One(b in stripes[|stripes| - 1].live)
  }

  ghost predicate Registered(registry: map<nat, nat>, stripes: seq<Stripe>) {
    && (forall b :: b in registry ==> registry[b] < |stripes| && b in stripes[registry[b]].bases)
    && (forall i, b :: 0 <= i < |stripes| && b in stripes[i].bases ==> b in registry && registry[b] == i)
  }

  /** A thread's rows keep their caps, and a refill in hand is for an empty row. */
  ghost predicate LocalOk(l: Local) {
    && |l.rows| == ROWS && (forall i :: 0 <= i < ROWS ==> |l.rows[i]| <= M.ORDER_CAPS[i])
    && match l.hand
       case Idle => true
       case Refilled(idx, blocks) => idx < ROWS && l.rows[idx] == [] && 0 < |blocks| <= M.RefillCount(M.ORDER_CAPS, idx)
       case Flushing(idx, blocks, next) => idx < ROWS
  }

  ghost predicate Resolved(registry: map<nat, nat>, h: Hand) {
    h.Flushing? ==> forall i :: 0 <= i < |h.blocks| ==> StripeOf(registry, h.blocks[i]).Some?
  }

  /** Every block its stripe calls live is in exactly one place, and nothing else is anywhere. */
  ghost predicate Balanced(s: State) {
    forall b :: One(b in s.user) + Held(s.registry, s.threads, b) == Live(s.stripes, b)
  }

  ghost predicate StripesOk(stripes: seq<Stripe>) {
    forall i :: 0 <= i < |stripes| ==> StripeOk(stripes[i])
  }

  ghost predicate ThreadsOk(registry: map<nat, nat>, threads: seq<Local>) {
    forall t :: 0 <= t < |threads| ==> LocalOk(threads[t]) && Resolved(registry, threads[t].hand)
  }

  ghost predicate Inv(s: State) {
    StripesOk(s.stripes) && Registered(s.registry, s.stripes) && ThreadsOk(s.registry, s.threads) && Balanced(s)
  }

  ghost predicate Init(s: State) {
    && s.registry == map[] && s.user == {}
    && (forall i :: 0 <= i < |s.stripes| ==> s.stripes[i] == Stripe({}, {}, {}))
    && (forall t :: 0 <= t < |s.threads| ==> s.threads[t] == Local([[], [], [], [], []], Idle))
  }

  // ---- counting lemmas -------------------------------------------------------------------

  lemma {:induction false} HeldUpdate(registry: map<nat, nat>, threads: seq<Local>, t: nat, l: Local, b: Block)
    requires t < |threads|
    ensures Held(registry, threads[t := l], b) + InLocal(registry, threads[t], b)
              == Held(registry, threads, b) + InLocal(registry, l, b)
  {
    hide InLocal;
    var n := |threads| - 1;
    if t < n {
      HeldUpdate(registry, threads[..n], t, l, b);
      assert threads[t := l][..n] == threads[..n][t := l];
    } else {
      assert threads[t := l][..n] == threads[..n];
    }
  }

  lemma {:induction false} HeldMember(registry: map<nat, nat>, threads: seq<Local>, t: nat, b: Block)
    requires t < |threads|
    ensures InLocal(registry, threads[t], b) <= Held(registry, threads, b)
  {
    hide InLocal;
    if t < |threads| - 1 { HeldMember(registry, threads[..|threads| - 1], t, b); }
  }

  lemma {:induction false} LiveUpdate(stripes: seq<Stripe>, i: nat, s: Stripe, b: Block)
    requires i < |stripes|
    ensures Live(stripes[i := s], b) + One(b in stripes[i].live) == Live(stripes, b) + One(b in s.live)
  {
    var n := |stripes| - 1;
    if i < n {
      LiveUpdate(stripes[..n], i, s, b);
      assert stripes[i := s][..n] == stripes[..n][i := s];
    } else {
      assert stripes[i := s][..n] == stripes[..n];
    }
  }

  lemma {:induction false} RowsUpdate(rows: seq<seq<nat>>, i: nat, row: seq<nat>, b: Block)
    requires i < |rows|
    ensures InRows(rows[i := row], b) + InRow(rows[i], OrderOf(i), b) == InRows(rows, b) + InRow(row, OrderOf(i), b)
  {
    hide InRow;
    var n := |rows| - 1;
    if i < n {
      RowsUpdate(rows[..n], i, row, b);
      assert rows[i := row][..n] == rows[..n][i := row];
    } else {
      assert rows[i := row][..n] == rows[..n];
    }
  }

  lemma RowEmpty(order: nat, b: Block)
    ensures InRow([], order, b) == 0
  {
  }

  lemma RowAppend(row: seq<nat>, addr: nat, order: nat, b: Block)
    ensures InRow(row + [addr], order, b) == InRow(row, order, b) + One(b == Block(addr, order))
  {
    assert (row + [addr])[..|row|] == row;
  }

  lemma {:induction false} RowConcat(a: seq<nat>, c: seq<nat>, order: nat, b: Block)
    ensures InRow(a + c, order, b) == InRow(a, order, b) + InRow(c, order, b)
  {
    if c == [] {
      assert a + c == a;
    } else {
      var n := |c| - 1;
      assert (a + c)[..|a + c| - 1] == a + c[..n];
      RowConcat(a, c[..n], order, b);
    }
  }

  /** Taking the newest `n` splits the stack; their order does not matter to the count. */
  lemma {:induction false} RowTop(row: seq<nat>, n: nat, order: nat, b: Block)
    requires n <= |row|
    ensures InRow(M.TopFirst(row, n), order, b) + InRow(row[..|row| - n], order, b) == InRow(row, order, b)
  {
    hide InRow;
    if n == 0 {
      assert row[..|row|] == row && M.TopFirst(row, 0) == [];
      RowEmpty(order, b);
    } else {
      RowTop(row, n - 1, order, b);
      var rest, x := row[..|row| - n], row[|row| - n];
      assert M.TopFirst(row, n) == M.TopFirst(row, n - 1) + [x];
      assert row[..|row| - (n - 1)] == rest + [x];
      RowAppend(M.TopFirst(row, n - 1), x, order, b);
      RowAppend(rest, x, order, b);
    }
  }

  lemma {:induction false} RowOfDistinct(addrs: seq<nat>, order: nat, b: Block)
    requires Distinct(addrs)
    ensures InRow(addrs, order, b) == One(b in BuddyAllocator.BlocksOf(addrs, order))
  {
    if addrs != [] {
      var n := |addrs| - 1;
      RowOfDistinct(addrs[..n], order, b);
      var last := Block(addrs[n], order);
      assert last !in BuddyAllocator.BlocksOf(addrs[..n], order);
      assert BuddyAllocator.BlocksOf(addrs, order) == BuddyAllocator.BlocksOf(addrs[..n], order) + {last};
    }
  }

  lemma {:induction false} RowMember(addrs: seq<nat>, order: nat, i: nat)
    requires i < |addrs|
    ensures InRow(addrs, order, Block(addrs[i], order)) >= 1
  {
    if i < |addrs| - 1 { RowMember(addrs[..|addrs| - 1], order, i); }
  }

  lemma {:induction false} RowTwice(addrs: seq<nat>, order: nat, i: nat, j: nat)
    requires i < j < |addrs| && addrs[i] == addrs[j]
    ensures InRow(addrs, order, Block(addrs[i], order)) >= 2
  {
    var n := |addrs| - 1;
    if j < n { RowTwice(addrs[..n], order, i, j); } else { RowMember(addrs[..n], order, i); }
  }

  /** One more stripe's group leaves what is pending. */
  lemma {:induction false} PendingStep(registry: map<nat, nat>, blocks: seq<nat>, next: nat, order: nat, b: Block)
    ensures InRow(Pending(registry, blocks, next), order, b)
            == InRow(Group(registry, blocks, next), order, b) + InRow(Pending(registry, blocks, next + 1), order, b)
  {
    hide InRow, StripeOf;
    if blocks != [] {
      var n, last := |blocks| - 1, blocks[|blocks| - 1];
      PendingStep(registry, blocks[..n], next, order, b);
      var p, g, q := Pending(registry, blocks[..n], next), Group(registry, blocks[..n], next),
          Pending(registry, blocks[..n], next + 1);
      RowAppend(p, last, order, b);
      RowAppend(g, last, order, b);
      RowAppend(q, last, order, b);
      assert p + [] == p && g + [] == g && q + [] == q;
    } else {
      RowEmpty(order, b);
    }
  }

  lemma {:induction false} PendingAll(registry: map<nat, nat>, blocks: seq<nat>)
    requires forall i :: 0 <= i < |blocks| ==> StripeOf(registry, blocks[i]).Some?
    ensures Pending(registry, blocks, 0) == blocks
  {
    if blocks != [] {
      PendingAll(registry, blocks[..|blocks| - 1]);
      assert blocks == blocks[..|blocks| - 1] + [blocks[|blocks| - 1]];
    }
  }

  lemma {:induction false} PendingNone(registry: map<nat, nat>, blocks: seq<nat>, k: nat)
    requires forall b :: b in registry ==> registry[b] < k
    ensures Pending(registry, blocks, k) == []
  {
    if blocks != [] { PendingNone(registry, blocks[..|blocks| - 1], k); }
  }

  lemma {:induction false} GroupMembers(registry: map<nat, nat>, blocks: seq<nat>, stripe: nat)
    ensures forall i :: 0 <= i < |Group(registry, blocks, stripe)| ==>
              StripeOf(registry, Group(registry, blocks, stripe)[i]) == Some(stripe)
  {
    hide StripeOf;
    if blocks != [] { GroupMembers(registry, blocks[..|blocks| - 1], stripe); }
  }

  /** Every flushed block is in the group of its owning stripe, as often as it was flushed, and in
      no other group. */
  lemma {:induction false} GroupsPartition(registry: map<nat, nat>, blocks: seq<nat>, stripe: nat, addr: nat)
    ensures multiset(Group(registry, blocks, stripe))[addr]
            == if StripeOf(registry, addr) == Some(stripe) then multiset(blocks)[addr] else 0
  {
    hide StripeOf;
    if blocks != [] {
      var n := |blocks| - 1;
      GroupsPartition(registry, blocks[..n], stripe, addr);
      assert blocks == blocks[..n] + [blocks[n]];
    }
  }

  /** Registering fresh regions moves no resolved block between stripes. */
  lemma {:induction false} PendingSame(registry: map<nat, nat>, registry': map<nat, nat>, blocks: seq<nat>, next: nat)
    requires forall i :: 0 <= i < |blocks| ==> StripeOf(registry, blocks[i]) == StripeOf(registry', blocks[i])
    ensures Pending(registry, blocks, next) == Pending(registry', blocks, next)
  {
    if blocks != [] { PendingSame(registry, registry', blocks[..|blocks| - 1], next); }
  }

  lemma {:induction false} HeldSame(registry: map<nat, nat>, registry': map<nat, nat>, threads: seq<Local>, b: Block)
    requires ThreadsOk(registry, threads) && forall base :: base in registry ==>
              base in registry' && registry'[base] == registry[base]
    ensures Held(registry, threads, b) == Held(registry', threads, b)
  {
    hide InRows, InRow, LocalOk;
    if threads != [] {
      var n := |threads| - 1;
      HeldSame(registry, registry', threads[..n], b);
      if threads[n].hand.Flushing? {
        hide Pending;
        PendingSame(registry, registry', threads[n].hand.blocks, threads[n].hand.next);
      }
    }
  }

  // ---- what the ledger implies -----------------------------------------------------------

  ghost predicate LiveIn(s: State, b: Block) {
    var owner := StripeOf(s.registry, b.addr);
    owner.Some? && owner.value < |s.stripes| && b in s.stripes[owner.value].live
  }

  lemma LiveRegistered(s: State, i: nat, b: Block)
    requires Registered(s.registry, s.stripes) && StripesOk(s.stripes) && i < |s.stripes| && b in s.stripes[i].live
    ensures StripeOf(s.registry, b.addr) == Some(i)
  {
    hide NoOverlap, NoGap, Bytes, BlockSize, RegionBase;
    assert StripeOk(s.stripes[i]);
    assert b in s.stripes[i].free + s.stripes[i].live;
    assert Fits(b, s.stripes[i].bases);
  }

  /** Live blocks lie in their stripe's own regions, so no block is live in two stripes. */
  lemma {:induction false} LiveAt(s: State, k: nat, b: Block)
    requires Registered(s.registry, s.stripes) && k <= |s.stripes| && StripesOk(s.stripes)
    ensures Live(s.stripes[..k], b) == One(LiveIn(s, b) && StripeOf(s.registry, b.addr).value < k)
  {
    hide StripesOk, Registered, StripeOf;
    if k > 0 {
      LiveAt(s, k - 1, b);
      assert s.stripes[..k][..k - 1] == s.stripes[..k - 1];
      if b in s.stripes[k - 1].live { LiveRegistered(s, k - 1, b); }
    }
  }

  /** Every block is held in at most one place, and is held exactly when its stripe calls it live. */
  lemma HeldOnce(s: State, b: Block)
    requires Inv(s)
    ensures One(b in s.user) + Held(s.registry, s.threads, b) == One(LiveIn(s, b))
  {
    LiveAt(s, |s.stripes|, b);
    assert s.stripes[..|s.stripes|] == s.stripes;
    hide StripesOk, Registered, ThreadsOk, Held, Live, LiveIn;
  }

  lemma HandHeld(s: State, t: nat, b: Block)
    requires t < |s.threads|
    ensures InHand(s.registry, s.threads[t].hand, b) <= Held(s.registry, s.threads, b)
  {
    HeldMember(s.registry, s.threads, t, b);
    hide InRows, InHand, Held;
  }

  /** A stripe not yet visited still has its whole group to come. */
  lemma {:induction false} GroupPending(registry: map<nat, nat>, blocks: seq<nat>, next: nat, k: nat, order: nat,
      b: Block)
    requires next <= k
    ensures InRow(Group(registry, blocks, k), order, b) <= InRow(Pending(registry, blocks, next), order, b)
  {
    hide InRow, StripeOf;
    if blocks != [] {
      var front, last := blocks[..|blocks| - 1], blocks[|blocks| - 1];
      GroupPending(registry, front, next, k, order, b);
      RowAppend(Group(registry, front, k), last, order, b);
      RowAppend(Pending(registry, front, next), last, order, b);
      var g, p := Group(registry, front, k), Pending(registry, front, next);
      assert g + [] == g && p + [] == p;
    }
  }

  /** What a stripe is handed by a flush is exactly what its free demands: blocks of its own,
      currently live there, each named once. */
  lemma FlushLegal(s: State, t: nat, k: nat)
    requires Inv(s) && t < |s.threads| && s.threads[t].hand.Flushing? && s.threads[t].hand.next <= k < |s.stripes|
    ensures var h := s.threads[t].hand;
      var group := Group(s.registry, h.blocks, k);
      Distinct(group) && BuddyAllocator.BlocksOf(group, OrderOf(h.idx)) <= s.stripes[k].live
  {
    hide Inv, Group, Pending, Held, StripeOf, Live, InRow;
    var h := s.threads[t].hand;
    var group, order := Group(s.registry, h.blocks, k), OrderOf(h.idx);
    GroupMembers(s.registry, h.blocks, k);
    forall i | 0 <= i < |group|
      ensures Block(group[i], order) in s.stripes[k].live && InRow(group, order, Block(group[i], order)) <= 1
    {
      var b := Block(group[i], order);
      RowMember(group, order, i);
      GroupPending(s.registry, h.blocks, h.next, k, order, b);
      HandHeld(s, t, b);
      HeldOnce(s, b);
    }
    forall i, j | 0 <= i < j < |group| ensures group[i] != group[j] {
      if group[i] == group[j] { RowTwice(group, order, i, j); }
    }
  }

  /** A thread's magazine and hand hold only what its stripes call live: two blocks held anywhere, by
      anyone, never overlap. */
  lemma HeldApart(s: State, b: Block, c: Block)
    requires Inv(s) && LiveIn(s, b) && LiveIn(s, c) && b != c
    ensures Disjoint(b, c)
  {
    hide BlockSize, RegionBase, NoGap, Bytes, AllFit, Balanced, ThreadsOk, Registered;
    var i, j := StripeOf(s.registry, b.addr).value, StripeOf(s.registry, c.addr).value;
    var p, q := s.stripes[i], s.stripes[j];
    assert StripeOk(p) && StripeOk(q);
    assert b in p.free + p.live && c in q.free + q.live;
    if i != j {
      assert Fits(b, p.bases + q.bases) && Fits(c, p.bases + q.bases) && RegionBase(b.addr) != RegionBase(c.addr) by {
        assert AllFit(p.free + p.live, p.bases) && AllFit(q.free + q.live, q.bases);
        OtherFit(p.free + p.live, p.bases, q.bases, b);
        OtherFit(q.free + q.live, q.bases, p.bases, c);
      }
      hide Disjoint, Fits;
      ApartInRegions(b, c, p.bases + q.bases);
    }
  }

  lemma OtherFit(blocks: set<Block>, bases: set<nat>, more: set<nat>, b: Block)
    requires AllFit(blocks, bases) && b in blocks
    ensures Fits(b, bases + more) && Fits(b, more + bases)
  {
    hide BlockSize, RegionBase;
  }

  // ---- preservation ----------------------------------------------------------------------

  /** A step that moves blocks between one thread and the users. */
  lemma ThreadStep(s: State, t: nat, l: Local, user: set<Block>)
    requires Inv(s) && t < |s.threads| && LocalOk(l) && Resolved(s.registry, l.hand)
    requires forall b :: One(b in user) + InLocal(s.registry, l, b)
              == One(b in s.user) + InLocal(s.registry, s.threads[t], b)
    ensures Inv(s.(threads := s.threads[t := l], user := user))
  {
    hide LocalOk, Resolved, StripesOk, InLocal, Held, Live;
    forall b ensures One(b in user) + Held(s.registry, s.threads[t := l], b) == Live(s.stripes, b) {
      HeldUpdate(s.registry, s.threads, t, l, b);
      assert One(b in s.user) + Held(s.registry, s.threads, b) == Live(s.stripes, b);
    }
  }

  /** A held block is not with the users too, and its stripe is known. */
  lemma HeldNotUser(s: State, t: nat, b: Block)
    requires Inv(s) && t < |s.threads| && InLocal(s.registry, s.threads[t], b) > 0
    ensures b !in s.user && StripeOf(s.registry, b.addr).Some?
  {
    HeldMember(s.registry, s.threads, t, b);
    HeldOnce(s, b);
    hide Inv, InLocal, Held;
  }

  lemma UserResolved(s: State, b: Block)
    requires Inv(s) && b in s.user
    ensures LiveIn(s, b) && StripeOf(s.registry, b.addr).Some?
  {
    HeldOnce(s, b);
    hide Inv, Held;
  }

  lemma {:induction false} RowInRows(rows: seq<seq<nat>>, i: nat, b: Block)
    requires i < |rows|
    ensures InRow(rows[i], OrderOf(i), b) <= InRows(rows, b)
  {
    hide InRow;
    if i < |rows| - 1 { RowInRows(rows[..|rows| - 1], i, b); }
  }

  lemma PopInv(s: State, t: nat, idx: nat)
    requires Inv(s) && Enabled(s, PopHit(t, idx))
    ensures Inv(Next(s, PopHit(t, idx)))
  {
    hide Inv, InRow, InRows;
    var l := s.threads[t];
    var row, order := l.rows[idx], OrderOf(idx);
    var front, x := row[..|row| - 1], Block(row[|row| - 1], order);
    var l' := SetRow(l, idx, front);
    assert row == front + [x.addr];
    LocalAt(s, t);
    RowInRows(l.rows, idx, x);
    RowAppend(front, x.addr, order, x);
    HeldNotUser(s, t, x);
    forall b ensures One(b in s.user + {x}) + InLocal(s.registry, l', b)
        == One(b in s.user) + InLocal(s.registry, l, b) {
      RowsUpdate(l.rows, idx, front, b);
      RowAppend(front, x.addr, order, b);
    }
    ThreadStep(s, t, l', s.user + {x});
  }

  lemma LocalAt(s: State, t: nat)
    requires Inv(s) && t < |s.threads|
    ensures LocalOk(s.threads[t]) && Resolved(s.registry, s.threads[t].hand)
  {
  }

  lemma PushInv(s: State, t: nat, idx: nat, addr: nat)
    requires Inv(s) && Enabled(s, PushHit(t, idx, addr))
    ensures Inv(Next(s, PushHit(t, idx, addr)))
  {
    hide Inv, InRow, InRows;
    var l, x := s.threads[t], Block(addr, OrderOf(idx));
    var row := l.rows[idx];
    var l' := SetRow(l, idx, row + [addr]);
    LocalAt(s, t);
    forall b ensures One(b in s.user - {x}) + InLocal(s.registry, l', b)
        == One(b in s.user) + InLocal(s.registry, l, b) {
      RowsUpdate(l.rows, idx, row + [addr], b);
      RowAppend(row, addr, OrderOf(idx), b);
    }
    ThreadStep(s, t, l', s.user - {x});
  }

  lemma SpreadInv(s: State, t: nat)
    requires Inv(s) && Enabled(s, Spread(t))
    ensures Inv(Next(s, Spread(t)))
  {
    hide Inv, InRow, InRows;
    var l := s.threads[t];
    var h := l.hand;
    var order, head, rest := OrderOf(h.idx), h.blocks[0], h.blocks[1..];
    var x := Block(head, order);
    var l' := SetRow(l, h.idx, rest).(hand := Idle);
    LocalAt(s, t);
    assert h.blocks == [head] + rest;
    RowMember(h.blocks, order, 0);
    HeldNotUser(s, t, x);
    forall b ensures One(b in s.user + {x}) + InLocal(s.registry, l', b)
        == One(b in s.user) + InLocal(s.registry, l, b) {
      RowsUpdate(l.rows, h.idx, rest, b);
      RowConcat([head], rest, order, b);
      RowEmpty(order, b);
      RowAppend([], head, order, b);
      assert [] + [head] == [head];
    }
    M.RefillFits(h.idx);
    ThreadStep(s, t, l', s.user + {x});
  }

  lemma TakeInv(s: State, t: nat, idx: nat, addr: nat)
    requires Inv(s) && Enabled(s, FlushTake(t, idx, addr))
    ensures Inv(Next(s, FlushTake(t, idx, addr)))
  {
    hide Inv, InRow, InRows, StripeOf, Pending;
    M.RefillFits(idx);
    var l, order, x := s.threads[t], OrderOf(idx), Block(addr, OrderOf(idx));
    var row, n := l.rows[idx], M.RefillCount(M.ORDER_CAPS, idx);
    var top, rest := M.TopFirst(row, n), row[..|row| - n];
    var l' := SetRow(l, idx, rest).(hand := Flushing(idx, top + [addr], 0));
    LocalAt(s, t);
    UserResolved(s, x);
    forall i | 0 <= i < |top| ensures StripeOf(s.registry, top[i]).Some? {
      RowMember(row, order, |row| - 1 - i);
      RowInRows(l.rows, idx, Block(top[i], order));
      HeldNotUser(s, t, Block(top[i], order));
    }
    PendingAll(s.registry, top + [addr]);
    forall b ensures One(b in s.user - {x}) + InLocal(s.registry, l', b)
        == One(b in s.user) + InLocal(s.registry, l, b) {
      RowsUpdate(l.rows, idx, rest, b);
      RowTop(row, n, order, b);
      RowAppend(top, addr, order, b);
    }
    ThreadStep(s, t, l', s.user - {x});
  }

  lemma EndInv(s: State, t: nat)
    requires Inv(s) && Enabled(s, FlushEnd(t))
    ensures Inv(Next(s, FlushEnd(t)))
  {
    hide Inv;
    AfterEnd(s, t, s.threads[t].hand);
  }

  lemma AfterEnd(s: State, t: nat, h: Hand)
    requires Inv(s) && t < |s.threads| && s.threads[t].hand == h && h.Flushing? && h.next == |s.stripes|
    ensures Inv(s.(threads := s.threads[t := s.threads[t].(hand := Idle)]))
  {
    LocalAt(s, t);
    assert forall b :: b in s.registry ==> s.registry[b] < |s.stripes|;
    hide Inv, InRow, InRows, Pending;
    PendingNone(s.registry, h.blocks, |s.stripes|);
    var l := s.threads[t].(hand := Idle);
    forall b ensures InLocal(s.registry, l, b) == InLocal(s.registry, s.threads[t], b) {
      RowEmpty(OrderOf(h.idx), b);
    }
    hide InLocal;
    ThreadStep(s, t, l, s.user);
  }

  // -- steps that visit a stripe --

  /** Replacing one stripe, with its fresh regions registered, keeps the stripes and registry right. */
  lemma StripeStep(s: State, i: nat, after: Stripe)
    requires StripesOk(s.stripes) && Registered(s.registry, s.stripes) && i < |s.stripes| && StripeOk(after)
    requires s.stripes[i].bases <= after.bases && FreshRegions(s, i, after)
    ensures var s' := s.(stripes := s.stripes[i := after], registry := Register(s.registry, after.bases, i));
      && StripesOk(s'.stripes) && Registered(s'.registry, s'.stripes)
      && (forall base :: base in s.registry ==> base in s'.registry && s'.registry[base] == s.registry[base])
  {
    hide StripeOk;
  }

  lemma GrownThreads(registry: map<nat, nat>, registry': map<nat, nat>, threads: seq<Local>)
    requires ThreadsOk(registry, threads)
    requires forall base :: base in registry ==> base in registry' && registry'[base] == registry[base]
    ensures ThreadsOk(registry', threads)
  {
    hide LocalOk, RegionBase;
  }

  /** A batch allocation puts exactly its blocks into circulation. */
  lemma AllocStep(s: State, i: nat, after: Stripe, blocks: set<Block>)
    requires Inv(s) && i < |s.stripes| && Allocates(s.stripes[i], after, blocks) && FreshRegions(s, i, after)
    ensures var s' := s.(stripes := s.stripes[i := after], registry := Register(s.registry, after.bases, i));
      && StripesOk(s'.stripes) && Registered(s'.registry, s'.stripes) && ThreadsOk(s'.registry, s'.threads)
      && (forall b :: One(b in s.user) + Held(s'.registry, s.threads, b) + One(b in blocks) == Live(s'.stripes, b))
  {
    hide StripeOk, LocalOk, Resolved, Held, Live, Register, FreshRegions, StripesOk, Registered, ThreadsOk;
    StripeStep(s, i, after);
    var s' := s.(stripes := s.stripes[i := after], registry := Register(s.registry, after.bases, i));
    GrownThreads(s.registry, s'.registry, s.threads);
    forall b ensures One(b in s.user) + Held(s'.registry, s.threads, b) + One(b in blocks) == Live(s'.stripes, b) {
      HeldSame(s.registry, s'.registry, s.threads, b);
      LiveUpdate(s.stripes, i, after, b);
      assert One(b in s.user) + Held(s.registry, s.threads, b) == Live(s.stripes, b);
    }
  }

  lemma RefillInv(s: State, t: nat, idx: nat, stripe: nat, out: seq<nat>, after: Stripe)
    requires Inv(s) && Enabled(s, Refill(t, idx, stripe, out, after))
    ensures Inv(Next(s, Refill(t, idx, stripe, out, after)))
  {
    hide Inv, Allocates, FreshRegions, Register;
    AfterRefill(s, t, idx, stripe, out, after);
  }

  lemma AfterRefill(s: State, t: nat, idx: nat, stripe: nat, out: seq<nat>, after: Stripe)
    requires Inv(s) && t < |s.threads| && idx < ROWS && |s.threads[t].rows| == ROWS
    requires s.threads[t].hand.Idle? && s.threads[t].rows[idx] == []
    requires stripe < |s.stripes| && 0 < |out| <= M.RefillCount(M.ORDER_CAPS, idx) && Distinct(out)
    requires Allocates(s.stripes[stripe], after, BuddyAllocator.BlocksOf(out, OrderOf(idx)))
              && FreshRegions(s, stripe, after)
    ensures Inv(s.(stripes := s.stripes[stripe := after], registry := Register(s.registry, after.bases, stripe),
                   threads := s.threads[t := s.threads[t].(hand := Refilled(idx, out))]))
  {
    LocalAt(s, t);
    hide Inv, InRow, InRows, Held, Live, Allocates, FreshRegions, Register, StripesOk, Registered, ThreadsOk, Distinct;
    var blocks := BuddyAllocator.BlocksOf(out, OrderOf(idx));
    AllocStep(s, stripe, after, blocks);
    var l := s.threads[t];
    var l' := l.(hand := Refilled(idx, out));
    var s' := s.(stripes := s.stripes[stripe := after], registry := Register(s.registry, after.bases, stripe),
        threads := s.threads[t := l']);
    forall b ensures One(b in s'.user) + Held(s'.registry, s'.threads, b) == Live(s'.stripes, b) {
      HeldUpdate(s'.registry, s.threads, t, l', b);
      RowOfDistinct(out, OrderOf(idx), b);
    }
    assert LocalOk(l');
    NewThread(s'.registry, s.threads, t, l');
    Reassemble(s');
  }

  lemma NewThread(registry: map<nat, nat>, threads: seq<Local>, t: nat, l: Local)
    requires ThreadsOk(registry, threads) && t < |threads| && LocalOk(l) && Resolved(registry, l.hand)
    ensures ThreadsOk(registry, threads[t := l])
  {
    hide LocalOk, Resolved;
  }

  lemma Reassemble(s: State)
    requires StripesOk(s.stripes) && Registered(s.registry, s.stripes) && ThreadsOk(s.registry, s.threads)
    requires forall b :: One(b in s.user) + Held(s.registry, s.threads, b) == Live(s.stripes, b)
    ensures Inv(s)
  {
  }

  lemma DirectAllocInv(s: State, stripe: nat, block: Block, after: Stripe)
    requires Inv(s) && Enabled(s, DirectAlloc(stripe, block, after))
    ensures Inv(Next(s, DirectAlloc(stripe, block, after)))
  {
    hide Inv, Allocates, FreshRegions, Register;
    AfterDirectAlloc(s, stripe, block, after);
  }

  lemma AfterDirectAlloc(s: State, stripe: nat, block: Block, after: Stripe)
    requires Inv(s) && stripe < |s.stripes| && Allocates(s.stripes[stripe], after, {block})
              && FreshRegions(s, stripe, after)
    ensures Inv(s.(stripes := s.stripes[stripe := after], registry := Register(s.registry, after.bases, stripe),
              user := s.user + {block}))
  {
    hide Inv, Held, Live, FreshRegions, Register, StripesOk, Registered, ThreadsOk, Allocates, LiveIn;
    AllocStep(s, stripe, after, {block});
    DirectOwner(s, stripe, block, after);
    HeldOnce(s, block);
    var s' := s.(stripes := s.stripes[stripe := after], registry := Register(s.registry, after.bases, stripe),
        user := s.user + {block});
    forall b ensures One(b in s'.user) + Held(s'.registry, s'.threads, b) == Live(s'.stripes, b) {}
    Reassemble(s');
  }

  /** A block live somewhere is live in the stripe a fresh allocation of it would come from. */
  lemma DirectOwner(s: State, stripe: nat, block: Block, after: Stripe)
    requires Inv(s) && stripe < |s.stripes| && Allocates(s.stripes[stripe], after, {block})
              && FreshRegions(s, stripe, after)
    ensures !LiveIn(s, block)
  {
    hide Balanced, ThreadsOk, Held, Live, NoOverlap, NoGap, Bytes, BlockSize, RegionBase;
    assert block in after.free + after.live;
    assert Fits(block, after.bases);
    var base := RegionBase(block.addr);
    if base in s.registry {
      assert base in s.stripes[stripe].bases;
      assert s.registry[base] == stripe;
    }
  }

  /** A batch free takes exactly its blocks out of circulation. */
  lemma FreeStep(s: State, i: nat, after: Stripe, blocks: set<Block>)
    requires Inv(s) && i < |s.stripes| && Frees(s.stripes[i], after, blocks)
    ensures StripesOk(s.stripes[i := after]) && Registered(s.registry, s.stripes[i := after])
  {
    hide StripeOk, ThreadsOk, Held, Live, Balanced;
  }

  lemma FreeCount(s: State, i: nat, after: Stripe, blocks: set<Block>, b: Block)
    requires Inv(s) && i < |s.stripes| && Frees(s.stripes[i], after, blocks) && blocks <= s.stripes[i].live
    ensures One(b in s.user) + Held(s.registry, s.threads, b) == Live(s.stripes[i := after], b) + One(b in blocks)
  {
    hide StripeOk, ThreadsOk, Held, Live, StripesOk, Registered;
    LiveUpdate(s.stripes, i, after, b);
    assert One(b in s.user) + Held(s.registry, s.threads, b) == Live(s.stripes, b);
  }

  lemma FlushInv(s: State, t: nat, after: Stripe)
    requires Inv(s) && Enabled(s, FlushStripe(t, after))
    ensures Inv(Next(s, FlushStripe(t, after)))
  {
    hide Inv, Frees, Group;
    AfterFlush(s, t, after, s.threads[t].hand);
  }

  lemma AfterFlush(s: State, t: nat, after: Stripe, h: Hand)
    requires Inv(s) && t < |s.threads| && s.threads[t].hand == h && h.Flushing? && h.next < |s.stripes|
    requires Frees(s.stripes[h.next], after,
              BuddyAllocator.BlocksOf(Group(s.registry, h.blocks, h.next), OrderOf(h.idx)))
    ensures Inv(s.(stripes := s.stripes[h.next := after],
              threads := s.threads[t := s.threads[t].(hand := h.(next := h.next + 1))]))
  {
    LocalAt(s, t);
    FlushLegal(s, t, h.next);
    AllThreads(s);
    hide Inv, InRow, InRows, Held, Live, Frees, StripesOk, Registered, ThreadsOk, Group, Pending, Distinct;
    var order, group := OrderOf(h.idx), Group(s.registry, h.blocks, h.next);
    var blocks := BuddyAllocator.BlocksOf(group, order);
    FreeStep(s, h.next, after, blocks);
    var l' := s.threads[t].(hand := h.(next := h.next + 1));
    var s' := s.(stripes := s.stripes[h.next := after], threads := s.threads[t := l']);
    forall b ensures One(b in s'.user) + Held(s'.registry, s'.threads, b) == Live(s'.stripes, b) {
      FlushCount(s, t, after, h, b);
    }
    NewThread(s.registry, s.threads, t, l');
    Reassemble(s');
  }

  lemma FlushCount(s: State, t: nat, after: Stripe, h: Hand, b: Block)
    requires Inv(s) && t < |s.threads| && s.threads[t].hand == h && h.Flushing? && h.next < |s.stripes|
    requires var blocks := BuddyAllocator.BlocksOf(Group(s.registry, h.blocks, h.next), OrderOf(h.idx));
      Frees(s.stripes[h.next], after, blocks) && blocks <= s.stripes[h.next].live
    requires Distinct(Group(s.registry, h.blocks, h.next))
    ensures One(b in s.user) + Held(s.registry, s.threads[t := s.threads[t].(hand := h.(next := h.next + 1))], b)
            == Live(s.stripes[h.next := after], b)
  {
    hide Inv, InRow, InRows, Held, Live, Frees, Group, Pending, Distinct;
    var order, group := OrderOf(h.idx), Group(s.registry, h.blocks, h.next);
    HeldUpdate(s.registry, s.threads, t, s.threads[t].(hand := h.(next := h.next + 1)), b);
    PendingStep(s.registry, h.blocks, h.next, order, b);
    RowOfDistinct(group, order, b);
    FreeCount(s, h.next, after, BuddyAllocator.BlocksOf(group, order), b);
  }

  lemma AllThreads(s: State)
    requires Inv(s)
    ensures ThreadsOk(s.registry, s.threads)
  {
  }

  lemma DirectFreeInv(s: State, block: Block, after: Stripe)
    requires Inv(s) && Enabled(s, DirectFree(block, after))
    ensures Inv(Next(s, DirectFree(block, after)))
  {
    hide Inv, Frees, StripeOf;
    AfterDirectFree(s, StripeOf(s.registry, block.addr).value, block, after);
  }

  lemma DirectCount(s: State, i: nat, block: Block, after: Stripe, b: Block)
    requires Inv(s) && block in s.user && i < |s.stripes| && Frees(s.stripes[i], after, {block})
              && block in s.stripes[i].live
    ensures One(b in s.user - {block}) + Held(s.registry, s.threads, b) == Live(s.stripes[i := after], b)
  {
    hide Inv, Held, Live, Frees;
    FreeCount(s, i, after, {block}, b);
  }

  lemma AfterDirectFree(s: State, i: nat, block: Block, after: Stripe)
    requires Inv(s) && block in s.user && StripeOf(s.registry, block.addr) == Some(i) && i < |s.stripes|
    requires Frees(s.stripes[i], after, {block})
    ensures Inv(s.(stripes := s.stripes[i := after], user := s.user - {block}))
  {
    UserResolved(s, block);
    AllThreads(s);
    hide Inv, Held, Live, Frees, StripesOk, Registered, ThreadsOk, StripeOf;
    FreeStep(s, i, after, {block});
    var s' := s.(stripes := s.stripes[i := after], user := s.user - {block});
    forall b ensures One(b in s'.user) + Held(s'.registry, s'.threads, b) == Live(s'.stripes, b) {
      DirectCount(s, i, block, after, b);
    }
    Reassemble(s');
  }

  lemma StepInv(s: State, a: Action)
    requires Inv(s) && Enabled(s, a)
    ensures Inv(Next(s, a))
  {
    hide Inv, Enabled, Next;
    match a
    case PopHit(t, idx) => PopInv(s, t, idx);
    case Refill(t, idx, stripe, out, after) => RefillInv(s, t, idx, stripe, out, after);
    case Spread(t) => SpreadInv(s, t);
    case PushHit(t, idx, addr) => PushInv(s, t, idx, addr);
    case FlushTake(t, idx, addr) => TakeInv(s, t, idx, addr);
    case FlushStripe(t, after) => FlushInv(s, t, after);
    case FlushEnd(t) => EndInv(s, t);
    case DirectAlloc(stripe, block, after) => DirectAllocInv(s, stripe, block, after);
    case DirectFree(block, after) => DirectFreeInv(s, block, after);
  }

  ghost predicate Run(states: seq<State>, actions: seq<Action>) {
    && |states| == |actions| + 1 && Init(states[0])
    && forall i :: 0 <= i < |actions| ==> Enabled(states[i], actions[i]) && states[i + 1] == Next(states[i], actions[i])
  }

  lemma InitInv(s: State)
    requires Init(s)
    ensures Inv(s)
  {
    forall i | 0 <= i < |s.stripes| ensures StripeOk(s.stripes[i]) { EmptyStripe(); }
    forall b ensures Held(s.registry, s.threads, b) == 0 && Live(s.stripes, b) == 0 {
      EmptyHeld(s.registry, s.threads, b);
      EmptyLive(s.stripes, b);
    }
    hide StripeOk, Held, Live;
  }

  lemma EmptyStripe()
    ensures StripeOk(Stripe({}, {}, {}))
  {
  }

  lemma {:induction false} EmptyHeld(registry: map<nat, nat>, threads: seq<Local>, b: Block)
    requires forall t :: 0 <= t < |threads| ==> threads[t] == Local([[], [], [], [], []], Idle)
    ensures Held(registry, threads, b) == 0
  {
    if threads != [] {
      EmptyHeld(registry, threads[..|threads| - 1], b);
      NoRows([[], [], [], [], []], b);
      hide InRows;
    }
  }

  lemma {:induction false} NoRows(rows: seq<seq<nat>>, b: Block)
    requires forall i :: 0 <= i < |rows| ==> rows[i] == []
    ensures InRows(rows, b) == 0
  {
    if rows != [] { NoRows(rows[..|rows| - 1], b); }
  }

  lemma {:induction false} EmptyLive(stripes: seq<Stripe>, b: Block)
    requires forall i :: 0 <= i < |stripes| ==> stripes[i] == Stripe({}, {}, {})
    ensures Live(stripes, b) == 0
  {
    if stripes != [] { EmptyLive(stripes[..|stripes| - 1], b); }
  }

  /** The state these actions lead to, each enabled in its turn. */
  ghost function After(s: State, actions: seq<Action>): Option<State> {
    if actions == [] then Some(s)
    else
      var m, a := After(s, actions[..|actions| - 1]), actions[|actions| - 1];
      if m.Some? && Enabled(m.value, a) then Some(Next(m.value, a)) else None
  }

  lemma Then(s: State, actions: seq<Action>, m: State, a: Action)
    requires After(s, actions) == Some(m) && Inv(m) && Enabled(m, a)
    ensures After(s, actions + [a]) == Some(Next(m, a)) && Inv(Next(m, a))
  {
    hide Inv, Enabled, Next;
    assert (actions + [a])[..|actions|] == actions;
    StepInv(m, a);
  }

  /** Visiting the first `k` stripes of a flush in turn. */
  lemma {:induction false} FlushVisits(s: State, t: nat, afters: seq<Stripe>, k: nat) returns (actions: seq<Action>)
    requires Inv(s) && t < |s.threads| && s.threads[t].hand.Flushing? && s.threads[t].hand.next == 0
    requires k <= |afters| == |s.stripes|
    requires forall i :: 0 <= i < |afters| ==> var h := s.threads[t].hand;
               Frees(s.stripes[i], afters[i], BuddyAllocator.BlocksOf(Group(s.registry, h.blocks, i), OrderOf(h.idx)))
    ensures After(s, actions) == Some(Visited(s, t, afters, k)) && Inv(Visited(s, t, afters, k))
  {
    hide Inv, Frees, Group, Enabled, Next, Visited;
    if k == 0 {
      actions := [];
      NoVisit(s, t, afters);
    } else {
      actions := FlushVisits(s, t, afters, k - 1);
      VisitStep(s, t, afters, k);
      Then(s, actions, Visited(s, t, afters, k - 1), FlushStripe(t, afters[k - 1]));
      actions := actions + [FlushStripe(t, afters[k - 1])];
    }
  }

  lemma NoVisit(s: State, t: nat, afters: seq<Stripe>)
    requires t < |s.threads| && s.threads[t].hand.Flushing? && s.threads[t].hand.next == 0 && |afters| == |s.stripes|
    ensures Visited(s, t, afters, 0) == s
  {
    assert s.stripes[0..] == s.stripes && s.threads[t := s.threads[t]] == s.threads;
  }

  lemma Replace<T>(a: seq<T>, b: seq<T>, k: nat)
    requires 0 < k <= |a| == |b|
    ensures |a[..k - 1] + b[k - 1..]| == |b| && (a[..k - 1] + b[k - 1..])[k - 1] == b[k - 1]
    ensures (a[..k - 1] + b[k - 1..])[k - 1 := a[k - 1]] == a[..k] + b[k..]
  {
  }

  lemma VisitStep(s: State, t: nat, afters: seq<Stripe>, k: nat)
    requires t < |s.threads| && s.threads[t].hand.Flushing? && 0 < k <= |afters| == |s.stripes|
    requires var h := s.threads[t].hand;
      Frees(s.stripes[k - 1], afters[k - 1],
        BuddyAllocator.BlocksOf(Group(s.registry, h.blocks, k - 1), OrderOf(h.idx)))
    ensures var m, a := Visited(s, t, afters, k - 1), FlushStripe(t, afters[k - 1]);
      Enabled(m, a) && Next(m, a) == Visited(s, t, afters, k)
  {
    hide Frees, Group;
    Replace(afters, s.stripes, k);
    var m := Visited(s, t, afters, k - 1);
    var h := s.threads[t].hand;
    assert m.threads[t] == s.threads[t].(hand := h.(next := k - 1));
    assert m.threads[t := s.threads[t].(hand := h.(next := k))] == s.threads[t := s.threads[t].(hand := h.(next := k))];
  }

  /** The thread between calls, holding these rows. */
  ghost predicate Holds(s: State, t: nat, rows: seq<seq<nat>>) {
    t < |s.threads| && |rows| == ROWS && s.threads[t] == Local(rows, Idle)
  }

  ghost function Gives(s: State, t: nat, rows: seq<seq<nat>>, b: Block): State
    requires t < |s.threads|
  {
    s.(threads := s.threads[t := Local(rows, Idle)], user := s.user - {b})
  }

  ghost function Takes(s: State, t: nat, rows: seq<seq<nat>>, b: Block): State
    requires t < |s.threads|
  {
    s.(threads := s.threads[t := Local(rows, Idle)], user := s.user + {b})
  }

  lemma NoStep(s: State)
    ensures After(s, []) == Some(s)
  {
  }

  lemma OneStep(s: State, a: Action)
    requires Inv(s) && Enabled(s, a)
    ensures After(s, [a]) == Some(Next(s, a)) && Inv(Next(s, a))
  {
    hide Inv, Enabled, Next;
    assert [] + [a] == [a];
    Then(s, [], s, a);
  }

  /** A push is one step. */
  lemma PushRun(s: State, t: nat, idx: nat, block: nat, rows: seq<seq<nat>>) returns (actions: seq<Action>, s': State)
    requires Inv(s) && Holds(s, t, rows) && idx < ROWS
    requires |rows[idx]| < M.ORDER_CAPS[idx] && Block(block, OrderOf(idx)) in s.user
    ensures After(s, actions) == Some(s') && Inv(s')
    ensures s' == Gives(s, t, rows[idx := rows[idx] + [block]], Block(block, OrderOf(idx)))
  {
    hide Inv, After;
    actions := [PushHit(t, idx, block)];
    OneStep(s, PushHit(t, idx, block));
    s' := Next(s, PushHit(t, idx, block));
  }

  /** What a full row flushes when `block` is freed. */
  function Flushed(row: seq<nat>, idx: nat, block: nat): seq<nat>
    requires idx < ROWS && |row| >= M.ORDER_CAPS[idx]
  {
    M.RefillFits(idx);
    M.TopFirst(row, M.RefillCount(M.ORDER_CAPS, idx)) + [block]
  }

  function Kept(row: seq<nat>, idx: nat): seq<nat>
    requires idx < ROWS && |row| >= M.ORDER_CAPS[idx]
  {
    M.RefillFits(idx);
    row[..|row| - M.RefillCount(M.ORDER_CAPS, idx)]
  }

  lemma TakeStep(s: State, t: nat, idx: nat, block: nat, rows: seq<seq<nat>>)
    requires Inv(s) && Holds(s, t, rows) && idx < ROWS
    requires |rows[idx]| >= M.ORDER_CAPS[idx] && Block(block, OrderOf(idx)) in s.user
    ensures var a, row := FlushTake(t, idx, block), rows[idx];
      && Enabled(s, a) && After(s, [a]) == Some(Next(s, a)) && Inv(Next(s, a))
      && Next(s, a) == s.(user := s.user - {Block(block, OrderOf(idx))},
           threads := s.threads[t := Local(rows[idx := Kept(row, idx)], Flushing(idx, Flushed(row, idx, block), 0))])
  {
    hide Inv, After;
    OneStep(s, FlushTake(t, idx, block));
  }

  /** Every group of a flush is legal in its stripe, from any state the invariant allows. */
  lemma FlushAllLegal(s: State, t: nat, idx: nat, block: nat, rows: seq<seq<nat>>, k: nat)
    requires Inv(s) && Holds(s, t, rows) && idx < ROWS && k < |s.stripes|
    requires |rows[idx]| >= M.ORDER_CAPS[idx] && Block(block, OrderOf(idx)) in s.user
    ensures var group := Group(s.registry, Flushed(rows[idx], idx, block), k);
      Distinct(group) && BuddyAllocator.BlocksOf(group, OrderOf(idx)) <= s.stripes[k].live
  {
    hide Inv, Enabled, Next, After, Flushed, Kept, Group, Distinct;
    TakeStep(s, t, idx, block, rows);
    FlushLegal(Next(s, FlushTake(t, idx, block)), t, k);
  }

  /** A free that finds the row full is a take, a visit to each stripe, and an end. */
  lemma FlushRun(s: State, t: nat, idx: nat, block: nat, rows: seq<seq<nat>>, afters: seq<Stripe>)
    returns (actions: seq<Action>, s': State)
    requires Inv(s) && Holds(s, t, rows) && idx < ROWS && |afters| == |s.stripes|
    requires |rows[idx]| >= M.ORDER_CAPS[idx] && Block(block, OrderOf(idx)) in s.user
    requires forall i :: 0 <= i < |afters| ==>
               Frees(s.stripes[i], afters[i],
                 BuddyAllocator.BlocksOf(Group(s.registry, Flushed(rows[idx], idx, block), i), OrderOf(idx)))
    ensures After(s, actions) == Some(s') && Inv(s')
    ensures s' == Gives(s, t, rows[idx := Kept(rows[idx], idx)], Block(block, OrderOf(idx))).(stripes := afters)
  {
    hide Inv, Frees, Group, After, Flushed, Kept;
    TakeStep(s, t, idx, block, rows);
    var taken := Next(s, FlushTake(t, idx, block));
    hide Next, Enabled;
    var visits := FlushVisits(taken, t, afters, |afters|);
    var visited := Visited(taken, t, afters, |afters|);
    Chain(s, [FlushTake(t, idx, block)], taken, visits, visited);
    EndStep(taken, t, afters);
    Then(s, [FlushTake(t, idx, block)] + visits, visited, FlushEnd(t));
    actions, s' := [FlushTake(t, idx, block)] + visits + [FlushEnd(t)], Next(visited, FlushEnd(t));
  }

  lemma EndStep(s: State, t: nat, afters: seq<Stripe>)
    requires t < |s.threads| && s.threads[t].hand.Flushing? && |afters| == |s.stripes|
    ensures var visited := Visited(s, t, afters, |afters|);
      Enabled(visited, FlushEnd(t)) && Next(visited, FlushEnd(t))
        == s.(stripes := afters, threads := s.threads[t := s.threads[t].(hand := Idle)])
  {
    assert afters[..|afters|] + s.stripes[|afters|..] == afters;
    var l := s.threads[t].(hand := s.threads[t].hand.(next := |afters|));
    assert s.threads[t := l][t := l.(hand := Idle)] == s.threads[t := s.threads[t].(hand := Idle)];
  }

  lemma {:induction false} Chain(s: State, first: seq<Action>, m: State, second: seq<Action>, last: State)
    requires After(s, first) == Some(m) && After(m, second) == Some(last)
    ensures After(s, first + second) == Some(last)
  {
    hide Enabled, Next;
    if second == [] {
      assert first + second == first;
    } else {
      var n := |second| - 1;
      assert (first + second)[..|first + second| - 1] == first + second[..n];
      Chain(s, first, m, second[..n], After(m, second[..n]).value);
    }
  }

  /** What a thread holds no user has. */
  lemma NotUsers(s: State, t: nat, b: Block)
    requires Inv(s) && t < |s.threads| && InLocal(s.registry, s.threads[t], b) >= 1
    ensures b !in s.user
  {
    hide Inv, InLocal, Held, LiveIn;
    HeldOnce(s, b);
    HeldMember(s.registry, s.threads, t, b);
  }

  /** A hit is one step. */
  lemma PopRun(s: State, t: nat, idx: nat, rows: seq<seq<nat>>, rest: seq<nat>, block: nat)
    returns (actions: seq<Action>, s': State)
    requires Inv(s) && Holds(s, t, rows) && idx < ROWS && rows[idx] == rest + [block]
    ensures After(s, actions) == Some(s') && Inv(s')
    ensures s' == Takes(s, t, rows[idx := rest], Block(block, OrderOf(idx))) && Block(block, OrderOf(idx)) !in s.user
  {
    hide Inv, After, InRow;
    RowMember(rows[idx], OrderOf(idx), |rest|);
    RowsUpdate(rows, idx, [], Block(block, OrderOf(idx)));
    RowEmpty(OrderOf(idx), Block(block, OrderOf(idx)));
    NotUsers(s, t, Block(block, OrderOf(idx)));
    actions := [PopHit(t, idx)];
    OneStep(s, PopHit(t, idx));
    s' := Next(s, PopHit(t, idx));
    assert rows[idx][..|rows[idx]| - 1] == rest;
  }

  /** A miss is a refill and a spread. */
  lemma RefillRun(s: State, t: nat, idx: nat, rows: seq<seq<nat>>, home: nat, out: seq<nat>, after: Stripe)
    returns (actions: seq<Action>, s': State)
    requires Inv(s) && Holds(s, t, rows) && idx < ROWS && rows[idx] == [] && home < |s.stripes|
    requires 0 < |out| <= M.RefillCount(M.ORDER_CAPS, idx) && Distinct(out) && FreshRegions(s, home, after)
    requires Allocates(s.stripes[home], after, BuddyAllocator.BlocksOf(out, OrderOf(idx)))
    ensures After(s, actions) == Some(s') && Inv(s')
    ensures s' == Takes(s, t, rows[idx := out[1..]], Block(out[0], OrderOf(idx))).(
                    stripes := s.stripes[home := after], registry := Register(s.registry, after.bases, home))
    ensures Block(out[0], OrderOf(idx)) !in s.user
  {
    hide Inv, After, Allocates, FreshRegions, Register, Distinct, InRow, InRows;
    var a := Refill(t, idx, home, out, after);
    OneStep(s, a);
    var m := Next(s, a);
    AllThreads(m);
    assert m.threads[t] == Local(rows, Refilled(idx, out)) && LocalOk(m.threads[t]);
    RowMember(out, OrderOf(idx), 0);
    NotUsers(m, t, Block(out[0], OrderOf(idx)));
    Then(s, [a], m, Spread(t));
    actions, s' := [a] + [Spread(t)], Next(m, Spread(t));
    assert m.threads[t := Local(rows[idx := out[1..]], Idle)] == s.threads[t := Local(rows[idx := out[1..]], Idle)];
  }

  ghost function Visited(s: State, t: nat, afters: seq<Stripe>, k: nat): State
    requires t < |s.threads| && s.threads[t].hand.Flushing? && k <= |afters| == |s.stripes|
  {
    s.(stripes := afters[..k] + s.stripes[k..],
       threads := s.threads[t := s.threads[t].(hand := s.threads[t].hand.(next := k))])
  }

  /** The ledger holds after any run of any number of threads. */
  lemma {:induction false} RunInv(states: seq<State>, actions: seq<Action>)
    requires Run(states, actions)
    ensures Inv(states[|actions|])
  {
    hide Inv, Init, Enabled, Next;
    if actions == [] {
      InitInv(states[0]);
    } else {
      var n := |actions| - 1;
      RunInv(states[..n + 1], actions[..n]);
      StepInv(states[n], actions[n]);
    }
  }

  /** In every run each block is with the users, in one magazine or in one thread's hand, once in
      all, exactly when the stripe that mapped its region calls it live. */
  lemma OnePlace(states: seq<State>, actions: seq<Action>, b: Block)
    requires Run(states, actions)
    ensures var s := states[|actions|];
      One(b in s.user) + Held(s.registry, s.threads, b) == One(LiveIn(s, b))
  {
    RunInv(states, actions);
    hide Inv, Run, Held, LiveIn;
    HeldOnce(states[|actions|], b);
  }
}
