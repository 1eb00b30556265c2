/** The compress-hash-displace minimal perfect hash: placement of n distinct hashes into n slots,
    for any mixing function whatever. */
module Chd {
  import opened Wrappers
  import opened Bits
  import opened Bytes

  /** Uninterpreted: nothing below depends on hash quality. */
  type Mixer = (u64, u64) -> u64

  const BUCKET_LAMBDA: nat := 4
  const MAX_DISPLACEMENT: nat := 0x1_0000
  const GLOBAL_RETRIES: nat := 16

  /** Lemire reduction of a 64-bit word into `0..n`. */
  function FastRange(x: u64, n: nat): (r: nat)
    requires n > 0
    ensures r < n
  {
    RangeBound(x, n);
    x * n / TWO64
  }

  lemma RangeBound(x: u64, n: nat)
    requires n > 0
    ensures 0 <= x * n < TWO64 * n
    ensures 0 <= x * n / TWO64 < n
  {
    Grows(n, TWO64 - 1, x);
    assert x * n <= (TWO64 - 1) * n;
    hide TWO64;
    assert x * n < TWO64 * n;
  }

  function BucketIndex(mix: Mixer, h: u64, g: u64, m: nat): (b: nat)
    requires m > 0
    ensures b < m
  {
    FastRange(mix(h, g), m)
  }

  function SlotIndex(mix: Mixer, h: u64, g: u64, d: u32, n: nat): (j: nat)
    requires n > 0
    ensures j < n
  {
    FastRange(mix(h, Xor64(g, d)), n)
  }

  predicate Below(list: seq<nat>, n: nat) {
    forall p :: 0 <= p < |list| ==> list[p] < n
  }

  ghost predicate NoRepeat(list: seq<nat>) {
    forall p, q :: 0 <= p < q < |list| ==> list[p] != list[q]
  }

  /** Indices, in order, of the hashes that fall into bucket `b`. */
  function BucketOf(mix: Mixer, hashes: seq<u64>, g: u64, m: nat, b: nat): (r: seq<nat>)
    requires m > 0
    ensures Below(r, |hashes|) && |r| <= |hashes|
  {
    if hashes == [] then []
    else
      var n := |hashes| - 1;
      BucketOf(mix, hashes[..n], g, m, b) + if BucketIndex(mix, hashes[n], g, m) == b then [n] else []
  }

  lemma {:induction false} BucketMembers(mix: Mixer, hashes: seq<u64>, g: u64, m: nat, b: nat)
    requires m > 0
    ensures forall i: nat :: i in BucketOf(mix, hashes, g, m, b) <==>
              i < |hashes| && BucketIndex(mix, hashes[i], g, m) == b
    ensures NoRepeat(BucketOf(mix, hashes, g, m, b))
  {
    hide BucketIndex;
    if hashes != [] {
      var n := |hashes| - 1;
      BucketMembers(mix, hashes[..n], g, m, b);
      var rest := BucketOf(mix, hashes[..n], g, m, b);
      forall i: nat ensures i in BucketOf(mix, hashes, g, m, b) <==>
          i in rest || (i == n && BucketIndex(mix, hashes[n], g, m) == b) {}
    }
  }

  // ---- bucket order: largest first -------------------------------------------------------

  function InsertBySize(order: seq<nat>, b: nat, sizes: seq<nat>): (r: seq<nat>)
    requires b < |sizes| && Below(order, |sizes|)
    ensures Below(r, |sizes|) && |r| == |order| + 1
  {
    if order == [] || sizes[order[|order| - 1]] >= sizes[b] then order + [b]
    else InsertBySize(order[..|order| - 1], b, sizes) + [order[|order| - 1]]
  }

  /** The stable sort of `0..k` by descending size. */
  function LargestFirst(sizes: seq<nat>, k: nat): (r: seq<nat>)
    requires k <= |sizes|
    ensures Below(r, |sizes|) && |r| == k
  {
    if k == 0 then [] else InsertBySize(LargestFirst(sizes, k - 1), k - 1, sizes)
  }

  lemma {:induction false} InsertMembers(order: seq<nat>, b: nat, sizes: seq<nat>)
    requires b < |sizes| && Below(order, |sizes|)
    ensures forall x :: x in InsertBySize(order, b, sizes) <==> x == b || x in order
  {
    if order != [] && sizes[order[|order| - 1]] < sizes[b] {
      var front := order[..|order| - 1];
      assert order == front + [order[|order| - 1]];
      InsertMembers(front, b, sizes);
    }
  }

  ghost predicate Descending(order: seq<nat>, sizes: seq<nat>)
    requires Below(order, |sizes|)
  {
    forall p, q :: 0 <= p < q < |order| ==> sizes[order[q]] <= sizes[order[p]]
  }

  lemma {:induction false} InsertDescending(order: seq<nat>, b: nat, sizes: seq<nat>)
    requires b < |sizes| && Below(order, |sizes|) && Descending(order, sizes)
    ensures Descending(InsertBySize(order, b, sizes), sizes)
  {
    if order != [] && sizes[order[|order| - 1]] < sizes[b] {
      var front, l := order[..|order| - 1], order[|order| - 1];
      InsertDescending(front, b, sizes);
      InsertMembers(front, b, sizes);
      var r := InsertBySize(front, b, sizes);
      forall p | 0 <= p < |r| ensures sizes[l] <= sizes[r[p]] {
        assert r[p] in r;
        if r[p] != b {
          var q :| 0 <= q < |front| && front[q] == r[p];
          assert order[q] == r[p];
        }
      }
      assert InsertBySize(order, b, sizes) == r + [l];
    }
  }

  lemma {:induction false} LargestFirstMeaning(sizes: seq<nat>, k: nat)
    requires k <= |sizes|
    ensures forall x: nat :: x in LargestFirst(sizes, k) <==> x < k
    ensures Descending(LargestFirst(sizes, k), sizes)
  {
    if k > 0 {
      LargestFirstMeaning(sizes, k - 1);
      InsertMembers(LargestFirst(sizes, k - 1), k - 1, sizes);
      InsertDescending(LargestFirst(sizes, k - 1), k - 1, sizes);
      hide InsertBySize, Descending;
    }
  }

  // ---- placement -------------------------------------------------------------------------

  /** A displacement seed per bucket, and per slot the index of the hash placed there, or the
      number of hashes for a free slot. */
  datatype Placing = Placing(seeds: seq<u32>, idx: seq<nat>)

  function Candidates(mix: Mixer, hashes: seq<u64>, bucket: seq<nat>, g: u64, d: u32): (r: seq<nat>)
    requires |hashes| > 0 && Below(bucket, |hashes|)
    ensures |r| == |bucket| && Below(r, |hashes|)
  {
    seq(|bucket|, p requires 0 <= p < |bucket| => SlotIndex(mix, hashes[bucket[p]], g, d, |hashes|))
  }

  /** All candidate slots are free and no two are the same. */
  ghost predicate Accepts(slots: seq<nat>, idx: seq<nat>)
    requires Below(slots, |idx|)
  {
    (forall p :: 0 <= p < |slots| ==> idx[slots[p]] == |idx|) && NoRepeat(slots)
  }

  /** The first displacement from `d` up whose candidates are accepted. */
  ghost function FindSeed(mix: Mixer, hashes: seq<u64>, bucket: seq<nat>, g: u64, idx: seq<nat>,
      d: nat): (r: Option<u32>)
    requires |hashes| == |idx| > 0 && Below(bucket, |hashes|)
    ensures r.Some? ==> Accepts(Candidates(mix, hashes, bucket, g, r.value), idx)
    decreases MAX_DISPLACEMENT + 1 - d
  {
    if d > MAX_DISPLACEMENT then None
    else if Accepts(Candidates(mix, hashes, bucket, g, d), idx) then Some(d)
    else FindSeed(mix, hashes, bucket, g, idx, d + 1)
  }

  ghost function Fill(idx: seq<nat>, bucket: seq<nat>, slots: seq<nat>): (r: seq<nat>)
    requires |bucket| == |slots| && Below(slots, |idx|)
    ensures |r| == |idx|
  {
    if bucket == [] then idx
    else
      var k := |bucket| - 1;
      Fill(idx, bucket[..k], slots[..k])[slots[k] := bucket[k]]
  }

  lemma {:induction false} FillAt(idx: seq<nat>, bucket: seq<nat>, slots: seq<nat>, j: nat)
    requires |bucket| == |slots| && Below(slots, |idx|) && NoRepeat(slots) && j < |idx|
    ensures j !in slots ==> Fill(idx, bucket, slots)[j] == idx[j]
    ensures forall p :: 0 <= p < |slots| && slots[p] == j ==> Fill(idx, bucket, slots)[j] == bucket[p]
  {
    if bucket != [] {
      var k := |bucket| - 1;
      FillAt(idx, bucket[..k], slots[..k], j);
      assert slots == slots[..k] + [slots[k]];
    }
  }

  /** Place the buckets of `order[k..]`, stopping at the first empty one. */
  ghost function PlaceFrom(mix: Mixer, hashes: seq<u64>, g: u64, m: nat, order: seq<nat>, k: nat,
      st: Placing): (r: Option<Placing>)
    requires |hashes| == |st.idx| > 0 && m > 0 && |st.seeds| == m && Below(order, m) && k <= |order|
    ensures r.Some? ==> |r.value.seeds| == m && |r.value.idx| == |hashes|
    decreases |order| - k
  {
    if k == |order| then Some(st)
    else
      var bucket := BucketOf(mix, hashes, g, m, order[k]);
      if bucket == [] then Some(st)
      else
        var d := FindSeed(mix, hashes, bucket, g, st.idx, 1);
        if d.None? then None
        else PlaceFrom(mix, hashes, g, m, order, k + 1, Placed(mix, hashes, g, order[k], bucket, d.value, st))
  }

  ghost function Placed(mix: Mixer, hashes: seq<u64>, g: u64, b: nat, bucket: seq<nat>, d: u32,
      st: Placing): (r: Placing)
    requires |hashes| == |st.idx| > 0 && b < |st.seeds| && Below(bucket, |hashes|)
    ensures |r.seeds| == |st.seeds| && |r.idx| == |st.idx|
  {
    Placing(st.seeds[b := d], Fill(st.idx, bucket, Candidates(mix, hashes, bucket, g, d)))
  }

  ghost function Sizes(mix: Mixer, hashes: seq<u64>, g: u64, m: nat): (r: seq<nat>)
    requires m > 0
    ensures |r| == m
  {
    seq(m, b requires 0 <= b < m => |BucketOf(mix, hashes, g, m, b)|)
  }

  ghost function Nothing(n: nat, m: nat): (st: Placing)
    ensures |st.seeds| == m && |st.idx| == n
  {
    Placing(seq(m, b => 0), seq(n, j => n))
  }

  ghost function TryPlace(mix: Mixer, hashes: seq<u64>, m: nat, g: u64): (r: Option<Placing>)
    requires |hashes| > 0 && m > 0
    ensures r.Some? ==> |r.value.seeds| == m && |r.value.idx| == |hashes|
  {
    PlaceFrom(mix, hashes, g, m, LargestFirst(Sizes(mix, hashes, g, m), m), 0, Nothing(|hashes|, m))
  }

  // ---- what placement achieves -----------------------------------------------------------

  /** The slot a hash is looked up in. */
  function Home(mix: Mixer, h: u64, g: u64, seeds: seq<u32>, n: nat): (j: nat)
    requires |seeds| > 0 && n > 0
    ensures j < n
  {
    SlotIndex(mix, h, g, seeds[BucketIndex(mix, h, g, |seeds|)], n)
  }

  /** Exactly the hashes of the first `k` buckets are placed, each at its home slot. */
  ghost predicate PlacedOk(mix: Mixer, hashes: seq<u64>, g: u64, order: seq<nat>, k: nat, st: Placing)
    requires |hashes| == |st.idx| > 0 && |st.seeds| > 0 && k <= |order|
  {
    var n, m := |hashes|, |st.seeds|;
    && (forall i :: 0 <= i < n && BucketIndex(mix, hashes[i], g, m) in order[..k] ==>
          st.idx[Home(mix, hashes[i], g, st.seeds, n)] == i)
    && (forall j :: 0 <= j < n ==> st.idx[j] <= n)
    && (forall j :: 0 <= j < n && st.idx[j] < n ==>
          && BucketIndex(mix, hashes[st.idx[j]], g, m) in order[..k]
          && Home(mix, hashes[st.idx[j]], g, st.seeds, n) == j)
  }

  /** The bucket is placed next: all the step assumes. */
  ghost predicate Placeable(mix: Mixer, hashes: seq<u64>, g: u64, order: seq<nat>, k: nat, st: Placing, d: u32) {
    && |hashes| == |st.idx| > 0 && |st.seeds| > 0 && k < |order| && Below(order, |st.seeds|) && NoRepeat(order)
    && PlacedOk(mix, hashes, g, order, k, st)
    && Accepts(Candidates(mix, hashes, BucketOf(mix, hashes, g, |st.seeds|, order[k]), g, d), st.idx)
  }

  ghost function PlacedNext(mix: Mixer, hashes: seq<u64>, g: u64, order: seq<nat>, k: nat, st: Placing,
      d: u32): (r: Placing)
    requires Placeable(mix, hashes, g, order, k, st, d)
    ensures |r.seeds| == |st.seeds| && |r.idx| == |st.idx|
  {
    Placed(mix, hashes, g, order[k], BucketOf(mix, hashes, g, |st.seeds|, order[k]), d, st)
  }

  lemma OneMoreBucket(order: seq<nat>, k: nat)
    requires k < |order| && NoRepeat(order)
    ensures order[..k + 1] == order[..k] + [order[k]] && order[k] !in order[..k]
  {
  }

  /** Every hash of the buckets placed so far is at its home slot. */
  lemma PlacedAtHome(mix: Mixer, hashes: seq<u64>, g: u64, order: seq<nat>, k: nat, st: Placing, d: u32, i: nat)
    requires Placeable(mix, hashes, g, order, k, st, d)
    requires i < |hashes| && BucketIndex(mix, hashes[i], g, |st.seeds|) in order[..k + 1]
    ensures var st' := PlacedNext(mix, hashes, g, order, k, st, d);
      st'.idx[Home(mix, hashes[i], g, st'.seeds, |hashes|)] == i
  {
    var n, m, b := |hashes|, |st.seeds|, order[k];
    var bucket := BucketOf(mix, hashes, g, m, b);
    var slots := Candidates(mix, hashes, bucket, g, d);
    var st' := PlacedNext(mix, hashes, g, order, k, st, d);
    BucketMembers(mix, hashes, g, m, b);
    OneMoreBucket(order, k);
    hide BucketIndex, SlotIndex, BucketOf, Fill;
    var j := Home(mix, hashes[i], g, st'.seeds, n);
    FillAt(st.idx, bucket, slots, j);
    if BucketIndex(mix, hashes[i], g, m) == b {
      var p :| 0 <= p < |bucket| && bucket[p] == i;
      assert slots[p] == j;
    } else {
      assert st.idx[j] == i;
    }
  }

  /** The `p`-th hash of a placed bucket is at home in its candidate slot. */
  lemma CandidateIsHome(mix: Mixer, hashes: seq<u64>, g: u64, seeds: seq<u32>, b: nat, d: u32, p: nat)
    requires |hashes| > 0 && b < |seeds| && seeds[b] == d
    requires p < |BucketOf(mix, hashes, g, |seeds|, b)|
    ensures var bucket := BucketOf(mix, hashes, g, |seeds|, b);
      && BucketIndex(mix, hashes[bucket[p]], g, |seeds|) == b
      && Home(mix, hashes[bucket[p]], g, seeds, |hashes|) == Candidates(mix, hashes, bucket, g, d)[p]
  {
    BucketMembers(mix, hashes, g, |seeds|, b);
    hide BucketIndex, SlotIndex, BucketOf;
    assert BucketOf(mix, hashes, g, |seeds|, b)[p] in BucketOf(mix, hashes, g, |seeds|, b);
  }

  /** Homes are unmoved by another bucket's seed. */
  lemma SameHome(mix: Mixer, h: u64, g: u64, seeds: seq<u32>, b: nat, d: u32, n: nat)
    requires b < |seeds| && n > 0 && BucketIndex(mix, h, g, |seeds|) != b
    ensures Home(mix, h, g, seeds[b := d], n) == Home(mix, h, g, seeds, n)
  {
    hide BucketIndex, SlotIndex;
  }

  /** A filled slot holds a hash of a placed bucket that is at home there. */
  lemma FilledIsHome(mix: Mixer, hashes: seq<u64>, g: u64, order: seq<nat>, k: nat, st: Placing, d: u32, j: nat)
    requires Placeable(mix, hashes, g, order, k, st, d) && j < |hashes|
    ensures var st' := PlacedNext(mix, hashes, g, order, k, st, d);
      && st'.idx[j] <= |hashes|
      && (st'.idx[j] < |hashes| ==>
            && BucketIndex(mix, hashes[st'.idx[j]], g, |st.seeds|) in order[..k + 1]
            && Home(mix, hashes[st'.idx[j]], g, st'.seeds, |hashes|) == j)
  {
    hide BucketIndex, SlotIndex, BucketOf, Fill, Home, Candidates, NoRepeat;
    var n, m, b := |hashes|, |st.seeds|, order[k];
    var bucket := BucketOf(mix, hashes, g, m, b);
    var slots := Candidates(mix, hashes, bucket, g, d);
    OneMoreBucket(order, k);
    FillAt(st.idx, bucket, slots, j);
    if j in slots {
      var p :| 0 <= p < |slots| && slots[p] == j;
      CandidateIsHome(mix, hashes, g, st.seeds[b := d], b, d, p);
    } else if st.idx[j] < n {
      SameHome(mix, hashes[st.idx[j]], g, st.seeds, b, d, n);
    }
  }

  lemma PlaceStep(mix: Mixer, hashes: seq<u64>, g: u64, order: seq<nat>, k: nat, st: Placing, d: u32)
    requires |hashes| == |st.idx| > 0 && |st.seeds| > 0 && k < |order| && Below(order, |st.seeds|) && NoRepeat(order)
    requires PlacedOk(mix, hashes, g, order, k, st)
    requires var bucket := BucketOf(mix, hashes, g, |st.seeds|, order[k]);
      Accepts(Candidates(mix, hashes, bucket, g, d), st.idx)
    ensures var bucket := BucketOf(mix, hashes, g, |st.seeds|, order[k]);
      PlacedOk(mix, hashes, g, order, k + 1, Placed(mix, hashes, g, order[k], bucket, d, st))
  {
    hide BucketIndex, BucketOf, Home, Accepts, Candidates, Placed, NoRepeat;
    var n, m, st' := |hashes|, |st.seeds|, PlacedNext(mix, hashes, g, order, k, st, d);
    forall i | 0 <= i < n && BucketIndex(mix, hashes[i], g, m) in order[..k + 1]
      ensures st'.idx[Home(mix, hashes[i], g, st'.seeds, n)] == i
    {
      PlacedAtHome(mix, hashes, g, order, k, st, d, i);
    }
    forall j | 0 <= j < n
      ensures st'.idx[j] <= n
      ensures st'.idx[j] < n ==> BucketIndex(mix, hashes[st'.idx[j]], g, m) in order[..k + 1]
      ensures st'.idx[j] < n ==> Home(mix, hashes[st'.idx[j]], g, st'.seeds, n) == j
    {
      FilledIsHome(mix, hashes, g, order, k, st, d, j);
    }
  }

  /** Once placement stops, every hash is placed: what is left is empty buckets. */
  lemma {:induction false} PlaceFromOk(mix: Mixer, hashes: seq<u64>, g: u64, order: seq<nat>, k: nat, st: Placing)
    requires |hashes| == |st.idx| > 0 && |st.seeds| > 0 && k <= |order| && Below(order, |st.seeds|) && NoRepeat(order)
    requires Descending(order, Sizes(mix, hashes, g, |st.seeds|))
    requires forall b: nat :: b < |st.seeds| ==> b in order
    requires PlacedOk(mix, hashes, g, order, k, st)
    requires PlaceFrom(mix, hashes, g, |st.seeds|, order, k, st).Some?
    ensures var r := PlaceFrom(mix, hashes, g, |st.seeds|, order, k, st).value;
      forall i :: 0 <= i < |hashes| ==> r.idx[Home(mix, hashes[i], g, r.seeds, |hashes|)] == i
    decreases |order| - k
  {
    var m := |st.seeds|;
    hide BucketIndex, Home, BucketOf, FindSeed, Placed;
    if k < |order| && BucketOf(mix, hashes, g, m, order[k]) != [] {
      var bucket := BucketOf(mix, hashes, g, m, order[k]);
      var d := FindSeed(mix, hashes, bucket, g, st.idx, 1);
      hide PlacedOk;
      PlaceStep(mix, hashes, g, order, k, st, d.value);
      PlaceFromOk(mix, hashes, g, order, k + 1, Placed(mix, hashes, g, order[k], bucket, d.value, st));
    } else {
      forall i | 0 <= i < |hashes| ensures BucketIndex(mix, hashes[i], g, m) in order[..k] {
        InPrefix(mix, hashes, g, m, order, k, i);
      }
    }
  }

  /** A hash's bucket is not empty, so it sorts before the first empty one. */
  lemma InPrefix(mix: Mixer, hashes: seq<u64>, g: u64, m: nat, order: seq<nat>, k: nat, i: nat)
    requires m > 0 && k <= |order| && Below(order, m) && i < |hashes|
    requires Descending(order, Sizes(mix, hashes, g, m))
    requires forall b: nat :: b < m ==> b in order
    requires k < |order| ==> BucketOf(mix, hashes, g, m, order[k]) == []
    ensures BucketIndex(mix, hashes[i], g, m) in order[..k]
  {
    hide BucketOf, BucketIndex, NoRepeat;
    var b := BucketIndex(mix, hashes[i], g, m);
    BucketMembers(mix, hashes, g, m, b);
    var sizes := Sizes(mix, hashes, g, m);
    assert i in BucketOf(mix, hashes, g, m, b);
    assert sizes[b] > 0;
    assert b in order;
    var q :| 0 <= q < |order| && order[q] == b;
    if k < |order| { assert sizes[order[k]] == 0; }
    hide Sizes;
    assert q < k by { SmallerLater(order, sizes, k, q); }
    assert order[..k][q] == b;
  }

  lemma SmallerLater(order: seq<nat>, sizes: seq<nat>, k: nat, q: nat)
    requires Below(order, |sizes|) && Descending(order, sizes) && q < |order| && k <= |order|
    requires k < |order| ==> sizes[order[k]] < sizes[order[q]]
    ensures q < k
  {
  }

  lemma {:induction false} LargestFirstDistinct(sizes: seq<nat>, k: nat)
    requires k <= |sizes|
    ensures NoRepeat(LargestFirst(sizes, k))
  {
    if k > 0 {
      LargestFirstDistinct(sizes, k - 1);
      LargestFirstMeaning(sizes, k - 1);
      InsertDistinct(LargestFirst(sizes, k - 1), k - 1, sizes);
    }
  }

  lemma {:induction false} InsertDistinct(order: seq<nat>, b: nat, sizes: seq<nat>)
    requires b < |sizes| && Below(order, |sizes|) && NoRepeat(order) && b !in order
    ensures NoRepeat(InsertBySize(order, b, sizes))
  {
    if order != [] && sizes[order[|order| - 1]] < sizes[b] {
      var front, l := order[..|order| - 1], order[|order| - 1];
      InsertDistinct(front, b, sizes);
      InsertMembers(front, b, sizes);
      var r := InsertBySize(front, b, sizes);
      forall p | 0 <= p < |r| ensures r[p] != l {
        assert r[p] in r;
      }
    }
  }

  // ---- pigeonhole ------------------------------------------------------------------------

  ghost function Elements(list: seq<nat>): set<nat> {
    set x | x in list
  }

  lemma {:induction false} ElementCount(list: seq<nat>)
    requires NoRepeat(list)
    ensures |Elements(list)| == |list|
  {
    if list != [] {
      var k := |list| - 1;
      ElementCount(list[..k]);
      assert Elements(list) == Elements(list[..k]) + {list[k]};
    }
  }

  lemma {:induction false} RangeCount(n: nat) returns (all: set<nat>)
    ensures |all| == n && forall x: nat :: x in all <==> x < n
  {
    if n == 0 { all := {}; } else { var rest := RangeCount(n - 1); all := rest + {n - 1}; }
  }

  lemma SubsetSame(a: set<nat>, b: set<nat>)
    requires a <= b && |a| == |b|
    ensures a == b
  {
    var rest := b - a;
    assert b == a + rest;
    assert |rest| == 0;
  }

  /** n distinct slots below n are all of them. */
  lemma Onto(list: seq<nat>, n: nat)
    requires |list| == n && Below(list, n) && NoRepeat(list)
    ensures forall j: nat :: j < n ==> j in list
  {
    ElementCount(list);
    var all := RangeCount(n);
    assert Elements(list) <= all by {
      forall x | x in Elements(list) ensures x in all {
        var p :| 0 <= p < |list| && list[p] == x;
      }
    }
    SubsetSame(Elements(list), all);
    forall j: nat | j < n ensures j in list {
      assert j in Elements(list);
    }
  }

  // ---- the theorem -----------------------------------------------------------------------

  /** Placement is a bijection between the hashes and the slots: each hash sits at its home slot
      and every slot holds some hash. So the slot a query is sent to holds the query exactly when
      the query is one of the hashes. */
  lemma PlacementBijective(mix: Mixer, hashes: seq<u64>, m: nat, g: u64)
    requires |hashes| > 0 && m > 0 && TryPlace(mix, hashes, m, g).Some?
    ensures var st := TryPlace(mix, hashes, m, g).value;
      && (forall i :: 0 <= i < |hashes| ==> st.idx[Home(mix, hashes[i], g, st.seeds, |hashes|)] == i)
      && (forall j :: 0 <= j < |hashes| ==> st.idx[j] < |hashes|)
      && (forall j :: 0 <= j < |hashes| && st.idx[j] < |hashes| ==>
          Home(mix, hashes[st.idx[j]], g, st.seeds, |hashes|) == j)
  {
    var n := |hashes|;
    var sizes := Sizes(mix, hashes, g, m);
    var order := LargestFirst(sizes, m);
    LargestFirstMeaning(sizes, m);
    LargestFirstDistinct(sizes, m);
    hide LargestFirst, Home, BucketIndex, Sizes, PlaceFrom;
    var st0 := Nothing(n, m);
    assert PlacedOk(mix, hashes, g, order, 0, st0);
    PlaceFromOk(mix, hashes, g, order, 0, st0);
    var st := TryPlace(mix, hashes, m, g).value;
    var homes := seq(n, i requires 0 <= i < n => Home(mix, hashes[i], g, st.seeds, n));
    assert NoRepeat(homes) by {
      forall p, q | 0 <= p < q < n ensures homes[p] != homes[q] {
        assert st.idx[homes[p]] == p && st.idx[homes[q]] == q;
      }
    }
    Onto(homes, n);
    forall j | 0 <= j < n ensures st.idx[j] < n
        && (st.idx[j] < n ==> Home(mix, hashes[st.idx[j]], g, st.seeds, n) == j) {
      assert j in homes;
      var i :| 0 <= i < n && homes[i] == j;
      assert st.idx[homes[i]] == i;
    }
  }
}
