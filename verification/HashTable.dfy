/** The frozen routing table: displacement seeds and slot entries packed into one byte buffer,
    its construction, and its constant-time lookup. */
module HashTable {
  import opened Wrappers
  import opened Bits
  import opened Bytes
  import opened Entries
  import opened Chd

  const ENTRY_BYTES: nat := 10
  const SEED_STEP: nat := 0x9E37_79B9_7F4A_7C15

  /** `[seeds: u32 LE; numBuckets][entries: ENTRY_BYTES; numSlots]` in `buf`. */
  datatype Table = Table(globalSeed: u64, numBuckets: nat, numSlots: nat, buf: seq<u8>)

  predicate WellSized(t: Table) {
    && |t.buf| == t.numBuckets * 4 + t.numSlots * ENTRY_BYTES
    && (t.numSlots > 0 ==> t.numBuckets > 0)
  }

  /** `backend | flags << 2` in one byte: the two top bits of `flags` do not fit. */
  function Packed(e: Entry): u8 {
    Code(e.backend) + e.flags * 4 % 256
  }

  function EntryBytes(e: Entry): (r: seq<u8>)
    ensures |r| == ENTRY_BYTES
  {
    Le(e.hash, 8) + [Packed(e), e.sizeClass]
  }

  function SeedRecords(seeds: seq<u32>): seq<seq<u8>> {
    seq(|seeds|, b requires 0 <= b < |seeds| => Le(seeds[b], 4))
  }

  function SlotRecords(slots: seq<Entry>): seq<seq<u8>> {
    seq(|slots|, j requires 0 <= j < |slots| => EntryBytes(slots[j]))
  }

  function Pack(seeds: seq<u32>, slots: seq<Entry>): seq<u8> {
    Flatten(SeedRecords(seeds)) + Flatten(SlotRecords(slots))
  }

  /** The packing loop: seeds first, then entries, nothing between. */
  method PackLoop(seeds: seq<u32>, slots: seq<Entry>) returns (buf: seq<u8>)
    ensures buf == Pack(seeds, slots)
  {
    buf := [];
    for i := 0 to |seeds|
      invariant buf == Flatten(SeedRecords(seeds)[..i])
    {
      assert SeedRecords(seeds)[..i + 1][..i] == SeedRecords(seeds)[..i];
      buf := buf + Le(seeds[i], 4);
    }
    assert SeedRecords(seeds)[..|seeds|] == SeedRecords(seeds);
    for i := 0 to |slots|
      invariant buf == Flatten(SeedRecords(seeds)) + Flatten(SlotRecords(slots)[..i])
    {
      assert SlotRecords(slots)[..i + 1][..i] == SlotRecords(slots)[..i];
      buf := buf + EntryBytes(slots[i]);
    }
    assert SlotRecords(slots)[..|slots|] == SlotRecords(slots);
  }

  /** Where the reader finds each seed, and each entry. */
  lemma SeedAt(seeds: seq<u32>, slots: seq<Entry>, b: nat)
    requires b < |seeds|
    ensures b * 4 + 4 <= |Pack(seeds, slots)| && Read32(Pack(seeds, slots), b * 4) == seeds[b]
  {
    Widths();
    FlattenAt(SeedRecords(seeds), 4, b);
    FromLeOfLe(seeds[b], 4);
    var left := Flatten(SeedRecords(seeds));
    hide Flatten, Le, FromLe;
    var at := b * 4;
    assert Pack(seeds, slots)[at..at + 4] == left[at..at + 4];
  }

  lemma PackedAt(seeds: seq<u32>, slots: seq<Entry>, j: nat)
    requires j < |slots|
    ensures var buf, off := Pack(seeds, slots), |seeds| * 4 + j * ENTRY_BYTES;
      && off + ENTRY_BYTES <= |buf| == |seeds| * 4 + |slots| * ENTRY_BYTES
      && Read64(buf, off) == slots[j].hash
      && buf[off + 8] == Packed(slots[j]) && buf[off + 9] == slots[j].sizeClass
  {
    Widths();
    FlattenLength(SeedRecords(seeds), 4);
    FlattenAt(SlotRecords(slots), ENTRY_BYTES, j);
    FromLeOfLe(slots[j].hash, 8);
    hide Flatten, Le, FromLe, Packed;
    SuffixAt(Flatten(SeedRecords(seeds)), Flatten(SlotRecords(slots)), j * ENTRY_BYTES, slots[j]);
  }

  lemma SuffixAt(left: seq<u8>, right: seq<u8>, at: nat, e: Entry)
    requires at + ENTRY_BYTES <= |right| && right[at..at + ENTRY_BYTES] == EntryBytes(e)
    ensures (left + right)[|left| + at..|left| + at + 8] == Le(e.hash, 8)
    ensures (left + right)[|left| + at + 8] == Packed(e) && (left + right)[|left| + at + 9] == e.sizeClass
  {
    hide Le, Packed;
    var rec := right[at..at + ENTRY_BYTES];
    assert rec[..8] == Le(e.hash, 8);
    assert (left + right)[|left| + at..|left| + at + 8] == right[at..at + 8] == rec[..8];
    assert right[at + 8] == rec[8] && right[at + 9] == rec[9];
  }

  lemma PackLength(seeds: seq<u32>, slots: seq<Entry>)
    ensures |Pack(seeds, slots)| == |seeds| * 4 + |slots| * ENTRY_BYTES
  {
    FlattenLength(SeedRecords(seeds), 4);
    FlattenLength(SlotRecords(slots), ENTRY_BYTES);
  }

  // ---- lookup ----------------------------------------------------------------------------

  /** Two mixes, two reads, one comparison; every read is in bounds. */
  function LookupWithFlags(mix: Mixer, t: Table, h: u64): Option<(Backend, u8)>
    requires WellSized(t)
  {
    if t.numSlots == 0 then None
    else
      var bucket := BucketIndex(mix, h, t.globalSeed, t.numBuckets);
      var d := Read32(t.buf, bucket * 4);
      var slot := SlotIndex(mix, h, t.globalSeed, d, t.numSlots);
      SlotInBounds(t, slot);
      var off := t.numBuckets * 4 + slot * ENTRY_BYTES;
      if Read64(t.buf, off) != h then None
      else Some((BackendOf(t.buf[off + 8]), t.buf[off + 8] / 4))
  }

  function Lookup(mix: Mixer, t: Table, h: u64): Option<Backend>
    requires WellSized(t)
  {
    match LookupWithFlags(mix, t, h) case None => None case Some(v) => Some(v.0)
  }

  lemma SlotInBounds(t: Table, slot: nat)
    requires WellSized(t) && slot < t.numSlots
    ensures t.numBuckets * 4 + slot * ENTRY_BYTES + ENTRY_BYTES <= |t.buf|
  {
  }

  // ---- construction ----------------------------------------------------------------------

  function Hashes(entries: seq<Entry>): (r: seq<u64>)
    ensures |r| == |entries|
  {
    seq(|entries|, i requires 0 <= i < |entries| => entries[i].hash)
  }

  const PLACEHOLDER: Entry := Entry(0, System, 0, 0)

  function SlotEntry(entries: seq<Entry>, i: nat): Entry {
    if i < |entries| then entries[i] else PLACEHOLDER
  }

  ghost function Filled(entries: seq<Entry>, idx: seq<nat>): (r: seq<Entry>)
    ensures |r| == |idx|
  {
    seq(|idx|, j requires 0 <= j < |idx| => SlotEntry(entries, idx[j]))
  }

  ghost function TableOf(entries: seq<Entry>, g: u64, st: Placing): (t: Table)
    requires |st.idx| == |entries| && (|entries| > 0 ==> |st.seeds| > 0)
    ensures WellSized(t)
  {
    PackLength(st.seeds, Filled(entries, st.idx));
    Table(g, |st.seeds|, |entries|, Pack(st.seeds, Filled(entries, st.idx)))
  }

  ghost function TryBuild(mix: Mixer, entries: seq<Entry>, m: nat, g: u64): (r: Option<Table>)
    requires |entries| > 0 && m > 0
    ensures r.Some? ==> WellSized(r.value)
  {
    var st := TryPlace(mix, Hashes(entries), m, g);
    if st.None? then None else Some(TableOf(entries, g, st.value))
  }

  /** Bucket counts in the order they are tried: about four keys per bucket, then one. */
  function BucketCount(n: nat, attempt: nat): (m: nat)
    ensures n > 0 ==> m > 0
  {
    if attempt < GLOBAL_RETRIES then Max1((n + BUCKET_LAMBDA - 1) / BUCKET_LAMBDA) else n
  }

  function Max1(x: nat): nat {
    if x < 1 then 1 else x
  }

  /** `(attempt + 1).wrapping_mul(SEED_STEP)`. */
  function GlobalSeed(attempt: nat): u64 {
    (attempt % GLOBAL_RETRIES + 1) * SEED_STEP % TWO64
  }

  /** The attempts from number `attempt` on; None where the code panics. */
  ghost function BuildFrom(mix: Mixer, entries: seq<Entry>, attempt: nat): (r: Option<Table>)
    requires |entries| > 0
    ensures r.Some? ==> WellSized(r.value)
    decreases 2 * GLOBAL_RETRIES - attempt
  {
    if attempt >= 2 * GLOBAL_RETRIES then None
    else
      var t := TryBuild(mix, entries, BucketCount(|entries|, attempt), GlobalSeed(attempt));
      if t.Some? then t else BuildFrom(mix, entries, attempt + 1)
  }

  const EMPTY_TABLE: Table := Table(0, 0, 0, [])

  ghost function Build(mix: Mixer, entries: seq<Entry>): (r: Option<Table>)
    ensures r.Some? ==> WellSized(r.value)
  {
    if entries == [] then Some(EMPTY_TABLE) else BuildFrom(mix, entries, 0)
  }

  /** `from_entries_flagged`. */
  ghost function FromEntries(mix: Mixer, es: seq<Entry>): (r: Option<Table>)
    ensures r.Some? ==> WellSized(r.value)
  {
    Build(mix, Canonical(es))
  }

  // ---- the construction loops ------------------------------------------------------------

  method Partition(mix: Mixer, entries: seq<Entry>, m: nat, g: u64) returns (buckets: seq<seq<nat>>)
    requires m > 0
    ensures |buckets| == m
    ensures forall b :: 0 <= b < m ==> buckets[b] == BucketOf(mix, Hashes(entries), g, m, b)
  {
    ghost var hashes := Hashes(entries);
    buckets := seq(m, b => []);
    for i := 0 to |entries|
      invariant |buckets| == m
      invariant forall b :: 0 <= b < m ==> buckets[b] == BucketOf(mix, hashes[..i], g, m, b)
    {
      assert hashes[..i + 1][..i] == hashes[..i];
      var b := BucketIndex(mix, entries[i].hash, g, m);
      buckets := buckets[b := buckets[b] + [i]];
    }
    assert hashes[..|entries|] == hashes;
  }

  ghost predicate Tracks(entries: seq<Entry>, occupied: seq<bool>, slots: seq<Entry>, idx: seq<nat>) {
    && |occupied| == |slots| == |idx| == |entries|
    && (forall j :: 0 <= j < |idx| ==> (occupied[j] <==> idx[j] != |idx|))
    && slots == Filled(entries, idx)
  }

  /** Whether displacement `d` sends the whole bucket to distinct free slots, and to which. */
  method TryDisplacement(mix: Mixer, entries: seq<Entry>, bucket: seq<nat>, g: u64, d: u32,
                         occupied: array<bool>, ghost idx: seq<nat>) returns (ok: bool, candidate: seq<nat>)
    requires |entries| == |idx| > 0 && Below(bucket, |entries|)
    requires occupied.Length == |idx| && forall j :: 0 <= j < |idx| ==> (occupied[j] <==> idx[j] != |idx|)
    ensures ok <==> Accepts(Candidates(mix, Hashes(entries), bucket, g, d), idx)
    ensures ok ==> candidate == Candidates(mix, Hashes(entries), bucket, g, d)
  {
    ghost var all := Candidates(mix, Hashes(entries), bucket, g, d);
    candidate := [];
    for p := 0 to |bucket|
      invariant candidate == all[..p] && Accepts(candidate, idx)
    {
      var slot := SlotIndex(mix, entries[bucket[p]].hash, g, d, |entries|);
      assert slot == all[p];
      if occupied[slot] || slot in candidate {
        if slot in candidate {
          ghost var q :| 0 <= q < p && candidate[q] == slot;
          assert all[q] == all[p];
        }
        return false, [];
      }
      assert forall q :: 0 <= q < p ==> candidate[q] in candidate;
      candidate := candidate + [slot];
    }
    return true, candidate;
  }

  method FindDisplacement(mix: Mixer, entries: seq<Entry>, bucket: seq<nat>, g: u64,
                          occupied: array<bool>, ghost idx: seq<nat>) returns (r: Option<u32>, candidate: seq<nat>)
    requires |entries| == |idx| > 0 && Below(bucket, |entries|)
    requires occupied.Length == |idx| && forall j :: 0 <= j < |idx| ==> (occupied[j] <==> idx[j] != |idx|)
    ensures r == FindSeed(mix, Hashes(entries), bucket, g, idx, 1)
    ensures r.Some? ==> candidate == Candidates(mix, Hashes(entries), bucket, g, r.value)
  {
    hide Candidates, Accepts;
    var d := 1;
    while d <= MAX_DISPLACEMENT
      invariant 1 <= d <= MAX_DISPLACEMENT + 1
      invariant FindSeed(mix, Hashes(entries), bucket, g, idx, 1) == FindSeed(mix, Hashes(entries), bucket, g, idx, d)
    {
      var ok;
      ok, candidate := TryDisplacement(mix, entries, bucket, g, d, occupied, idx);
      if ok {
        return Some(d), candidate;
      }
      d := d + 1;
    }
    return None, [];
  }

  /** Occupy the accepted slots with the bucket's entries. */
  method Occupy(entries: seq<Entry>, bucket: seq<nat>, candidate: seq<nat>,
                occupied: array<bool>, slots: array<Entry>, ghost idx: seq<nat>)
    requires |entries| == |idx| && Below(bucket, |entries|) && |bucket| == |candidate| && Below(candidate, |idx|)
    requires occupied.Length == slots.Length == |idx| && Tracks(entries, occupied[..], slots[..], idx)
    modifies occupied, slots
    ensures Tracks(entries, occupied[..], slots[..], Fill(idx, bucket, candidate))
  {
    for p := 0 to |bucket|
      invariant Tracks(entries, occupied[..], slots[..], Fill(idx, bucket[..p], candidate[..p]))
    {
      assert bucket[..p + 1][..p] == bucket[..p] && candidate[..p + 1][..p] == candidate[..p];
      occupied[candidate[p]] := true;
      slots[candidate[p]] := entries[bucket[p]];
    }
    assert bucket[..|bucket|] == bucket && candidate[..|bucket|] == candidate;
  }

  /** One construction attempt, bucket by bucket, largest first. */
  method TryBuildLoop(mix: Mixer, entries: seq<Entry>, m: nat, g: u64) returns (r: Option<Table>)
    requires |entries| > 0 && m > 0
    ensures r == TryBuild(mix, entries, m, g)
  {
    hide BucketOf, FindSeed, Fill, LargestFirst, Pack;
    var n := |entries|;
    ghost var hashes := Hashes(entries);
    var buckets := Partition(mix, entries, m, g);
    var sizes: seq<nat> := seq(m, b requires 0 <= b < m => |buckets[b]|);
    assert sizes == Sizes(mix, hashes, g, m);
    var order := LargestFirst(sizes, m);
    var seeds := new u32[m](b => 0);
    var occupied := new bool[n](j => false);
    var slots := new Entry[n](j => PLACEHOLDER);
    ghost var st := Nothing(n, m);
    var k := 0;
    while k < |order| && |buckets[order[k]]| > 0
      invariant k <= |order| && |st.seeds| == m && |st.idx| == n
      invariant PlaceFrom(mix, hashes, g, m, order, 0, Nothing(n, m)) == PlaceFrom(mix, hashes, g, m, order, k, st)
      invariant seeds[..] == st.seeds && Tracks(entries, occupied[..], slots[..], st.idx)
    {
      var bucket := buckets[order[k]];
      var d, candidate := FindDisplacement(mix, entries, bucket, g, occupied, st.idx);
      if d.None? {
        return None;
      }
      Occupy(entries, bucket, candidate, occupied, slots, st.idx);
      seeds[order[k]] := d.value;
      st := Placed(mix, hashes, g, order[k], bucket, d.value, st);
      k := k + 1;
    }
    var buf := PackLoop(seeds[..], slots[..]);
    return Some(Table(g, m, n, buf));
  }

  /** All attempts in order; None stands for the final panic. */
  method BuildLoop(mix: Mixer, entries: seq<Entry>) returns (r: Option<Table>)
    ensures r == Build(mix, entries)
  {
    hide TryBuild, BucketCount, GlobalSeed;
    if |entries| == 0 {
      return Some(EMPTY_TABLE);
    }
    var attempt := 0;
    while attempt < 2 * GLOBAL_RETRIES
      invariant attempt <= 2 * GLOBAL_RETRIES
      invariant Build(mix, entries) == BuildFrom(mix, entries, attempt)
    {
      r := TryBuildLoop(mix, entries, BucketCount(|entries|, attempt), GlobalSeed(attempt));
      if r.Some? {
        return;
      }
      attempt := attempt + 1;
    }
    return None;
  }

  method FromEntriesLoop(mix: Mixer, es: seq<Entry>) returns (r: Option<Table>)
    ensures r == FromEntries(mix, es)
  {
    var deduped := Dedup(SortByHash(es));
    r := BuildLoop(mix, deduped);
  }
}
