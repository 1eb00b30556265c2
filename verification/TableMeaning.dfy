/** What a frozen table answers: exactly the last-wins map of the entries it was built from. */
module TableMeaning {
  import opened Wrappers
  import opened Bytes
  import opened Entries
  import opened Chd
  import opened HashTable

  /** What survives packing: the flag byte loses its two top bits. */
  function Mask(e: Entry): (r: Entry)
    ensures r.hash == e.hash && r.backend == e.backend && r.sizeClass == e.sizeClass
    ensures e.flags < 64 ==> r == e
  {
    e.(flags := e.flags % 64)
  }

  lemma PackedMeaning(e: Entry)
    ensures BackendOf(Packed(e)) == e.backend && Packed(e) / 4 == e.flags % 64
    ensures Packed(Mask(e)) == Packed(e)
  {
    var f: nat := e.flags;
    assert f * 4 % 256 == f % 64 * 4;
    assert f % 64 % 64 == f % 64;
  }

  function Masked(es: seq<Entry>): (r: seq<Entry>)
    ensures |r| == |es|
  {
    seq(|es|, i requires 0 <= i < |es| => Mask(es[i]))
  }

  // ---- lookup ----------------------------------------------------------------------------

  function Answer(o: Option<Entry>): Option<(Backend, u8)> {
    match o case None => None case Some(e) => Some((e.backend, e.flags % 64))
  }

  /** The attempt that produced the table. */
  lemma {:induction false} BuildFromSource(mix: Mixer, entries: seq<Entry>, attempt: nat) returns (m: nat, g: u64)
    requires |entries| > 0 && BuildFrom(mix, entries, attempt).Some?
    ensures m > 0 && TryPlace(mix, Hashes(entries), m, g).Some?
    ensures BuildFrom(mix, entries, attempt).value == TableOf(entries, g, TryPlace(mix, Hashes(entries), m, g).value)
    decreases 2 * GLOBAL_RETRIES - attempt
  {
    hide BucketCount, GlobalSeed, TryPlace, TableOf;
    m, g := BucketCount(|entries|, attempt), GlobalSeed(attempt);
    if TryBuild(mix, entries, m, g).None? {
      m, g := BuildFromSource(mix, entries, attempt + 1);
    }
  }

  /** A lookup reads the seed of the query's bucket, then the entry of the query's home slot. */
  lemma LookupReads(mix: Mixer, seeds: seq<u32>, slots: seq<Entry>, g: u64, h: u64)
    requires |seeds| > 0 && |slots| > 0
    ensures WellSized(Table(g, |seeds|, |slots|, Pack(seeds, slots)))
    ensures var e := slots[Home(mix, h, g, seeds, |slots|)];
      LookupWithFlags(mix, Table(g, |seeds|, |slots|, Pack(seeds, slots)), h) == if e.hash != h then None
          else Answer(Some(e))
  {
    var b := BucketIndex(mix, h, g, |seeds|);
    SeedAt(seeds, slots, b);
    hide BucketIndex, SlotIndex, Read32, Read64, Pack, Packed, BackendOf;
    var j := SlotIndex(mix, h, g, seeds[b], |slots|);
    PackedAt(seeds, slots, j);
    PackedMeaning(slots[j]);
    SlotInBounds(Table(g, |seeds|, |slots|, Pack(seeds, slots)), j);
  }

  /** The slot a query is sent to holds one of the entries, and holds the query's own entry when
      the query is a key. */
  lemma LookupPlaced(mix: Mixer, entries: seq<Entry>, m: nat, g: u64, h: u64)
    requires |entries| > 0 && Strict(entries) && m > 0 && TryPlace(mix, Hashes(entries), m, g).Some?
    ensures LookupWithFlags(mix, TableOf(entries, g, TryPlace(mix, Hashes(entries), m, g).value), h)
              == Answer(LastWins(entries, h))
  {
    var n, hashes := |entries|, Hashes(entries);
    hide TryPlace, Pack, LookupWithFlags, Home, Answer;
    var st := TryPlace(mix, hashes, m, g).value;
    PlacementBijective(mix, hashes, m, g);
    var slots := Filled(entries, st.idx);
    LookupReads(mix, st.seeds, slots, g, h);
    var j := Home(mix, h, g, st.seeds, n);
    var i := st.idx[j];
    assert slots[j] == entries[i];
    LastWinsAt(entries, i);
    LastWinsMember(entries, h);
    hide LastWins, Strict;
    if LastWins(entries, h).Some? {
      var p :| 0 <= p < n && entries[p] == LastWins(entries, h).value;
      assert hashes[p] == h;
    }
    assert LastWins(entries, h).None? ==> Answer(LastWins(entries, h)) == None by { NoAnswer(); }
  }

  lemma NoAnswer()
    ensures Answer(None) == None
  {
  }

  /** Every key answers with its last entry, and every other hash answers None, whatever the
      mixing function does. */
  lemma LookupMeaning(mix: Mixer, es: seq<Entry>, h: u64)
    requires FromEntries(mix, es).Some?
    ensures LookupWithFlags(mix, FromEntries(mix, es).value, h) == Answer(LastWins(es, h))
  {
    var entries := Canonical(es);
    CanonicalMeaning(es, h);
    hide Canonical;
    if entries != [] {
      hide LookupWithFlags, Answer, TableOf, TryPlace;
      var m, g := BuildFromSource(mix, entries, 0);
      LookupPlaced(mix, entries, m, g, h);
    }
  }

  // ---- listing ---------------------------------------------------------------------------

  function SlotAt(t: Table, j: nat): Entry
    requires WellSized(t) && j < t.numSlots
  {
    SlotInBounds(t, j);
    var off := t.numBuckets * 4 + j * ENTRY_BYTES;
    Entry(Read64(t.buf, off), BackendOf(t.buf[off + 8]), t.buf[off + 9], t.buf[off + 8] / 4)
  }

  function SlotList(t: Table): (r: seq<Entry>)
    requires WellSized(t)
    ensures |r| == t.numSlots
  {
    seq(t.numSlots, j requires 0 <= j < t.numSlots => SlotAt(t, j))
  }

  /** Every stored entry, sorted by hash. */
  function EntriesFlagged(t: Table): seq<Entry>
    requires WellSized(t)
  {
    SortByHash(SlotList(t))
  }

  ghost predicate HashesDiffer(es: seq<Entry>) {
    forall i, j :: 0 <= i < j < |es| ==> es[i].hash != es[j].hash
  }

  lemma {:induction false} InsertDiffer(es: seq<Entry>, e: Entry)
    requires HashesDiffer(es) && forall x :: x in es ==> x.hash != e.hash
    ensures HashesDiffer(InsertLast(es, e))
  {
    if es != [] && es[|es| - 1].hash > e.hash {
      var front, l := es[..|es| - 1], es[|es| - 1];
      InsertDiffer(front, e);
      Entries.InsertMembers(front, e);
      var r := InsertLast(front, e);
      forall p | 0 <= p < |r| ensures r[p].hash != l.hash {
        assert r[p] in r;
      }
    }
  }

  lemma {:induction false} SortKeeps(es: seq<Entry>)
    ensures forall x :: x in SortByHash(es) <==> x in es
    ensures HashesDiffer(es) ==> HashesDiffer(SortByHash(es))
  {
    if es != [] {
      var front, l := es[..|es| - 1], es[|es| - 1];
      SortKeeps(front);
      Entries.InsertMembers(SortByHash(front), l);
      assert es == front + [l];
      if HashesDiffer(es) { InsertDiffer(SortByHash(front), l); }
      hide InsertLast;
    }
  }

  lemma MaskedStrict(es: seq<Entry>)
    requires Strict(es)
    ensures Strict(Masked(es)) && Hashes(Masked(es)) == Hashes(es)
  {
  }

  /** Slot by slot, the table holds each entry once. */
  lemma SlotsHold(mix: Mixer, entries: seq<Entry>, m: nat, g: u64)
    requires |entries| > 0 && Strict(entries) && m > 0 && TryPlace(mix, Hashes(entries), m, g).Some?
    ensures var list := SlotList(TableOf(entries, g, TryPlace(mix, Hashes(entries), m, g).value));
      HashesDiffer(list) && forall x :: x in list <==> x in Masked(entries)
  {
    var n, hashes := |entries|, Hashes(entries);
    var st := TryPlace(mix, hashes, m, g).value;
    PlacementBijective(mix, hashes, m, g);
    hide TryPlace;
    var t := TableOf(entries, g, st);
    var list := SlotList(t);
    forall j | 0 <= j < n ensures list[j] == Masked(entries)[st.idx[j]] {
      SlotHolds(entries, g, st, j);
    }
    hide TableOf, SlotAt, Home, Mask;
    forall a, b | 0 <= a < b < n ensures list[a].hash != list[b].hash {
      assert st.idx[a] != st.idx[b];
    }
    forall i | 0 <= i < n ensures Masked(entries)[i] in list {
      assert list[Home(mix, hashes[i], g, st.seeds, n)] == Masked(entries)[i];
    }
  }

  lemma SlotHolds(entries: seq<Entry>, g: u64, st: Placing, j: nat)
    requires |st.idx| == |entries| && |st.seeds| > 0 && j < |entries| && st.idx[j] < |entries|
    ensures SlotAt(TableOf(entries, g, st), j) == Mask(entries[st.idx[j]])
  {
    var slots := Filled(entries, st.idx);
    PackedAt(st.seeds, slots, j);
    PackedMeaning(entries[st.idx[j]]);
    hide Pack, Packed, BackendOf, Read64;
  }

  /** Two lists with the same members, each hash at most once in either, answer alike. */
  lemma SameAnswers(a: seq<Entry>, b: seq<Entry>, h: u64)
    requires HashesDiffer(a) && HashesDiffer(b) && forall x :: x in a <==> x in b
    ensures LastWins(a, h) == LastWins(b, h)
  {
    LastWinsMember(a, h);
    LastWinsMember(b, h);
    hide LastWins;
    if LastWins(a, h).Some? {
      var x, y := LastWins(a, h).value, LastWins(b, h).value;
      assert y in a;
    }
  }

  lemma SortUnique(a: seq<Entry>, b: seq<Entry>)
    requires HashesDiffer(a) && Strict(b) && forall x :: x in a <==> x in b
    ensures SortByHash(a) == b
  {
    forall h ensures LastWins(SortByHash(a), h) == LastWins(b, h) {
      SortSorted(a, h);
      SameAnswers(a, b, h);
    }
    SortSorted(a, 0);
    SortKeeps(a);
    hide SortByHash, LastWins;
    StrictUnique(SortByHash(a), b);
  }

  /** Listing a table gives back the canonical form of its input, flags masked to six bits. */
  lemma ListingMeaning(mix: Mixer, es: seq<Entry>)
    requires FromEntries(mix, es).Some?
    ensures EntriesFlagged(FromEntries(mix, es).value) == Masked(Canonical(es))
  {
    var entries := Canonical(es);
    CanonicalMeaning(es, 0);
    hide Canonical;
    if entries != [] {
      hide SlotList, TableOf, TryPlace;
      var m, g := BuildFromSource(mix, entries, 0);
      SlotsHold(mix, entries, m, g);
      MaskedStrict(entries);
      SortUnique(SlotList(TableOf(entries, g, TryPlace(mix, Hashes(entries), m, g).value)), Masked(entries));
    }
  }

  // ---- rebuilding ------------------------------------------------------------------------

  lemma CanonicalOfStrict(es: seq<Entry>)
    requires Strict(es)
    ensures Canonical(es) == es
  {
    forall h ensures LastWins(Canonical(es), h) == LastWins(es, h) {
      CanonicalMeaning(es, h);
    }
    CanonicalMeaning(es, 0);
    hide Canonical, LastWins;
    StrictUnique(Canonical(es), es);
  }

  lemma FilledMasked(entries: seq<Entry>, idx: seq<nat>)
    ensures SlotRecords(Filled(Masked(entries), idx)) == SlotRecords(Filled(entries, idx))
  {
    forall j | 0 <= j < |idx|
      ensures EntryBytes(SlotEntry(Masked(entries), idx[j])) == EntryBytes(SlotEntry(entries, idx[j]))
    {
      if idx[j] < |entries| { PackedMeaning(entries[idx[j]]); }
    }
  }

  lemma TryBuildMasked(mix: Mixer, entries: seq<Entry>, m: nat, g: u64)
    requires |entries| > 0 && m > 0
    ensures TryBuild(mix, Masked(entries), m, g) == TryBuild(mix, entries, m, g)
  {
    assert Hashes(Masked(entries)) == Hashes(entries);
    var st := TryPlace(mix, Hashes(entries), m, g);
    if st.Some? { FilledMasked(entries, st.value.idx); }
    hide TryPlace, Filled, SlotRecords;
  }

  lemma {:induction false} BuildFromMasked(mix: Mixer, entries: seq<Entry>, attempt: nat)
    requires |entries| > 0
    ensures BuildFrom(mix, Masked(entries), attempt) == BuildFrom(mix, entries, attempt)
    decreases 2 * GLOBAL_RETRIES - attempt
  {
    hide TryBuild, BucketCount, GlobalSeed;
    if attempt < 2 * GLOBAL_RETRIES {
      TryBuildMasked(mix, entries, BucketCount(|entries|, attempt), GlobalSeed(attempt));
      BuildFromMasked(mix, entries, attempt + 1);
    }
  }

  /** Rebuilding from a table's own listing gives back the very same table, byte for byte. */
  lemma RebuildSame(mix: Mixer, es: seq<Entry>)
    requires FromEntries(mix, es).Some?
    ensures FromEntries(mix, EntriesFlagged(FromEntries(mix, es).value)) == FromEntries(mix, es)
  {
    var entries := Canonical(es);
    ListingMeaning(mix, es);
    CanonicalMeaning(es, 0);
    MaskedStrict(entries);
    CanonicalOfStrict(Masked(entries));
    hide Canonical;
    if entries != [] { BuildFromMasked(mix, entries, 0); }
  }

  /** The table depends only on what each hash finally maps to, not on the order of the input. */
  lemma OrderIndependent(mix: Mixer, a: seq<Entry>, b: seq<Entry>)
    requires forall h :: LastWins(a, h) == LastWins(b, h)
    ensures FromEntries(mix, a) == FromEntries(mix, b)
  {
    CanonicalUnique(a, b);
  }

  lemma SinglePlaces(mix: Mixer, hashes: seq<u64>, g: u64)
    requires |hashes| == 1
    ensures TryPlace(mix, hashes, 1, g).Some?
  {
    hide BucketIndex, SlotIndex;
    assert hashes[..0] == [];
    assert BucketOf(mix, hashes, g, 1, 0) == [0];
    hide BucketOf;
    assert LargestFirst(Sizes(mix, hashes, g, 1), 1) == [0];
    hide LargestFirst;
    assert FindSeed(mix, hashes, [0], g, Nothing(1, 1).idx, 1) == Some(1);
  }

  /** Construction never fails on a single entry, whatever the mixing function. */
  lemma SingleBuilds(mix: Mixer, e: Entry)
    ensures FromEntries(mix, [e]).Some?
  {
    hide Canonical, GlobalSeed, TryPlace, TableOf;
    CanonicalOfStrict([e]);
    SinglePlaces(mix, Hashes([e]), GlobalSeed(0));
    assert BucketCount(1, 0) == 1;
    assert TryBuild(mix, [e], 1, GlobalSeed(0)).Some?;
  }
}
