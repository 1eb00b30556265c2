/** The model file: both frozen tables as sorted 12-byte records with a header and a checksum. */
module ModelFile {
  import opened Wrappers
  import opened Bits
  import opened Bytes
  import opened Entries
  import opened Chd
  import opened HashTable
  import opened TableMeaning
  import opened Routing

  /** Spells LOHALLOC in little-endian bytes. */
  const MAGIC: u64 := 0x434f_4c4c_4148_4f4c
  const VERSION: u32 := 4
  const HEADER_BYTES: nat := 20
  const RECORD_BYTES: nat := 12

  // ---- encoding --------------------------------------------------------------------------

  function Record(e: Entry): (r: seq<u8>)
    ensures |r| == RECORD_BYTES
  {
    Le(e.hash, 8) + [Code(e.backend), e.sizeClass, e.flags, 0]
  }

  function Records(es: seq<Entry>): (r: seq<seq<u8>>)
    ensures |r| == |es| && Uniform(r, RECORD_BYTES)
  {
    seq(|es|, i requires 0 <= i < |es| => Record(es[i]))
  }

  function XorAll(es: seq<Entry>): u64 {
    if es == [] then 0 else Xor64(XorAll(es[..|es| - 1]), es[|es| - 1].hash)
  }

  /** Counts are written in 32 bits. */
  function FileHeader(n: nat, k: nat): (r: seq<u8>)
    ensures |r| == HEADER_BYTES
  {
    Le(MAGIC, 8) + Le(VERSION, 4) + Le(n % TWO32, 4) + Le(k % TWO32, 4)
  }

  function Encode(main: seq<Entry>, distilled: seq<Entry>): seq<u8> {
    FileHeader(|main|, |distilled|) + Flatten(Records(main + distilled)) + Le(XorAll(main + distilled), 8)
  }

  function Serialize(r: FrozenRouting): seq<u8>
    requires WellSized(r.main) && WellSized(r.distilled)
  {
    Encode(EntriesFlagged(r.main), EntriesFlagged(r.distilled))
  }

  /** Append one section's records, folding its hashes into the checksum. */
  method EncodeSection(es: seq<Entry>, ghost before: seq<Entry>, header: seq<u8>, buf: seq<u8>, checksum: u64)
    returns (buf': seq<u8>, checksum': u64)
    requires buf == header + Flatten(Records(before)) && checksum == XorAll(before)
    ensures buf' == header + Flatten(Records(before + es)) && checksum' == XorAll(before + es)
  {
    hide Flatten, XorAll, Xor64, Records, Record;
    buf', checksum' := buf, checksum;
    assert before + es[..0] == before;
    for i := 0 to |es|
      invariant buf' == header + Flatten(Records(before + es[..i])) && checksum' == XorAll(before + es[..i])
    {
      assert before + es[..i + 1] == before + es[..i] + [es[i]];
      OneMore(before + es[..i], es[i]);
      buf' := buf' + Record(es[i]);
      checksum' := Xor64(checksum', es[i].hash);
    }
    assert es[..|es|] == es;
  }

  lemma OneMore(es: seq<Entry>, e: Entry)
    ensures Flatten(Records(es + [e])) == Flatten(Records(es)) + Record(e)
    ensures XorAll(es + [e]) == Xor64(XorAll(es), e.hash)
  {
    hide Record, Xor64;
    assert Records(es + [e])[..|es|] == Records(es);
    assert (es + [e])[..|es|] == es;
  }

  method SerializeLoop(r: FrozenRouting) returns (buf: seq<u8>)
    requires WellSized(r.main) && WellSized(r.distilled)
    ensures buf == Serialize(r)
  {
    hide EntriesFlagged, Flatten, Records, XorAll, Le, Xor64;
    var main, distilled := EntriesFlagged(r.main), EntriesFlagged(r.distilled);
    var header := Le(MAGIC, 8) + Le(VERSION, 4) + Le(|main| % TWO32, 4) + Le(|distilled| % TWO32, 4);
    NothingWritten(header);
    var checksum: u64 := 0;
    buf, checksum := EncodeSection(main, [], header, header, checksum);
    buf, checksum := EncodeSection(distilled, [] + main, header, buf, checksum);
    assert [] + main + distilled == main + distilled;
    buf := buf + Le(checksum, 8);
  }

  lemma NothingWritten(header: seq<u8>)
    ensures header + Flatten(Records([])) == header && XorAll([]) == 0
  {
    assert Flatten(Records([])) == [];
  }

  // ---- decoding --------------------------------------------------------------------------

  /** The entry recorded at `pos`; None for an unknown backend or flags above six bits. */
  function ReadRecord(data: seq<u8>, pos: nat): Option<Entry>
    requires pos + RECORD_BYTES <= |data|
  {
    if data[pos + 8] > 3 || data[pos + 10] > 0x3F then None
    else Some(Entry(Read64(data, pos), BackendOf(data[pos + 8]), data[pos + 9], data[pos + 10]))
  }

  /** The first `count` records from `pos`. */
  function ReadRecords(data: seq<u8>, pos: nat, count: nat): (r: Option<seq<Entry>>)
    requires pos + count * RECORD_BYTES <= |data|
    ensures r.Some? ==> |r.value| == count
  {
    if count == 0 then Some([])
    else
      var rest := ReadRecords(data, pos, count - 1);
      var last := ReadRecord(data, pos + (count - 1) * RECORD_BYTES);
      if rest.None? || last.None? then None else Some(rest.value + [last.value])
  }

  /** Header and length checks: the two record counts. */
  function ReadCounts(data: seq<u8>): (r: Option<(nat, nat)>)
    ensures r.Some? ==> HEADER_BYTES + (r.value.0 + r.value.1) * RECORD_BYTES + 8 <= |data|
  {
    if |data| < 28 || Read64(data, 0) != MAGIC || Read32(data, 8) != VERSION then None
    else
      var n, k := Read32(data, 12), Read32(data, 16);
      if |data| < HEADER_BYTES + (n + k) * RECORD_BYTES + 8 then None else Some((n, k))
  }

  /** Both sections; bytes after the checksum are ignored. */
  function Decode(data: seq<u8>): Option<(seq<Entry>, seq<Entry>)> {
    var counts := ReadCounts(data);
    if counts.None? then None
    else
      var (n, k) := counts.value;
      var es := ReadRecords(data, HEADER_BYTES, n + k);
      if es.None? || XorAll(es.value) != Read64(data, HEADER_BYTES + (n + k) * RECORD_BYTES) then None
      else Some((es.value[..n], es.value[n..]))
  }

  /** `Panicked` stands for a hash construction that runs out of retries. */
  datatype Loaded = Rejected | Panicked | Loaded(routing: FrozenRouting)

  ghost function Rebuilt(mix: Mixer, main: seq<Entry>, distilled: seq<Entry>): Loaded {
    var m, d := FromEntries(mix, main), FromEntries(mix, distilled);
    if m.None? || d.None? then Panicked else Loaded(NewRouting(m.value, d.value))
  }

  ghost function Deserialize(mix: Mixer, data: seq<u8>): Loaded {
    match Decode(data) case None => Rejected case Some(es) => Rebuilt(mix, es.0, es.1)
  }

  /** One section, record by record, rejecting at the first bad one. */
  method DecodeSection(data: seq<u8>, count: nat, pos: nat, checksum: u64, ghost before: seq<Entry>)
    returns (es: Option<seq<Entry>>, pos': nat, checksum': u64)
    requires pos == HEADER_BYTES + |before| * RECORD_BYTES && pos + count * RECORD_BYTES + 8 <= |data|
    requires ReadRecords(data, HEADER_BYTES, |before|) == Some(before) && checksum == XorAll(before)
    ensures es.None? <==> ReadRecords(data, HEADER_BYTES, |before| + count).None?
    ensures es.Some? ==>
              && |es.value| == count && pos' == pos + count * RECORD_BYTES
              && ReadRecords(data, HEADER_BYTES, |before| + count) == Some(before + es.value)
              && checksum' == XorAll(before + es.value)
  {
    hide ReadRecord, ReadRecords, XorAll, Xor64;
    var entries: seq<Entry> := [];
    pos', checksum' := pos, checksum;
    assert before + entries == before;
    for i := 0 to count
      invariant |entries| == i && pos' == pos + i * RECORD_BYTES
      invariant ReadRecords(data, HEADER_BYTES, |before| + i) == Some(before + entries)
      invariant checksum' == XorAll(before + entries)
    {
      var e := ReadRecord(data, pos');
      NextRecord(data, |before| + i, before + entries);
      if e.None? {
        StaysBad(data, |before| + i + 1, |before| + count);
        return None, pos', checksum';
      }
      assert before + (entries + [e.value]) == before + entries + [e.value];
      entries := entries + [e.value];
      checksum' := Xor64(checksum', e.value.hash);
      pos' := pos' + RECORD_BYTES;
    }
    es := Some(entries);
  }

  lemma NextRecord(data: seq<u8>, n: nat, es: seq<Entry>)
    requires HEADER_BYTES + (n + 1) * RECORD_BYTES <= |data| && ReadRecords(data, HEADER_BYTES, n) == Some(es)
    ensures var e := ReadRecord(data, HEADER_BYTES + n * RECORD_BYTES);
      && (e.None? <==> ReadRecords(data, HEADER_BYTES, n + 1).None?)
      && (e.Some? ==> ReadRecords(data, HEADER_BYTES, n + 1) == Some(es + [e.value])
                      && XorAll(es + [e.value]) == Xor64(XorAll(es), e.value.hash))
  {
    hide ReadRecord, Xor64;
    var e := ReadRecord(data, HEADER_BYTES + n * RECORD_BYTES);
    if e.Some? { assert (es + [e.value])[..|es|] == es; }
  }

  lemma {:induction false} StaysBad(data: seq<u8>, a: nat, b: nat)
    requires a <= b && HEADER_BYTES + b * RECORD_BYTES <= |data| && ReadRecords(data, HEADER_BYTES, a).None?
    ensures ReadRecords(data, HEADER_BYTES, b).None?
  {
    if a < b { StaysBad(data, a, b - 1); }
  }

  /** Every read is in bounds, whatever the bytes. */
  method DecodeLoop(data: seq<u8>) returns (r: Option<(seq<Entry>, seq<Entry>)>)
    ensures r == Decode(data)
  {
    hide ReadRecords, XorAll;
    if |data| < 28 {
      return None;
    }
    var magic := Read64(data, 0);
    if magic != MAGIC {
      return None;
    }
    var version := Read32(data, 8);
    if version != VERSION {
      return None;
    }
    var n, k := Read32(data, 12), Read32(data, 16);
    var expected := HEADER_BYTES + (n + k) * RECORD_BYTES + 8;
    if |data| < expected {
      return None;
    }
    NothingRead(data);
    var main, pos, checksum := DecodeSection(data, n, HEADER_BYTES, 0, []);
    if main.None? {
      BadPrefix(data, n, n + k);
      return None;
    }
    assert [] + main.value == main.value;
    var distilled;
    distilled, pos, checksum := DecodeSection(data, k, pos, checksum, main.value);
    if distilled.None? || Read64(data, pos) != checksum {
      return None;
    }
    ghost var all := main.value + distilled.value;
    assert all[..n] == main.value && all[n..] == distilled.value;
    return Some((main.value, distilled.value));
  }

  lemma BadPrefix(data: seq<u8>, a: nat, b: nat)
    requires a <= b && HEADER_BYTES + b * RECORD_BYTES <= |data|
    ensures ReadRecords(data, HEADER_BYTES, a).None? ==> ReadRecords(data, HEADER_BYTES, b).None?
  {
    if ReadRecords(data, HEADER_BYTES, a).None? { StaysBad(data, a, b); }
  }

  lemma NothingRead(data: seq<u8>)
    requires |data| >= HEADER_BYTES
    ensures ReadRecords(data, HEADER_BYTES, 0) == Some([]) && XorAll([]) == 0
  {
  }

  // ---- round trip ------------------------------------------------------------------------

  lemma CodeRoundTrip(b: Backend)
    ensures Code(b) <= 3 && BackendOf(Code(b)) == b
  {
  }

  ghost predicate FlagsFit(es: seq<Entry>) {
    forall i :: 0 <= i < |es| ==> es[i].flags < 64
  }

  /** A record written between `left` and `right` reads back. */
  lemma RecordRead(left: seq<u8>, e: Entry, right: seq<u8>)
    requires e.flags < 64
    ensures ReadRecord(left + Record(e) + right, |left|) == Some(e)
  {
    Widths();
    FromLeOfLe(e.hash, 8);
    CodeRoundTrip(e.backend);
    hide Le, FromLe, Code, BackendOf;
    var data, at := left + Record(e) + right, |left|;
    assert data[at..at + 8] == Le(e.hash, 8);
    assert data[at + 8] == Record(e)[8] && data[at + 9] == Record(e)[9] && data[at + 10] == Record(e)[10];
  }

  lemma {:induction false} RecordsRead(head: seq<u8>, es: seq<Entry>, tail: seq<u8>)
    requires |head| == HEADER_BYTES && FlagsFit(es)
    ensures |Flatten(Records(es))| == |es| * RECORD_BYTES
    ensures ReadRecords(head + Flatten(Records(es)) + tail, HEADER_BYTES, |es|) == Some(es)
  {
    hide Flatten, Record, ReadRecord, Records;
    FlattenLength(Records(es), RECORD_BYTES);
    if es != [] {
      var front, e := es[..|es| - 1], es[|es| - 1];
      assert es == front + [e];
      OneMore(front, e);
      FlattenLength(Records(front), RECORD_BYTES);
      var body := Flatten(Records(front));
      RecordsRead(head, front, Record(e) + tail);
      RecordRead(head + body, e, tail);
      var data := head + (body + Record(e)) + tail;
      assert data == head + body + (Record(e) + tail);
      assert data == head + body + Record(e) + tail;
    }
  }

  lemma ReadBack64(left: seq<u8>, x: u64, right: seq<u8>)
    ensures Read64(left + Le(x, 8) + right, |left|) == x
  {
    hide Le, FromLe, Pow256;
    Widths();
    FromLeOfLe(x, 8);
    assert (left + Le(x, 8) + right)[|left|..|left| + 8] == Le(x, 8);
  }

  lemma ReadBack32(left: seq<u8>, x: u32, right: seq<u8>)
    ensures Read32(left + Le(x, 4) + right, |left|) == x
  {
    hide Le, FromLe, Pow256;
    Widths();
    FromLeOfLe(x, 4);
    assert (left + Le(x, 4) + right)[|left|..|left| + 4] == Le(x, 4);
  }

  lemma FourParts(a: seq<u8>, b: seq<u8>, c: seq<u8>, d: seq<u8>, rest: seq<u8>)
    ensures a + b + c + d + rest == [] + a + (b + c + d + rest)
    ensures a + b + c + d + rest == a + b + (c + d + rest)
    ensures a + b + c + d + rest == (a + b) + c + (d + rest)
    ensures a + b + c + d + rest == (a + b + c) + d + rest
  {
  }

  lemma HeaderRead(n: nat, k: nat, rest: seq<u8>)
    requires n < TWO32 && k < TWO32
    ensures var data := FileHeader(n, k) + rest;
      Read64(data, 0) == MAGIC && Read32(data, 8) == VERSION && Read32(data, 12) == n && Read32(data, 16) == k
  {
    hide Le, Read64, Read32;
    var a, b, c, d := Le(MAGIC, 8), Le(VERSION, 4), Le(n, 4), Le(k, 4);
    assert FileHeader(n, k) + rest == a + b + c + d + rest;
    FourParts(a, b, c, d, rest);
    ReadBack64([], MAGIC, b + c + d + rest);
    ReadBack32(a, VERSION, c + d + rest);
    ReadBack32(a + b, n, d + rest);
    ReadBack32(a + b + c, k, rest);
  }

  /** What is encoded decodes, with any bytes after it. */
  lemma DecodeOfEncode(main: seq<Entry>, distilled: seq<Entry>, after: seq<u8>)
    requires FlagsFit(main) && FlagsFit(distilled) && |main| < TWO32 && |distilled| < TWO32
    ensures Decode(Encode(main, distilled) + after) == Some((main, distilled))
  {
    hide Flatten, Records, Le, FromLe, XorAll, ReadRecords, FileHeader, Read64, Read32;
    var es, n, k := main + distilled, |main|, |distilled|;
    var head, body, sum := FileHeader(n, k), Flatten(Records(es)), Le(XorAll(es), 8);
    var data := Encode(main, distilled) + after;
    assert data == head + body + sum + after;
    assert FlagsFit(es);
    RecordsRead(head, es, sum + after);
    assert data == head + body + (sum + after);
    HeaderRead(n, k, body + sum + after);
    assert data == head + (body + sum + after);
    ReadBack64(head + body, XorAll(es), after);
    assert |head + body| == HEADER_BYTES + (n + k) * RECORD_BYTES;
    assert ReadCounts(data) == Some((n, k));
    assert es[..n] == main && es[n..] == distilled;
  }

  // ---- the other way round ---------------------------------------------------------------

  /** Every record leaves its last byte zero, as the writer does. */
  ghost predicate ReservedZero(data: seq<u8>, n: nat)
    requires 20 + 12 * n <= |data|
  {
    forall i: nat :: i < n ==> data[20 + 12 * i + 11] == 0
  }

  lemma RecordBack(data: seq<u8>, pos: nat)
    requires pos + RECORD_BYTES <= |data| && ReadRecord(data, pos).Some?
    ensures Record(ReadRecord(data, pos).value) == data[pos..pos + RECORD_BYTES] <==> data[pos + 11] == 0
  {
    LeOfFromLe(data[pos..pos + 8]);
    CodeOfBack(data[pos + 8]);
    hide Le, FromLe, Code, BackendOf;
    var r, window := Record(ReadRecord(data, pos).value), data[pos..pos + RECORD_BYTES];
    assert r[..8] == window[..8];
    assert r == r[..8] + [r[8], r[9], r[10], r[11]];
    assert window == window[..8] + [window[8], window[9], window[10], window[11]];
  }

  lemma CodeOfBack(b: u8)
    requires b <= 3
    ensures Code(BackendOf(b)) == b
  {
  }

  lemma {:induction false} RecordsBack(data: seq<u8>, n: nat)
    requires 20 + 12 * n <= |data| && ReadRecords(data, 20, n).Some?
    ensures |Flatten(Records(ReadRecords(data, 20, n).value))| == 12 * n
    ensures Flatten(Records(ReadRecords(data, 20, n).value)) == data[20..20 + 12 * n] <==> ReservedZero(data, n)
  {
    hide Record, ReadRecord, Flatten, Records;
    FlattenLength(Records(ReadRecords(data, 20, n).value), RECORD_BYTES);
    if n > 0 {
      var at := 20 + 12 * (n - 1);
      var front, e := ReadRecords(data, 20, n - 1).value, ReadRecord(data, at).value;
      RecordsBack(data, n - 1);
      RecordBack(data, at);
      OneMore(front, e);
      LastReserved(data, n);
      SplitEqual(Flatten(Records(front)), Record(e), data[20..at], data[at..at + 12]);
      assert data[20..20 + 12 * n] == data[20..at] + data[at..at + 12];
    } else {
      LastReserved(data, n);
      assert Flatten(Records(ReadRecords(data, 20, n).value)) == [] == data[20..20];
    }
  }

  lemma LastReserved(data: seq<u8>, n: nat)
    requires 20 + 12 * n <= |data|
    ensures n == 0 ==> ReservedZero(data, n)
    ensures n > 0 ==> (ReservedZero(data, n) <==> ReservedZero(data, n - 1) && data[20 + 12 * (n - 1) + 11] == 0)
  {
  }

  lemma SplitEqual<T>(a: seq<T>, b: seq<T>, c: seq<T>, d: seq<T>)
    requires |a| == |c|
    ensures a + b == c + d <==> a == c && b == d
  {
    if a + b == c + d {
      assert a == (a + b)[..|a|] && b == (a + b)[|a|..];
      assert c == (c + d)[..|a|] && d == (c + d)[|a|..];
    }
  }

  lemma WordBack(data: seq<u8>, off: nat)
    ensures off + 8 <= |data| ==> Le(Read64(data, off), 8) == data[off..off + 8]
    ensures off + 4 <= |data| ==> Le(Read32(data, off), 4) == data[off..off + 4]
  {
    if off + 8 <= |data| { LeOfFromLe(data[off..off + 8]); }
    if off + 4 <= |data| { LeOfFromLe(data[off..off + 4]); }
    hide Le, FromLe;
  }

  lemma CutFour(data: seq<u8>)
    requires |data| >= 20
    ensures data[..20] == data[0..8] + data[8..12] + data[12..16] + data[16..20]
  {
  }

  lemma HeaderBack(data: seq<u8>)
    requires ReadCounts(data).Some?
    ensures FileHeader(ReadCounts(data).value.0, ReadCounts(data).value.1) == data[..20]
    ensures ReadCounts(data).value.0 < TWO32 && ReadCounts(data).value.1 < TWO32
  {
    hide Le, Read64, Read32;
    WordBack(data, 0);
    WordBack(data, 8);
    WordBack(data, 12);
    WordBack(data, 16);
    CutFour(data);
  }

  lemma ThreeParts(a: seq<u8>, b: seq<u8>, c: seq<u8>, data: seq<u8>, end: nat)
    requires |a| == 20 && |a + b| == end && |c| == 8 && end + 8 <= |data|
    requires a == data[..20] && c == data[end..end + 8]
    ensures a + b + c == data[..end + 8] <==> b == data[20..end]
  {
    assert data[..end + 8] == data[..20] + data[20..end] + data[end..end + 8];
    SplitEqual(a + b, c, data[..20] + data[20..end], data[end..end + 8]);
    SplitEqual(a, b, data[..20], data[20..end]);
  }

  /** Encoding what was decoded gives the file back, up to its trailing bytes, exactly when the
      records' reserved bytes are zero, which the reader does not check. */
  lemma EncodeOfDecode(data: seq<u8>)
    requires Decode(data).Some?
    ensures var (main, distilled) := Decode(data).value;
      var n := |main| + |distilled|;
      && 28 + 12 * n <= |data|
      && (Encode(main, distilled) == data[..28 + 12 * n] <==> ReservedZero(data, n))
  {
    hide Flatten, Records, Le, XorAll, ReadRecords, FileHeader, ReservedZero, ReadCounts, Read64;
    var (n, k) := ReadCounts(data).value;
    var es, end := ReadRecords(data, 20, n + k).value, 20 + 12 * (n + k);
    WordBack(data, end);
    HeaderBack(data);
    RecordsBack(data, n + k);
    assert es[..n] + es[n..] == es;
    ThreeParts(FileHeader(n, k), Flatten(Records(es)), Le(XorAll(es), 8), data, end);
  }

  lemma ListingFits(mix: Mixer, es: seq<Entry>)
    requires FromEntries(mix, es).Some?
    ensures FlagsFit(EntriesFlagged(FromEntries(mix, es).value))
  {
    ListingMeaning(mix, es);
    hide Canonical, FromEntries, EntriesFlagged;
    MaskFits(Canonical(es));
  }

  lemma MaskFits(es: seq<Entry>)
    ensures FlagsFit(Masked(es))
  {
  }

  ghost function Plane(mix: Mixer, main: seq<Entry>, distilled: seq<Entry>): FrozenRouting
    requires FromEntries(mix, main).Some? && FromEntries(mix, distilled).Some?
  {
    NewRouting(FromEntries(mix, main).value, FromEntries(mix, distilled).value)
  }

  /** Loading what was saved gives back the very same plane: both tables byte for byte, hence every
      lookup and flag, the size-class verdicts, and the history gate. Bytes after the file are
      ignored. */
  lemma RoundTrip(mix: Mixer, main: seq<Entry>, distilled: seq<Entry>, after: seq<u8>)
    requires FromEntries(mix, main).Some? && FromEntries(mix, distilled).Some?
    requires FromEntries(mix, main).value.numSlots < TWO32 && FromEntries(mix, distilled).value.numSlots < TWO32
    ensures var r := Plane(mix, main, distilled);
      Deserialize(mix, Serialize(r) + after) == Loaded(r)
  {
    var m, d := FromEntries(mix, main).value, FromEntries(mix, distilled).value;
    ListingFits(mix, main);
    ListingFits(mix, distilled);
    RebuildSame(mix, main);
    RebuildSame(mix, distilled);
    ListingLength(m);
    ListingLength(d);
    hide FromEntries, EntriesFlagged, Encode, Decode, NewRouting;
    DecodeOfEncode(EntriesFlagged(m), EntriesFlagged(d), after);
    PlaneTables(m, d);
  }

  lemma PlaneTables(m: Table, d: Table)
    requires WellSized(m) && WellSized(d)
    ensures NewRouting(m, d).main == m && NewRouting(m, d).distilled == d
  {
  }

  lemma {:induction false} SortLength(es: seq<Entry>)
    ensures |SortByHash(es)| == |es|
  {
    if es != [] {
      SortLength(es[..|es| - 1]);
      InsertLength(SortByHash(es[..|es| - 1]), es[|es| - 1]);
    }
  }

  lemma {:induction false} InsertLength(es: seq<Entry>, e: Entry)
    ensures |InsertLast(es, e)| == |es| + 1
  {
    if es != [] && es[|es| - 1].hash > e.hash { InsertLength(es[..|es| - 1], e); }
  }

  lemma ListingLength(t: Table)
    requires WellSized(t)
    ensures |EntriesFlagged(t)| == t.numSlots
  {
    SortLength(SlotList(t));
  }

  /** Whatever loads is stable: saving it and loading again changes nothing. */
  lemma LoadedStable(mix: Mixer, data: seq<u8>)
    requires Deserialize(mix, data).Loaded?
    ensures var r := Deserialize(mix, data).routing;
      WellSized(r.main) && WellSized(r.distilled) && Deserialize(mix, Serialize(r)) == Loaded(r)
  {
    hide FromEntries, Decode, Serialize, NewRouting, WellSized;
    CountsBounded(data);
    BuiltStable(mix, Decode(data).value.0, Decode(data).value.1);
  }

  lemma BuiltStable(mix: Mixer, main: seq<Entry>, distilled: seq<Entry>)
    requires FromEntries(mix, main).Some? && FromEntries(mix, distilled).Some?
    requires |main| < TWO32 && |distilled| < TWO32
    ensures var r := Plane(mix, main, distilled);
      WellSized(r.main) && WellSized(r.distilled) && Deserialize(mix, Serialize(r)) == Loaded(r)
  {
    TableSize(mix, main);
    TableSize(mix, distilled);
    hide FromEntries, Deserialize, Serialize, NewRouting;
    PlaneTables(FromEntries(mix, main).value, FromEntries(mix, distilled).value);
    RoundTrip(mix, main, distilled, []);
    var bytes := Serialize(Plane(mix, main, distilled));
    assert bytes + [] == bytes;
  }

  lemma CountsBounded(data: seq<u8>)
    requires Decode(data).Some?
    ensures |Decode(data).value.0| < TWO32 && |Decode(data).value.1| < TWO32
  {
    hide ReadRecords, XorAll, Read32, Read64;
  }

  lemma TableSize(mix: Mixer, es: seq<Entry>)
    requires FromEntries(mix, es).Some?
    ensures FromEntries(mix, es).value.numSlots <= |es|
  {
    ListingMeaning(mix, es);
    ListingLength(FromEntries(mix, es).value);
    SortLength(es);
    DedupLength(SortByHash(es));
  }

  lemma {:induction false} DedupLength(es: seq<Entry>)
    ensures |DedupLast(es)| <= |es|
  {
    if es != [] { DedupLength(es[..|es| - 1]); }
  }

  /** The file depends only on what each hash finally maps to, not on the order of the input. */
  lemma FileOrderIndependent(mix: Mixer, a: seq<Entry>, b: seq<Entry>, da: seq<Entry>, db: seq<Entry>)
    requires forall h :: LastWins(a, h) == LastWins(b, h)
    requires forall h :: LastWins(da, h) == LastWins(db, h)
    requires FromEntries(mix, a).Some? && FromEntries(mix, da).Some?
    ensures FromEntries(mix, b).Some? && FromEntries(mix, db).Some?
    ensures Serialize(Plane(mix, a, da)) == Serialize(Plane(mix, b, db))
  {
    OrderIndependent(mix, a, b);
    OrderIndependent(mix, da, db);
    hide FromEntries, LastWins, Serialize, NewRouting;
  }

  ghost predicate GoodRecords(data: seq<u8>, n: nat)
    requires 20 + 12 * n <= |data|
  {
    forall i: nat :: i < n ==> data[20 + 12 * i + 8] <= 3 && data[20 + 12 * i + 10] < 64
  }

  /** Acceptance, exactly: magic, version, enough bytes for the counted records, no bad record, and
      the stored checksum is the xor of every hash. */
  lemma AcceptedIff(data: seq<u8>)
    ensures |data| < 28 ==> Decode(data).None?
    ensures |data| >= 28 ==>
      var n := Read32(data, 12) + Read32(data, 16);
      (Decode(data).Some? <==>
        && Read64(data, 0) == MAGIC && Read32(data, 8) == VERSION && |data| >= 28 + 12 * n
        && GoodRecords(data, n) && Read64(data, 20 + 12 * n) == XorHashes(data, n))
  {
    hide ReadRecords, XorAll, XorHashes, Read64, Read32, GoodRecords;
    var counts := ReadCounts(data);
    if counts.Some? {
      ReadIff(data, counts.value.0 + counts.value.1);
    }
  }

  /** The xor of the first `n` stored hashes, straight from the bytes. */
  function XorHashes(data: seq<u8>, n: nat): u64
    requires 20 + 12 * n <= |data|
  {
    if n == 0 then 0 else Xor64(XorHashes(data, n - 1), Read64(data, 20 + 12 * (n - 1)))
  }

  lemma {:induction false} ReadIff(data: seq<u8>, n: nat)
    requires 20 + 12 * n <= |data|
    ensures ReadRecords(data, 20, n).Some? <==> GoodRecords(data, n)
    ensures ReadRecords(data, 20, n).Some? ==> XorAll(ReadRecords(data, 20, n).value) == XorHashes(data, n)
  {
    hide Read64, Xor64, GoodRecords, ReadRecord;
    if n > 0 {
      ReadIff(data, n - 1);
      GoodStep(data, n);
      var r := ReadRecords(data, 20, n);
      if r.Some? { assert r.value[..n - 1] == ReadRecords(data, 20, n - 1).value; }
    } else {
      GoodStart(data);
    }
  }

  lemma GoodStart(data: seq<u8>)
    requires 20 <= |data|
    ensures GoodRecords(data, 0)
  {
  }

  /** The last record reads exactly when its backend and flag bytes are in range, as its hash. */
  lemma GoodStep(data: seq<u8>, n: nat)
    requires n > 0 && 20 + 12 * n <= |data|
    ensures var e := ReadRecord(data, 20 + 12 * (n - 1));
      && (GoodRecords(data, n) <==> GoodRecords(data, n - 1) && e.Some?)
      && (e.Some? ==> e.value.hash == Read64(data, 20 + 12 * (n - 1)))
  {
    hide Read64, BackendOf;
    var at := 20 + 12 * (n - 1);
    assert data[at + 8] == data[20 + 12 * (n - 1) + 8] && data[at + 10] == data[20 + 12 * (n - 1) + 10];
  }
}
