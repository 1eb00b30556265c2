/** The frozen decision plane: main and distilled tables, the unanimous-size-class shortcut derived
    from them, and the routing order each allocation follows. */
module Routing {
  import opened Wrappers
  import opened Bits
  import opened Bytes
  import opened Entries
  import opened Chd
  import opened HashTable
  import opened TableMeaning

  const SC_VERDICT_LEN: nat := 16
  const FLAG_HAS_CONTEXT: nat := 1
  const FLAG_DEEP_CONTEXT: nat := 2
  const SLAB_MAX: nat := 16384
  const BUDDY_MAX: nat := 0x10_0000
  const HEADER_SIZE: nat := 48

  // ---- keys and size classes -------------------------------------------------------------

  function Rotate(x: u64, low: nat, high: nat): u64
    requires low > 0 && high > 0
  {
    (x * low % TWO64 + x / high) % TWO64
  }

  /** `hash ^ (class * K1).rotate_left(17)`. */
  function SiteKey(hash: u64, sizeClass: u8): u64 {
    Xor64(hash, Rotate(sizeClass * 0x9E37_79B9_7F4A_7C15 % TWO64, 0x2_0000, 0x8000_0000_0000))
  }

  /** `key ^ ((ctx + 1) * K2).rotate_left(23)`. */
  function ContextKey(key: u64, ctx: u8): u64 {
    Xor64(key, Rotate((ctx + 1) * 0xD6E8_FEB8_6659_FD93 % TWO64, 0x80_0000, 0x200_0000_0000))
  }

  function DeepKey(key: u64, ctx: u8): u64 {
    ContextKey(Xor64(key, 0xA5A5_5A5A_C33C_3CC3), ctx)
  }

  /** Power-of-two slab classes 0..=11, two Buddy buckets, one System bucket. */
  function SizeClassFor(size: nat): (c: u8)
    ensures c <= 14
  {
    if size <= SLAB_MAX then SlabClass(size, 0, 8)
    else if size <= 65536 then 12
    else if size <= BUDDY_MAX then 13
    else 14
  }

  /** The first class from `c` up whose blocks of `width` bytes hold the request. */
  function SlabClass(size: nat, c: nat, width: nat): (r: u8)
    requires c <= 11
    ensures r <= 11
    decreases 11 - c
  {
    if size <= width || c == 11 then c else SlabClass(size, c + 1, 2 * width)
  }

  function DefaultBackend(sizeClass: nat): Backend {
    if sizeClass <= 11 then Slab else if sizeClass <= 13 then Buddy else System
  }

  /** Classifies the request with its header added. */
  function DefaultForSize(size: nat): Backend {
    DefaultBackend(SizeClassFor(size + HEADER_SIZE))
  }

  // ---- the frozen plane ------------------------------------------------------------------

  datatype FrozenRouting = FrozenRouting(main: Table, distilled: Table, scVerdict: seq<Option<Backend>>,
      ahrNeeded: bool)

  ghost predicate AgreesOn(list: seq<Entry>, c: nat, b: Backend) {
    forall i :: 0 <= i < |list| && list[i].sizeClass == c ==> list[i].flags == 0 && list[i].backend == b
  }

  ghost predicate Occurs(list: seq<Entry>, c: nat) {
    exists i :: 0 <= i < |list| && list[i].sizeClass == c
  }

  /** The class's default, when some entry has the class and every such entry is unflagged and
      routes to that default. */
  ghost function ScVerdict(list: seq<Entry>, c: nat): Option<Backend> {
    if Occurs(list, c) && AgreesOn(list, c, DefaultBackend(c)) then Some(DefaultBackend(c)) else None
  }

  ghost function ScVerdicts(list: seq<Entry>): (r: seq<Option<Backend>>)
    ensures |r| == SC_VERDICT_LEN
  {
    seq(SC_VERDICT_LEN, c requires 0 <= c < SC_VERDICT_LEN => ScVerdict(list, c))
  }

  function AnyFlag(list: seq<Entry>): bool {
    exists i :: 0 <= i < |list| && list[i].flags != 0
  }

  ghost function NewRouting(main: Table, distilled: Table): FrozenRouting
    requires WellSized(main) && WellSized(distilled)
  {
    FrozenRouting(main, distilled, ScVerdicts(EntriesFlagged(main) + EntriesFlagged(distilled)),
        AnyFlag(EntriesFlagged(main)))
  }

  /** The scan's state for one class: the backend seen on unflagged entries, whether a flag or a
      second backend was seen, whether the class was seen at all. */
  ghost predicate Scanned(list: seq<Entry>, c: nat, agreed: Option<Backend>, conflict: bool, seen: bool) {
    && (seen <==> Occurs(list, c))
    && (agreed.Some? ==> seen)
    && (!conflict && seen ==> agreed.Some? && AgreesOn(list, c, agreed.value))
    && (conflict ==> seen && forall b :: !AgreesOn(list, c, b))
    && (agreed.Some? ==> forall b :: AgreesOn(list, c, b) ==> b == agreed.value)
  }

  lemma ScanStep(list: seq<Entry>, e: Entry, c: nat, agreed: Option<Backend>, conflict: bool, seen: bool)
    requires Scanned(list, c, agreed, conflict, seen)
    ensures e.sizeClass != c ==> Scanned(list + [e], c, agreed, conflict, seen)
    ensures e.sizeClass == c && e.flags != 0 ==> Scanned(list + [e], c, agreed, true, true)
    ensures e.sizeClass == c && e.flags == 0 && agreed.None? ==> Scanned(list + [e], c, Some(e.backend), conflict, true)
    ensures e.sizeClass == c && e.flags == 0 && agreed.Some? ==>
              Scanned(list + [e], c, agreed, conflict || agreed.value != e.backend, true)
  {
    var longer, n := list + [e], |list|;
    assert longer[n] == e && forall i :: 0 <= i < n ==> longer[i] == list[i];
    assert e.sizeClass == c ==> Occurs(longer, c);
    forall b ensures AgreesOn(longer, c, b) <==> AgreesOn(list, c, b) && (e.sizeClass == c ==>
        e.flags == 0 && e.backend == b) {}
    assert Occurs(list, c) ==> Occurs(longer, c) by {
      if Occurs(list, c) {
        var i :| 0 <= i < n && list[i].sizeClass == c;
        assert longer[i].sizeClass == c;
      }
    }
  }

  /** The single pass over both listings. */
  method ComputeScVerdict(list: seq<Entry>) returns (out: seq<Option<Backend>>)
    ensures out == ScVerdicts(list)
  {
    hide Scanned, ScVerdict, Occurs, AgreesOn, DefaultBackend;
    var agreed := new Option<Backend>[SC_VERDICT_LEN](c => None);
    var conflict := new bool[SC_VERDICT_LEN](c => false);
    var seen := new bool[SC_VERDICT_LEN](c => false);
    forall c: nat ensures Scanned([], c, None, false, false) { NothingScanned(c); }
    for k := 0 to |list|
      invariant forall c :: 0 <= c < SC_VERDICT_LEN ==> Scanned(list[..k], c, agreed[c], conflict[c], seen[c])
    {
      forall c | 0 <= c < SC_VERDICT_LEN { ScanStep(list[..k], list[k], c, agreed[c], conflict[c], seen[c]); }
      assert list[..k + 1] == list[..k] + [list[k]];
      var i := list[k].sizeClass;
      if i < SC_VERDICT_LEN {
        seen[i] := true;
        if list[k].flags != 0 {
          conflict[i] := true;
        } else if agreed[i].None? {
          agreed[i] := Some(list[k].backend);
        } else if agreed[i].value != list[k].backend {
          conflict[i] := true;
        }
      }
    }
    assert list[..|list|] == list;
    out := seq(SC_VERDICT_LEN, c => None);
    for i := 0 to SC_VERDICT_LEN
      invariant |out| == SC_VERDICT_LEN
      invariant forall c :: 0 <= c < SC_VERDICT_LEN ==> Scanned(list, c, agreed[c], conflict[c], seen[c])
      invariant forall c :: 0 <= c < i ==> out[c] == ScVerdict(list, c)
      invariant forall c :: i <= c < SC_VERDICT_LEN ==> out[c] == None
    {
      ScanResult(list, i, agreed[i], conflict[i], seen[i]);
      if seen[i] && !conflict[i] && agreed[i] == Some(DefaultBackend(i)) {
        out := out[i := agreed[i]];
      }
    }
  }

  lemma NothingScanned(c: nat)
    ensures Scanned([], c, None, false, false)
  {
  }

  lemma ScanResult(list: seq<Entry>, c: nat, agreed: Option<Backend>, conflict: bool, seen: bool)
    requires Scanned(list, c, agreed, conflict, seen)
    ensures ScVerdict(list, c) == if seen && !conflict && agreed == Some(DefaultBackend(c)) then agreed else None
  {
  }

  // ---- routing ---------------------------------------------------------------------------

  /** Bit tests on a flag byte. */
  function HasContext(flags: nat): bool { flags / FLAG_HAS_CONTEXT % 2 == 1 }
  function HasDeep(flags: nat): bool { flags / FLAG_DEEP_CONTEXT % 2 == 1 }

  /** The main-table probe: coarse first, and a flagged entry's fine sibling when history is kept. */
  function RouteMain(mix: Mixer, main: Table, key: u64, ctx: Option<(u8, u8)>): Option<Backend>
    requires WellSized(main)
  {
    match LookupWithFlags(mix, main, key)
    case None => None
    case Some(hit) =>
      var fine :=
        if ctx.None? then None
        else if HasContext(hit.1) then Lookup(mix, main, ContextKey(key, ctx.value.0))
        else if HasDeep(hit.1) then Lookup(mix, main, DeepKey(key, ctx.value.1))
        else None;
      if fine.Some? then fine else Some(hit.0)
  }

  /** What the walk of the full path settles on. */
  function FullRoute(mix: Mixer, main: Table, key: u64, ctx: Option<(u8, u8)>, size: nat): Backend
    requires WellSized(main)
  {
    match RouteMain(mix, main, key, ctx) case Some(b) => b case None => DefaultForSize(size)
  }

  /** The backends actually tried, in order: the routed one when its size guard holds, then the size
      chain without it. */
  function Tried(first: Backend, total: nat): seq<Backend> {
    (if Fits(first, total) then [first] else [])
    + (if total <= SLAB_MAX && first != Slab then [Slab] else [])
    + (if total <= BUDDY_MAX && first != Buddy then [Buddy] else [])
    + [System]
  }

  /** The backend that serves the request, given which ones can. */
  function Served(tried: seq<Backend>, can: Backend -> bool): Option<Backend> {
    if tried == [] then None else if can(tried[0]) then Some(tried[0]) else Served(tried[1..], can)
  }

  predicate Fits(b: Backend, total: nat) {
    match b case Slab => total <= SLAB_MAX case Buddy => total <= BUDDY_MAX case _ => true
  }

  /** The route read off the entries themselves: a flagged key defers to its fine sibling under the
      current history, if that sibling was given, and otherwise keeps its own verdict. */
  ghost function EntryRoute(es: seq<Entry>, key: u64, ctx: Option<(u8, u8)>): Option<Backend> {
    match LastWins(es, key)
    case None => None
    case Some(e) =>
      var sibling :=
        if ctx.None? then None
        else if HasContext(e.flags) then LastWins(es, ContextKey(key, ctx.value.0))
        else if HasDeep(e.flags) then LastWins(es, DeepKey(key, ctx.value.1))
        else None;
      if sibling.Some? then Some(sibling.value.backend) else Some(e.backend)
  }

  lemma FlagBits(flags: u8)
    ensures HasContext(flags % 64) == HasContext(flags) && HasDeep(flags % 64) == HasDeep(flags)
  {
    var f: nat := flags;
    assert f == f / 64 * 64 + f % 64;
  }

  /** Routing over the packed table is routing over the entries it was built from. */
  lemma RouteMeaning(mix: Mixer, es: seq<Entry>, key: u64, ctx: Option<(u8, u8)>)
    requires FromEntries(mix, es).Some?
    ensures RouteMain(mix, FromEntries(mix, es).value, key, ctx) == EntryRoute(es, key, ctx)
  {
    LookupMeaning(mix, es, key);
    if ctx.Some? {
      LookupMeaning(mix, es, ContextKey(key, ctx.value.0));
      LookupMeaning(mix, es, DeepKey(key, ctx.value.1));
    }
    if LastWins(es, key).Some? { FlagBits(LastWins(es, key).value.flags); }
    hide FromEntries, LookupWithFlags, LastWins, ContextKey, DeepKey, HasContext, HasDeep;
  }

  // ---- the shortcut is outcome-preserving ------------------------------------------------

  /** A key stored at a unanimous class in either table answers with the class's verdict. */
  lemma ListedAgrees(list: seq<Entry>, c: nat, e: Entry)
    requires ScVerdict(list, c).Some? && e in list && e.sizeClass == c
    ensures e.flags == 0 && Some(e.backend) == ScVerdict(list, c)
  {
    var i :| 0 <= i < |list| && list[i] == e;
    assert list[i].sizeClass == c;
  }

  lemma ListingHas(mix: Mixer, es: seq<Entry>, h: u64)
    requires FromEntries(mix, es).Some? && LastWins(es, h).Some?
    ensures Mask(LastWins(es, h).value) in EntriesFlagged(FromEntries(mix, es).value)
  {
    ListingMeaning(mix, es);
    CanonicalMeaning(es, h);
    LastWinsMember(Canonical(es), h);
    hide Canonical, EntriesFlagged, FromEntries, LastWins, Mask;
    var i :| 0 <= i < |Canonical(es)| && Canonical(es)[i] == LastWins(es, h).value;
    assert Masked(Canonical(es))[i] == Mask(LastWins(es, h).value);
  }

  /** The hash is a key, stored at size class `c`. */
  ghost predicate StoredAt(es: seq<Entry>, h: u64, c: nat) {
    LastWins(es, h).Some? && LastWins(es, h).value.sizeClass == c
  }

  /** An unflagged hit settles the route, whatever the history. */
  lemma UnflaggedRoute(mix: Mixer, main: Table, h: u64, ctx: Option<(u8, u8)>, b: Backend)
    requires WellSized(main) && LookupWithFlags(mix, main, h) == Some((b, 0))
    ensures RouteMain(mix, main, h, ctx) == Some(b) == Lookup(mix, main, h)
  {
    hide LookupWithFlags, ContextKey, DeepKey;
  }

  lemma StoredVerdict(mix: Mixer, es: seq<Entry>, list: seq<Entry>, h: u64, c: nat)
    requires FromEntries(mix, es).Some? && StoredAt(es, h, c) && ScVerdict(list, c).Some?
    requires forall e :: e in EntriesFlagged(FromEntries(mix, es).value) ==> e in list
    ensures LookupWithFlags(mix, FromEntries(mix, es).value, h) == Some((ScVerdict(list, c).value, 0))
  {
    hide FromEntries, EntriesFlagged, LookupWithFlags, ScVerdict, LastWins;
    LookupMeaning(mix, es, h);
    ListingHas(mix, es, h);
    ListedAgrees(list, c, Mask(LastWins(es, h).value));
  }

  /** A class with a verdict routes every key stored at that class, in either table and under every
      history context, to the verdict. */
  lemma ShortcutAgrees(mix: Mixer, es: seq<Entry>, ds: seq<Entry>, h: u64, ctx: Option<(u8, u8)>)
    requires FromEntries(mix, es).Some? && FromEntries(mix, ds).Some?
    ensures var (main, distilled) := (FromEntries(mix, es).value, FromEntries(mix, ds).value);
      var verdict := NewRouting(main, distilled).scVerdict;
      && (forall c: nat :: c < SC_VERDICT_LEN && verdict[c].Some? && StoredAt(es, h, c) ==>
            RouteMain(mix, main, h, ctx) == verdict[c])
      && (forall c: nat :: c < SC_VERDICT_LEN && verdict[c].Some? && StoredAt(ds, h, c) ==>
            Lookup(mix, distilled, h) == verdict[c])
  {
    var main, distilled := FromEntries(mix, es).value, FromEntries(mix, ds).value;
    var list := EntriesFlagged(main) + EntriesFlagged(distilled);
    hide FromEntries, EntriesFlagged, LookupWithFlags, ScVerdict, StoredAt, RouteMain, Lookup;
    forall c: nat | c < SC_VERDICT_LEN && ScVerdict(list, c).Some? && StoredAt(es, h, c)
      ensures RouteMain(mix, main, h, ctx) == ScVerdict(list, c)
    {
      StoredVerdict(mix, es, list, h, c);
      UnflaggedRoute(mix, main, h, ctx, ScVerdict(list, c).value);
    }
    forall c: nat | c < SC_VERDICT_LEN && ScVerdict(list, c).Some? && StoredAt(ds, h, c)
      ensures Lookup(mix, distilled, h) == ScVerdict(list, c)
    {
      StoredVerdict(mix, ds, list, h, c);
      UnflaggedRoute(mix, distilled, h, ctx, ScVerdict(list, c).value);
    }
  }

  /** The header pushes the request over a class boundary that changes the default. */
  predicate Straddles(size: nat) {
    SLAB_MAX - HEADER_SIZE < size <= SLAB_MAX || BUDDY_MAX - HEADER_SIZE < size <= BUDDY_MAX
  }

  /** An unknown key's full path agrees with the shortcut exactly off the header boundary: the miss
      classifies the size with the header, the shortcut without. */
  lemma UnknownKeyAgrees(mix: Mixer, main: Table, key: u64, ctx: Option<(u8, u8)>, size: nat)
    requires WellSized(main) && LookupWithFlags(mix, main, key).None?
    ensures FullRoute(mix, main, key, ctx, size) == DefaultBackend(SizeClassFor(size)) <==> !Straddles(size)
  {
    hide LookupWithFlags, SlabClass;
  }

  /** At the boundary the two disagree: 16384 bytes are Slab's by class, Buddy's with a header. */
  lemma StraddleWitness()
    ensures DefaultBackend(SizeClassFor(16384)) == Slab && DefaultForSize(16384) == Buddy
  {
    hide SlabClass;
  }

  /** Yet the same backend serves: the routed one's size guard fails, and the size chain starts
      where the other would have. */
  lemma StraddleServesSame(size: nat, pad: nat, can: Backend -> bool)
    requires pad >= HEADER_SIZE && Straddles(size)
    ensures Served(Tried(DefaultBackend(SizeClassFor(size)), size + pad), can)
            == Served(Tried(DefaultForSize(size), size + pad), can)
  {
    hide SlabClass;
    var total := size + pad;
    if size <= SLAB_MAX {
      assert Tried(Slab, total) == Tried(Buddy, total);
    } else {
      assert Tried(Buddy, total) == [System] && Tried(System, total) == [System, System];
      assert [System, System][1..] == [System] && [System][1..] == [];
    }
  }
}
