/** The frozen fast lanes and the pin cache in the thread's hot block, against the classic path they
    shortcut. */
module Lanes {
  import opened Wrappers
  import opened Bits
  import opened Bytes
  import opened Entries
  import opened Chd
  import opened HashTable
  import opened TableMeaning
  import opened Routing
  import opened ModelFile
  import Magazines

  const SEGMENT_SIZE: nat := 65536
  const MIN_ALIGN: nat := 16
  const MAG_CLASSES: nat := 12
  const PIN_ENTRIES: nat := 64
  const PIN_SC_SLOTS: nat := 16
  const PIN_UNKNOWN: u8 := 0xFE
  const PIN_NOT_PINNED: u8 := 0xFF

  /** One slot of the pin cache: a call site, the table its verdicts came from, a verdict per class. */
  datatype PinEntry = PinEntry(table: nat, ret0: nat, states: seq<u8>)

  /** The hot block's abstract value. `rows` is what the slab magazine's owner sees. */
  datatype Tls = Tls(inAlloc: nat, ahr: u64, magOwner: nat, rows: seq<seq<nat>>,
                     segBase: nat, segClass: nat, segOwner: nat, pin: seq<PinEntry>)

  /** What one allocator instance has published. Table pointers are tags: a published plane is
      immutable and never freed, so a tag names one plane forever. Tag 0 is the null pointer. */
  datatype Instance = Instance(mix: Mixer, oneFrame: nat -> u64, planes: map<nat, (seq<Entry>, seq<Entry>)>,
                               published: nat, ahrOn: bool, fastLaneOn: bool, shortcutOn: bool,
                               slabHeaderless: bool, owner: nat, segments: map<nat, nat>)

  ghost predicate TlsOk(t: Tls) {
    && |t.rows| == MAG_CLASSES && |t.pin| == PIN_ENTRIES
    && forall i :: 0 <= i < PIN_ENTRIES ==> |t.pin[i].states| == PIN_SC_SLOTS
  }

  ghost predicate Built(inst: Instance, tag: nat)
    requires tag in inst.planes
  {
    FromEntries(inst.mix, inst.planes[tag].0).Some? && FromEntries(inst.mix, inst.planes[tag].1).Some?
  }

  ghost function PlaneAt(inst: Instance, tag: nat): (r: FrozenRouting)
    requires tag in inst.planes && Built(inst, tag)
    ensures WellSized(r.main) && WellSized(r.distilled)
  {
    Plane(inst.mix, inst.planes[tag].0, inst.planes[tag].1)
  }

  /** What publishing establishes: the history gate follows the table, and an armed free lane means
      headerless slab blocks. */
  ghost predicate InstanceOk(inst: Instance) {
    && 0 !in inst.planes && inst.owner != 0
    && (forall tag :: tag in inst.planes ==> Built(inst, tag))
    && (inst.published != 0 ==> inst.published in inst.planes && inst.ahrOn == PlaneAt(inst, inst.published).ahrNeeded)
    && (inst.fastLaneOn ==> inst.slabHeaderless)
    && (forall base :: base in inst.segments ==> inst.segments[base] < MAG_CLASSES)
  }

  // ---- the history register --------------------------------------------------------------

  function AllocCode(sizeClass: u8): nat {
    if sizeClass == 255 || sizeClass <= 11 then 1 else if sizeClass <= 13 then 2 else 3
  }

  function PushEvent(ahr: u64, code: nat): u64
    requires code < 4
  {
    ShiftFits(ahr, code);
    ahr * 4 % TWO64 + code
  }

  lemma ShiftFits(ahr: u64, code: nat)
    requires code < 4
    ensures ahr * 4 % TWO64 + code < TWO64
  {
  }

  function Shallow(ahr: u64): u8 { ahr % 64 }

  function Deep(ahr: u64): u8 {
    XorBound8(ahr);
    var folded := Xor(ahr / 256 % 256, ahr % 256);
    if folded == 255 then 254 else folded
  }

  lemma XorBound8(ahr: u64)
    ensures Xor(ahr / 256 % 256, ahr % 256) < 256
  {
    assert Pow2(8) == 256;
    XorBound(ahr / 256 % 256, ahr % 256, 8);
  }

  // ---- the pin cache ---------------------------------------------------------------------

  datatype PinProbe = Pinned(backend: Backend) | NotPinned | Miss

  function PinIndex(ret0: nat): (i: nat)
    ensures i < PIN_ENTRIES
  {
    ret0 % TWO64 * 0x9E37_79B9_7F4A_7C15 % TWO64 / 0x400_0000_0000_0000 % PIN_ENTRIES
  }

  function PinByte(b: Option<Backend>): u8 {
    match b case Some(x) => Code(x) case None => PIN_NOT_PINNED
  }

  function Probe(pin: seq<PinEntry>, table: nat, ret0: nat, sizeClass: u8): PinProbe
    requires |pin| == PIN_ENTRIES && |pin[PinIndex(ret0)].states| == PIN_SC_SLOTS
  {
    if sizeClass >= PIN_SC_SLOTS then NotPinned
    else
      var e := pin[PinIndex(ret0)];
      if e.ret0 != ret0 || e.table != table then Miss
      else if e.states[sizeClass] == PIN_UNKNOWN then Miss
      else if e.states[sizeClass] == PIN_NOT_PINNED then NotPinned
      else Pinned(if e.states[sizeClass] > 3 then Arena else BackendOf(e.states[sizeClass]))
  }

  function Store(pin: seq<PinEntry>, table: nat, ret0: nat, sizeClass: u8, verdict: Option<Backend>): (r: seq<PinEntry>)
    requires |pin| == PIN_ENTRIES && |pin[PinIndex(ret0)].states| == PIN_SC_SLOTS
    ensures |r| == PIN_ENTRIES
  {
    if sizeClass >= PIN_SC_SLOTS then pin
    else
      var e := pin[PinIndex(ret0)];
      var claimed := if e.ret0 != ret0 || e.table != table
          then PinEntry(table, ret0, seq(PIN_SC_SLOTS, i => PIN_UNKNOWN)) else e;
      pin[PinIndex(ret0) := claimed.(states := claimed.states[sizeClass := PinByte(verdict)])]
  }

  /** A fresh lookup of the site in a plane's distilled table. */
  ghost function Distilled(inst: Instance, tag: nat, ret0: nat, sizeClass: u8): Option<Backend>
    requires tag in inst.planes && Built(inst, tag)
  {
    Lookup(inst.mix, PlaneAt(inst, tag).distilled, SiteKey(inst.oneFrame(ret0), sizeClass))
  }

  /** Every recorded verdict is what a fresh lookup in its own table would say. */
  ghost predicate PinOk(inst: Instance, pin: seq<PinEntry>) {
    forall i, c: u8 :: 0 <= i < |pin| && c < |pin[i].states| ==> VerdictOk(inst, pin[i], c)
  }

  ghost predicate VerdictOk(inst: Instance, e: PinEntry, c: u8)
    requires c < |e.states|
  {
    e.table in inst.planes && Built(inst, e.table) ==>
      e.states[c] == PIN_UNKNOWN || e.states[c] == PinByte(Distilled(inst, e.table, e.ret0, c))
  }

  // ---- the two paths ---------------------------------------------------------------------

  /** `Elsewhere` is anything past a magazine hit: a central refill or flush, or another backend. */
  datatype Outcome = Served(block: nat, tls: Tls) | Elsewhere

  function OwnRow(t: Tls, owner: nat, cls: nat): seq<nat>
    requires |t.rows| == MAG_CLASSES && cls < MAG_CLASSES
  {
    if t.magOwner == owner then t.rows[cls] else []
  }

  /** Replace one row as seen by `owner`, every other row being what `owner` saw before. */
  function WithRow(t: Tls, owner: nat, cls: nat, row: seq<nat>): Tls
    requires |t.rows| == MAG_CLASSES && cls < MAG_CLASSES
  {
    var mine := if t.magOwner == owner then t.rows else seq(MAG_CLASSES, i => []);
    t.(magOwner := owner, rows := mine[cls := row])
  }

  /** `try_backend`: the headerless slab arm's magazine hit. */
  function TryBackend(inst: Instance, t: Tls, b: Backend, total: nat, pad: nat, align: nat): Outcome
    requires |t.rows| == MAG_CLASSES && pad <= total
  {
    if b == Slab && total <= SLAB_MAX && inst.slabHeaderless && align <= MIN_ALIGN then
      var cls := SlabClass(total - pad, 0, 8);
      var row := OwnRow(t, inst.owner, cls);
      if row == [] then Elsewhere
      else Served(row[|row| - 1], WithRow(t, inst.owner, cls, row[..|row| - 1]))
    else Elsewhere
  }

  /** The thread's state once this allocation's event is pushed, when history is kept. */
  function Pushed(inst: Instance, t: Tls, c: u8): Tls {
    if inst.ahrOn then t.(ahr := PushEvent(t.ahr, AllocCode(c))) else t
  }

  /** The walked route: the context is the history before this allocation. */
  function TableRoute(inst: Instance, plane: FrozenRouting, t: Tls, hash: u64, size: nat, pad: nat, align: nat): Outcome
    requires |t.rows| == MAG_CLASSES && WellSized(plane.main)
  {
    var c := SizeClassFor(size);
    var ctx := if inst.ahrOn then Some((Shallow(t.ahr), Deep(t.ahr))) else None;
    TryBackend(inst, Pushed(inst, t, c), FullRoute(inst.mix, plane.main, SiteKey(hash, c), ctx, size), size
        + pad, pad, align)
  }

  /** A walked site: pinned verdicts serve at once; a miss records the fresh distilled verdict and
      takes the table this time. */
  ghost function SiteRoute(inst: Instance, t: Tls, ret0: nat, hash: u64, size: nat, pad: nat, align: nat): Outcome
    requires InstanceOk(inst) && TlsOk(t) && inst.published != 0
  {
    hide FullRoute, SiteKey, PinIndex, Probe, SizeClassFor, TryBackend, PushEvent, PinByte;
    var tag, plane, c := inst.published, PlaneAt(inst, inst.published), SizeClassFor(size);
    match Probe(t.pin, tag, ret0, c)
    case Pinned(b) => TryBackend(inst, Pushed(inst, t, c), b, size + pad, pad, align)
    case NotPinned => TableRoute(inst, plane, t, hash, size, pad, align)
    case Miss => TableRoute(inst, plane, t.(pin := Store(t.pin, tag, ret0, c, Distilled(inst, tag, ret0, c))), hash,
        size, pad, align)
  }

  /** The full route: unanimous-class shortcut first. `ret0` is the walked return address, absent
      when the walk's guard failed; `hash` is the walk's three-frame hash. */
  ghost function Route(inst: Instance, t: Tls, ret0: Option<nat>, hash: u64, size: nat, pad: nat, align: nat): Outcome
    requires InstanceOk(inst) && TlsOk(t)
  {
    hide FullRoute, SiteKey, SizeClassFor, TryBackend, PushEvent;
    if inst.published == 0 then Elsewhere
    else
      var plane, c := PlaneAt(inst, inst.published), SizeClassFor(size);
      if inst.shortcutOn && plane.scVerdict[c].Some? then
        TryBackend(inst, if plane.ahrNeeded then Pushed(inst, t, c)
            else t, plane.scVerdict[c].value, size + pad, pad, align)
      else if ret0.None? then TableRoute(inst, plane, t, 0, size, pad, align)
      else SiteRoute(inst, t, ret0.value, hash, size, pad, align)
  }

  /** `alloc` past the lane: a re-entrant call is served by the system. */
  ghost function ClassicAlloc(inst: Instance, t: Tls, ret0: Option<nat>, hash: u64, size: nat, pad: nat,
      align: nat): Outcome
    requires InstanceOk(inst) && TlsOk(t)
  {
    if t.inAlloc > 0 then Elsewhere else Route(inst, t, ret0, hash, size, pad, align)
  }

  /** The allocation lane: a pinned-Slab site with a block in its own magazine row. */
  function FastAlloc(inst: Instance, t: Tls, ret0: Option<nat>, size: nat): Option<(nat, Tls)>
    requires TlsOk(t)
  {
    if size > SLAB_MAX || inst.published == 0 || ret0.None? || t.inAlloc > 0 then None
    else
      var cls, c := SlabClass(size, 0, 8), SizeClassFor(size);
      var e := t.pin[PinIndex(ret0.value)];
      if e.ret0 != ret0.value || e.table != inst.published || e.states[c] != Code(Slab) then None
      else if t.magOwner != inst.owner || t.rows[cls] == [] then None
      else
        var row := t.rows[cls];
        var pushed := if inst.ahrOn then t.(ahr := PushEvent(t.ahr, AllocCode(c))) else t;
        Some((row[|row| - 1], pushed.(rows := t.rows[cls := row[..|row| - 1]])))
  }

  function SegmentBase(ptr: nat): nat {
    AndNot(ptr, SEGMENT_SIZE - 1)
  }

  /** The free lane: a block of the cached segment, with room in its row. */
  function FastDealloc(inst: Instance, t: Tls, ptr: nat): Option<Tls>
    requires |t.rows| == MAG_CLASSES && t.segClass < MAG_CLASSES
  {
    if t.segBase != SegmentBase(ptr) || t.segOwner != inst.owner || t.magOwner != inst.owner then None
    else if |t.rows[t.segClass]| >= Magazines.CLASS_CAPS[t.segClass] then None
    else Some(t.(rows := t.rows[t.segClass := t.rows[t.segClass] + [ptr]]))
  }

  /** The classic headerless slab free; None once it needs the central stripes or another backend. */
  function ClassicDealloc(inst: Instance, t: Tls, ptr: nat): Option<Tls>
    requires |t.rows| == MAG_CLASSES
  {
    if !inst.slabHeaderless || SegmentBase(ptr) !in inst.segments then None
    else
      var cls := inst.segments[SegmentBase(ptr)];
      if cls >= MAG_CLASSES then None
      else
        var filled := if inst.fastLaneOn then t.(segBase := SegmentBase(ptr), segClass := cls,
            segOwner := inst.owner) else t;
        var row := OwnRow(t, inst.owner, cls);
        if |row| >= Magazines.CLASS_CAPS[cls] then None
        else Some(WithRow(filled, inst.owner, cls, row + [ptr]))
  }

  /** A cached segment of this instance is a registered one, of the cached class. */
  ghost predicate SegmentOk(inst: Instance, t: Tls) {
    t.segClass < MAG_CLASSES
    && (t.segOwner == inst.owner ==> t.segBase in inst.segments && inst.segments[t.segBase] == t.segClass)
  }

  // ---- the pin cache never lies ----------------------------------------------------------

  lemma PinByteBack(b: Option<Backend>)
    ensures PinByte(b) != PIN_UNKNOWN
    ensures PinByte(b) == PIN_NOT_PINNED <==> b.None?
    ensures b.Some? ==> PinByte(b) <= 3 && BackendOf(PinByte(b)) == b.value
  {
  }

  /** A pinned verdict under a published tag is the fresh distilled lookup, and a negative one says
      the site has none. */
  lemma PinnedIsFresh(inst: Instance, pin: seq<PinEntry>, tag: nat, ret0: nat, c: u8)
    requires PinOk(inst, pin) && tag in inst.planes && Built(inst, tag)
    requires |pin| == PIN_ENTRIES && |pin[PinIndex(ret0)].states| == PIN_SC_SLOTS && c < PIN_SC_SLOTS
    ensures match Probe(pin, tag, ret0, c)
      case Pinned(b) => Distilled(inst, tag, ret0, c) == Some(b)
      case NotPinned => Distilled(inst, tag, ret0, c) == None
      case Miss => true
  {
    hide Distilled, PinIndex, PinByte, Built;
    var i := PinIndex(ret0);
    PinByteBack(Distilled(inst, tag, ret0, c));
    if pin[i].ret0 == ret0 && pin[i].table == tag {
      assert VerdictOk(inst, pin[i], c);
    }
  }

  /** What was stored is what the next probe answers, and no other class of the site and no site of
      another slot answers differently; only a site evicted from the slot is forgotten. */
  lemma StoreThenProbe(pin: seq<PinEntry>, tag: nat, ret0: nat, c: u8, verdict: Option<Backend>, site: nat, d: u8)
    requires |pin| == PIN_ENTRIES && c < PIN_SC_SLOTS
    requires forall i :: 0 <= i < PIN_ENTRIES ==> |pin[i].states| == PIN_SC_SLOTS
    ensures var stored := Store(pin, tag, ret0, c, verdict);
      && |stored[PinIndex(ret0)].states| == |stored[PinIndex(site)].states| == PIN_SC_SLOTS
      && Probe(stored, tag, ret0, c) == (if verdict.Some? then Pinned(verdict.value) else NotPinned)
      && (PinIndex(site) != PinIndex(ret0) ==> Probe(stored, tag, site, d) == Probe(pin, tag, site, d))
      && (d != c ==> Probe(stored, tag, ret0, d) == Probe(pin, tag, ret0, d))
      && (site != ret0 && PinIndex(site) == PinIndex(ret0) && d < PIN_SC_SLOTS ==>
            Probe(stored, tag, site, d) == Miss)
  {
    hide PinIndex, PinByte;
    PinByteBack(verdict);
  }

  /** Storing the fresh verdict keeps every other verdict honest, also when it evicts another site
      or another table. */
  lemma StoreKeepsPins(inst: Instance, pin: seq<PinEntry>, tag: nat, ret0: nat, c: u8)
    requires PinOk(inst, pin) && tag in inst.planes && Built(inst, tag)
    requires |pin| == PIN_ENTRIES && |pin[PinIndex(ret0)].states| == PIN_SC_SLOTS
    ensures PinOk(inst, Store(pin, tag, ret0, c, Distilled(inst, tag, ret0, c)))
  {
    hide Distilled, PinIndex, PinByte, Built;
    var stored := Store(pin, tag, ret0, c, Distilled(inst, tag, ret0, c));
    forall i, d: u8 | 0 <= i < |stored| && d < |stored[i].states| ensures VerdictOk(inst, stored[i], d) {
      if d < |pin[i].states| { assert VerdictOk(inst, pin[i], d); }
    }
  }

  /** Publishing another plane under a new tag keeps every verdict honest: no flush is needed. */
  lemma PublishKeepsPins(inst: Instance, inst': Instance, pin: seq<PinEntry>)
    requires PinOk(inst, pin) && inst'.mix == inst.mix && inst'.oneFrame == inst.oneFrame
    requires forall tag :: tag in inst.planes ==> tag in inst'.planes && inst'.planes[tag] == inst.planes[tag]
    requires forall i :: 0 <= i < |pin| ==> pin[i].table in inst'.planes ==> pin[i].table in inst.planes
    ensures PinOk(inst', pin)
  {
    hide PinByte, LookupWithFlags, FromEntries, NewRouting, SiteKey;
    forall i, c: u8 | 0 <= i < |pin| && c < |pin[i].states| ensures VerdictOk(inst', pin[i], c) {
      assert VerdictOk(inst, pin[i], c);
    }
  }

  lemma EmptyPinsOk(inst: Instance)
    requires 0 !in inst.planes
    ensures PinOk(inst, seq(PIN_ENTRIES, i => PinEntry(0, 0, seq(PIN_SC_SLOTS, j => PIN_UNKNOWN))))
  {
  }

  // ---- the lanes refine the classic path -------------------------------------------------

  /** A distilled entry found under the key of this site and class is an entry of that class. */
  ghost predicate KeyCarriesClass(oneFrame: nat -> u64, ds: seq<Entry>, ret0: nat, c: u8) {
    var found := LastWins(ds, SiteKey(oneFrame(ret0), c));
    found.Some? ==> found.value.sizeClass == c
  }

  /** None of these sites has the key of this site and class under another class. */
  ghost predicate OwnKey(oneFrame: nat -> u64, sites: set<nat>, ret0: nat, c: u8) {
    forall a: nat, d: u8 :: a in sites && SiteKey(oneFrame(a), d) == SiteKey(oneFrame(ret0), c) ==> d == c
  }

  /** Distilled entries are keyed on a trained site's one-frame hash and their own class, so under a
      key no trained site has for another class only entries of that class are found. */
  lemma DistilledCarryClass(oneFrame: nat -> u64, sites: set<nat>, ds: seq<Entry>, ret0: nat, c: u8)
    requires OwnKey(oneFrame, sites, ret0, c)
    requires forall e :: e in ds ==> exists a :: a in sites && e.hash == SiteKey(oneFrame(a), e.sizeClass)
    ensures KeyCarriesClass(oneFrame, ds, ret0, c)
  {
    hide SiteKey, LastWins;
    var key := SiteKey(oneFrame(ret0), c);
    if LastWins(ds, key).Some? {
      LastWinsMember(ds, key);
    }
  }

  /** Were the shortcut asked first, it would name the same backend: exactly when the entry found
      holds the default of the class, and always when it is an entry of the class. */
  lemma ShortcutAgreesWithPin(inst: Instance, ret0: nat, c: u8)
    requires InstanceOk(inst) && inst.published != 0 && c < SC_VERDICT_LEN
    requires Distilled(inst, inst.published, ret0, c).Some? && PlaneAt(inst, inst.published).scVerdict[c].Some?
    ensures var (pinned, verdict) :=
              (Distilled(inst, inst.published, ret0, c), PlaneAt(inst, inst.published).scVerdict[c]);
      && (pinned == verdict <==> pinned == Some(DefaultBackend(c)))
      && (KeyCarriesClass(inst.oneFrame, inst.planes[inst.published].1, ret0, c) ==> pinned == verdict)
  {
    var (es, ds) := inst.planes[inst.published];
    var key := SiteKey(inst.oneFrame(ret0), c);
    ShortcutAgrees(inst.mix, es, ds, key, None);
    LookupMeaning(inst.mix, ds, key);
    VerdictIsDefault(inst, inst.published, c);
    hide FromEntries, EntriesFlagged, LookupWithFlags, ScVerdicts, SiteKey, LastWins, RouteMain;
    PlaneTables(FromEntries(inst.mix, es).value, FromEntries(inst.mix, ds).value);
  }

  /** A class verdict is only ever the class's default. */
  lemma VerdictIsDefault(inst: Instance, tag: nat, c: u8)
    requires tag in inst.planes && Built(inst, tag) && c < SC_VERDICT_LEN
    ensures |PlaneAt(inst, tag).scVerdict| == SC_VERDICT_LEN
    ensures PlaneAt(inst, tag).scVerdict[c] in {None, Some(DefaultBackend(c))}
  {
    hide FromEntries, EntriesFlagged, Occurs, AgreesOn;
  }

  lemma SmallSizesMatch(size: nat)
    requires size <= SLAB_MAX
    ensures SizeClassFor(size) == SlabClass(size, 0, 8) <= 11 && DefaultBackend(SizeClassFor(size)) == Slab
  {
  }

  lemma CodeOfSlab(b: Option<Backend>, state: u8)
    requires state == PIN_UNKNOWN || state == PinByte(b)
    requires state == Code(Slab)
    ensures b == Some(Slab) && state <= 3 && BackendOf(state) == Slab
  {
  }

  lemma PinHit(inst: Instance, t: Tls, ret0: nat, c: u8)
    requires TlsOk(t) && PinOk(inst, t.pin) && inst.published in inst.planes && Built(inst, inst.published)
              && c < PIN_SC_SLOTS
    requires var e := t.pin[PinIndex(ret0)]; e.ret0 == ret0 && e.table == inst.published && e.states[c] == Code(Slab)
    ensures Probe(t.pin, inst.published, ret0, c) == Pinned(Slab)
    ensures Distilled(inst, inst.published, ret0, c) == Some(Slab)
  {
    hide PinIndex, PinByte, Distilled, Built;
    assert VerdictOk(inst, t.pin[PinIndex(ret0)], c);
    CodeOfSlab(Distilled(inst, inst.published, ret0, c), t.pin[PinIndex(ret0)].states[c]);
  }

  lemma MagazineHit(inst: Instance, t: Tls, size: nat, pad: nat, align: nat)
    requires |t.rows| == MAG_CLASSES && t.magOwner == inst.owner && inst.slabHeaderless
    requires align <= MIN_ALIGN && size + pad <= SLAB_MAX
    requires t.rows[SlabClass(size, 0, 8)] != []
    ensures var row := t.rows[SlabClass(size, 0, 8)];
      TryBackend(inst, t, Slab, size + pad, pad, align)
      == Served(row[|row| - 1], t.(rows := t.rows[SlabClass(size, 0, 8) := row[..|row| - 1]]))
  {
    hide SlabClass;
    assert size + pad - pad == size;
  }

  /** Whenever the allocation lane serves, the classic path from the same state would have served
      the same block, left the same magazine rows, and pushed the same history. */
  lemma AllocLaneRefines(inst: Instance, t: Tls, ret0: Option<nat>, hash: u64, size: nat, pad: nat, align: nat)
    requires InstanceOk(inst) && TlsOk(t) && PinOk(inst, t.pin)
    requires inst.fastLaneOn && align <= MIN_ALIGN && size + pad <= SLAB_MAX
    requires FastAlloc(inst, t, ret0, size).Some?
    ensures var (block, t') := FastAlloc(inst, t, ret0, size).value;
      ClassicAlloc(inst, t, ret0, hash, size, pad, align) == Served(block, t')
  {
    SmallSizesMatch(size);
    hide PinIndex, PinByte, SlabClass, SizeClassFor, PlaneAt, Distilled, PushEvent, FullRoute, SiteKey, Built,
         TryBackend, Probe, PinOk, TableRoute, DefaultBackend;
    var c := SizeClassFor(size);
    PinHit(inst, t, ret0.value, c);
    VerdictIsDefault(inst, inst.published, c);
    MagazineHit(inst, Pushed(inst, t, c), size, pad, align);
  }

  /** A request the lane can take at all. */
  predicate LaneServes(size: nat, pad: nat, align: nat) {
    align <= MIN_ALIGN && size + pad <= SLAB_MAX
  }

  lemma SlabArmOnly(inst: Instance, t: Tls, b: Backend, size: nat, pad: nat, align: nat)
    requires |t.rows| == MAG_CLASSES
    ensures TryBackend(inst, t, b, size + pad, pad, align).Served? ==> LaneServes(size, pad, align)
  {
  }

  lemma TableArm(inst: Instance, plane: FrozenRouting, t: Tls, hash: u64, size: nat, pad: nat, align: nat)
    requires |t.rows| == MAG_CLASSES && WellSized(plane.main)
    ensures TableRoute(inst, plane, t, hash, size, pad, align).Served? ==> LaneServes(size, pad, align)
  {
    hide FullRoute, SiteKey, SizeClassFor, TryBackend, PushEvent, LaneServes, Shallow, Deep, AllocCode;
    var c := SizeClassFor(size);
    var ctx := if inst.ahrOn then Some((Shallow(t.ahr), Deep(t.ahr))) else None;
    var b := FullRoute(inst.mix, plane.main, SiteKey(hash, c), ctx, size);
    SlabArmOnly(inst, Pushed(inst, t, c), b, size, pad, align);
  }

  lemma SiteArm(inst: Instance, t: Tls, ret0: nat, hash: u64, size: nat, pad: nat, align: nat)
    requires InstanceOk(inst) && TlsOk(t) && inst.published != 0
    ensures SiteRoute(inst, t, ret0, hash, size, pad, align).Served? ==> LaneServes(size, pad, align)
  {
    hide FullRoute, SiteKey, SizeClassFor, TryBackend, PushEvent, LaneServes, TableRoute, Probe, Store, PlaneAt,
         Distilled, Built, PinIndex;
    var tag, c := inst.published, SizeClassFor(size);
    var plane, probe := PlaneAt(inst, tag), Probe(t.pin, tag, ret0, c);
    if probe.Pinned? {
      SlabArmOnly(inst, Pushed(inst, t, c), probe.backend, size, pad, align);
    }
    TableArm(inst, plane, t, hash, size, pad, align);
    var stored := Store(t.pin, tag, ret0, c, Distilled(inst, tag, ret0, c));
    TableArm(inst, plane, t.(pin := stored), hash, size, pad, align);
  }

  lemma OutsideGuard(inst: Instance, t: Tls, ret0: Option<nat>, hash: u64, size: nat, pad: nat, align: nat)
    requires InstanceOk(inst) && TlsOk(t)
    ensures ClassicAlloc(inst, t, ret0, hash, size, pad, align).Served? ==> LaneServes(size, pad, align)
  {
    hide FullRoute, SiteKey, SizeClassFor, TryBackend, PushEvent, LaneServes, TableRoute, SiteRoute, PlaneAt, Built;
    if inst.published != 0 && t.inAlloc == 0 {
      var plane, c := PlaneAt(inst, inst.published), SizeClassFor(size);
      VerdictIsDefault(inst, inst.published, c);
      if inst.shortcutOn && plane.scVerdict[c].Some? {
        SlabArmOnly(inst, t, plane.scVerdict[c].value, size, pad, align);
        SlabArmOnly(inst, Pushed(inst, t, c), plane.scVerdict[c].value, size, pad, align);
      } else if ret0.None? {
        TableArm(inst, plane, t, 0, size, pad, align);
      } else {
        SiteArm(inst, t, ret0.value, hash, size, pad, align);
      }
    }
  }

  /** The guard in front of the lane is exact: with the header pushing the request past the largest
      slab class, or an alignment the block cannot give, the classic path leaves the magazine. */
  lemma LaneGuardExact(inst: Instance, t: Tls, ret0: Option<nat>, hash: u64, size: nat, pad: nat, align: nat)
    requires InstanceOk(inst) && TlsOk(t) && PinOk(inst, t.pin) && inst.fastLaneOn
    requires FastAlloc(inst, t, ret0, size).Some?
    ensures ClassicAlloc(inst, t, ret0, hash, size, pad, align).Served? <==>
              align <= MIN_ALIGN && size + pad <= SLAB_MAX
  {
    hide ClassicAlloc, FastAlloc, InstanceOk, TlsOk, PinOk;
    OutsideGuard(inst, t, ret0, hash, size, pad, align);
    if LaneServes(size, pad, align) { AllocLaneRefines(inst, t, ret0, hash, size, pad, align); }
  }

  /** Whenever the free lane stores a block, the classic path would have stored it in the same row,
      with the same segment cached. */
  lemma FreeLaneRefines(inst: Instance, t: Tls, ptr: nat)
    requires InstanceOk(inst) && TlsOk(t) && SegmentOk(inst, t) && inst.fastLaneOn
    requires FastDealloc(inst, t, ptr).Some?
    ensures ClassicDealloc(inst, t, ptr) == FastDealloc(inst, t, ptr)
  {
    hide SegmentBase, Built;
  }

  /** Only a registry hit fills the segment cache, so the cache stays true; a new owner id or newly
      registered segments leave it true as well. */
  lemma SegmentKept(inst: Instance, t: Tls, ptr: nat)
    requires InstanceOk(inst) && TlsOk(t) && SegmentOk(inst, t)
    ensures ClassicDealloc(inst, t, ptr).Some? ==> SegmentOk(inst, ClassicDealloc(inst, t, ptr).value)
    ensures FastDealloc(inst, t, ptr).Some? ==> SegmentOk(inst, FastDealloc(inst, t, ptr).value)
  {
    hide SegmentBase, Built;
  }

  lemma SegmentSurvives(inst: Instance, inst': Instance, t: Tls)
    requires SegmentOk(inst, t)
    requires inst'.owner == inst.owner || inst'.owner != t.segOwner
    requires forall base :: base in inst.segments ==>
              base in inst'.segments && inst'.segments[base] == inst.segments[base]
    ensures SegmentOk(inst', t)
  {
  }
}
