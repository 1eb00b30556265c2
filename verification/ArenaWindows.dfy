/** Who may write which bytes of which chunk: spans, carves in progress and live blocks own
    windows that stay inside the carved part of their chunk and never overlap. */
module ArenaWindows {
  import opened Wrappers
  import opened ArenaProtocol
  import opened ArenaCounts
  import Bits

  datatype Window = Nowhere | Window(chunk: nat, lo: nat, hi: nat)

  datatype Key = SpanOf(t: nat) | PcOf(t: nat) | BlockOf(b: LiveBlock)

  ghost function Win(s: State, k: Key): Window {
    match k
    case SpanOf(t) =>
      if t < |s.threads| && s.threads[t].span.Span? then
        Window(s.threads[t].span.chunk, s.threads[t].span.cursor, s.threads[t].span.end)
      else Nowhere
    case PcOf(t) =>
      if t < |s.threads| then CarveWindow(s.threads[t].pc) else Nowhere
    case BlockOf(b) =>
      if b in s.live then Window(b.chunk, b.lo, b.hi) else Nowhere
  }

  /** The bytes a thread has reserved by a successful compare-exchange but not yet passed on. */
  ghost function CarveWindow(pc: Pc): Window {
    match pc
    case Retiring(c, _, lo, hi) => Window(c, lo, hi)
    case Retired(c, _, lo, hi, _) => Window(c, lo, hi)
    case Installing(c, _, lo, hi) => Window(c, lo, hi)
    case Noting(c, lo, hi, _) => Window(c, lo, hi)
    case _ => Nowhere
  }

  ghost predicate Inside(chunks: seq<Chunk>, w: Window) {
    w.Window? ==>
      w.chunk < |chunks| && chunks[w.chunk].base <= w.lo <= w.hi <= chunks[w.chunk].cursor
  }

  ghost predicate Apart(v: Window, w: Window) {
    v.Window? && w.Window? && v.chunk == w.chunk ==> v.hi <= w.lo || w.hi <= v.lo
  }

  ghost predicate ChunkRange(ch: Chunk) {
    ch.base <= ch.cursor <= ch.base + ch.capacity
  }

  ghost predicate WindowsOk(s: State) {
    && (forall c :: 0 <= c < |s.chunks| ==> ChunkRange(s.chunks[c]))
    && (forall k :: Inside(s.chunks, Win(s, k)))
    && (forall k, l :: k != l ==> Apart(Win(s, k), Win(s, l)))
  }

  /** A request fits the front of what was carved for it; what is handed out is nonempty and
      aligned as asked. */
  ghost predicate CarveFits(pc: Pc) {
    match pc
    case Pinning(_, need) => Sane(need)
    case Checking(_, need) => Sane(need)
    case Carving(_, need) => Sane(need)
    case Casing(_, need, _) => Sane(need)
    case Retiring(_, need, lo, hi) => Sane(need) && Aligned(lo, MIN_ALIGN) && hi == lo + Reserve(need)
    case Retired(_, need, lo, hi, _) => Sane(need) && Aligned(lo, MIN_ALIGN) && hi == lo + Reserve(need)
    case Installing(_, need, lo, hi) => Sane(need) && Aligned(lo, MIN_ALIGN) && hi == lo + Reserve(need)
    case Noting(_, lo, hi, align) => Aligned(lo, align) && lo < hi
    case _ => true
  }

  ghost predicate BlocksOk(s: State) {
    && (forall b :: b in s.live ==> Aligned(b.lo, b.align) && b.lo < b.hi)
    && (forall t :: 0 <= t < |s.threads| ==> CarveFits(s.threads[t].pc))
  }

  lemma AlignUpBounds(n: nat, align: nat)
    requires align > 0
    ensures n <= AlignUp(n, align) < n + align
    ensures Aligned(AlignUp(n, align), align)
    ensures Aligned(n, align) ==> AlignUp(n, align) == n
  {
    var m := n + align - 1;
    var q, r := m / align, m % align;
    assert m == align * q + r;
    assert Aligned(align * q, align) by { Bits.Quotient(align * q, align, q, 0); }
    if Aligned(n, align) { AlignUpExact(n, align); }
  }

  lemma AlignUpExact(n: nat, align: nat)
    requires Aligned(n, align)
    ensures AlignUp(n, align) == n
  {
    var k := n / align;
    assert n == align * k;
    Bits.Quotient(n + align - 1, align, k, align - 1);
  }

  /** The front of a carve satisfies the request it was made for. */
  lemma FrontFits(need: Need, lo: nat)
    requires Sane(need) && Aligned(lo, MIN_ALIGN)
    ensures AlignOf(need) > 0
    ensures lo <= AlignUp(lo, AlignOf(need))
    ensures AlignUp(lo, AlignOf(need)) + need.size <= lo + Reserve(need)
    ensures Aligned(AlignUp(lo, AlignOf(need)), AlignOf(need))
  {
    hide AlignUp, Aligned;
    AlignUpBounds(lo, AlignOf(need));
  }

  // ---- how windows may change ------------------------------------------------------------

  ghost predicate SameRanges(chunks: seq<Chunk>, chunks': seq<Chunk>) {
    && |chunks'| >= |chunks|
    && (forall c :: 0 <= c < |chunks| ==>
          chunks'[c].base == chunks[c].base && chunks'[c].capacity == chunks[c].capacity)
    && (forall c :: |chunks| <= c < |chunks'| ==> ChunkRange(chunks'[c]))
  }

  /** Windows may disappear. */
  lemma WindowsFewer(s: State, s': State)
    requires WindowsOk(s) && SameRanges(s.chunks, s'.chunks)
    requires forall c :: 0 <= c < |s.chunks| ==> s'.chunks[c].cursor == s.chunks[c].cursor
    requires forall k :: Win(s', k) == Win(s, k) || Win(s', k) == Nowhere
    ensures WindowsOk(s')
  {
    hide Win;
    forall k ensures Inside(s'.chunks, Win(s', k)) { assert Inside(s.chunks, Win(s, k)); }
    forall k, l | k != l ensures Apart(Win(s', k), Win(s', l)) { assert Apart(Win(s, k), Win(s, l)); }
  }

  ghost predicate Within(v: Window, w: Window) {
    v.Window? ==> w.Window? && v.chunk == w.chunk && w.lo <= v.lo <= v.hi <= w.hi
  }

  /** One window may be divided between two keys. */
  lemma WindowsSplit(s: State, s': State, from: Key, k1: Key, k2: Key)
    requires WindowsOk(s) && SameRanges(s.chunks, s'.chunks)
    requires forall c :: 0 <= c < |s.chunks| ==> s'.chunks[c].cursor == s.chunks[c].cursor
    requires k1 != k2 && Within(Win(s', k1), Win(s, from)) && Within(Win(s', k2), Win(s, from))
    requires Apart(Win(s', k1), Win(s', k2))
    requires from != k1 && from != k2 ==> Win(s', from) == Nowhere
    requires forall k :: k != k1 && k != k2 && k != from ==> Win(s', k) == Win(s, k) || Win(s', k) == Nowhere
    ensures WindowsOk(s')
  {
    hide Win;
    forall k ensures Inside(s'.chunks, Win(s', k)) {
      assert Inside(s.chunks, Win(s, k)) && Inside(s.chunks, Win(s, from));
    }
    forall k, l | k != l ensures Apart(Win(s', k), Win(s', l)) {
      assert k != l ==> Apart(Win(s, k), Win(s, l));
      assert k != from ==> Apart(Win(s, k), Win(s, from));
      assert l != from ==> Apart(Win(s, from), Win(s, l));
    }
  }

  /** One window may be carved from the cursor. */
  lemma WindowsGrow(s: State, s': State, key: Key, c: nat)
    requires WindowsOk(s) && SameRanges(s.chunks, s'.chunks) && c < |s.chunks|
    requires forall d :: 0 <= d < |s.chunks| && d != c ==> s'.chunks[d].cursor == s.chunks[d].cursor
    requires ChunkRange(s'.chunks[c])
    requires var w := Win(s', key);
      && w.Window? && w.chunk == c
      && s.chunks[c].cursor <= w.lo <= w.hi == s'.chunks[c].cursor
    requires forall k :: k != key ==> Win(s', k) == Win(s, k) || Win(s', k) == Nowhere
    ensures WindowsOk(s')
  {
    hide Win;
    forall k ensures Inside(s'.chunks, Win(s', k)) { assert Inside(s.chunks, Win(s, k)); }
    forall k, l | k != l ensures Apart(Win(s', k), Win(s', l)) {
      assert Apart(Win(s, k), Win(s, l)) && Inside(s.chunks, Win(s, k)) && Inside(s.chunks, Win(s, l));
    }
  }

  /** A cursor may be rewound when its chunk holds no window. */
  lemma WindowsRewind(s: State, s': State, c: nat)
    requires WindowsOk(s) && SameRanges(s.chunks, s'.chunks) && c < |s.chunks|
    requires forall d :: 0 <= d < |s.chunks| && d != c ==> s'.chunks[d].cursor == s.chunks[d].cursor
    requires s'.chunks[c].cursor == s'.chunks[c].base
    requires forall k :: Win(s', k) == Win(s, k) || Win(s', k) == Nowhere
    requires forall k :: Win(s, k).Window? ==> Win(s, k).chunk != c
    ensures WindowsOk(s')
  {
    hide Win;
    forall k ensures Inside(s'.chunks, Win(s', k)) { assert Inside(s.chunks, Win(s, k)); }
    forall k, l | k != l ensures Apart(Win(s', k), Win(s', l)) { assert Apart(Win(s, k), Win(s, l)); }
  }

  // ---- the steps -------------------------------------------------------------------------

  lemma CarveWindows(s: State, s': State, t: nat, a: Action)
    requires WindowsOk(s) && BlocksOk(s) && ShapeOk(s) && t < |s.threads| && CarveStep(s, s', t, a)
    ensures WindowsOk(s')
  {
    hide AlignUp, Inside, Apart, Reserve, RefsOk;
    var th := s.threads[t];
    assert CarveFits(th.pc) && RefsOk(th, |s.chunks|);
    match a
    case Serve(need) => ServeWindows(s, s', t, need);
    case Install => InstallWindows(s, s', t);
    case Cas(ok) => CasWindows(s, s', t, ok);
    case _ => WindowsFewer(s, s');
  }

  lemma ServeWindows(s: State, s': State, t: nat, need: Need)
    requires WindowsOk(s) && t < |s.threads| && CarveStep(s, s', t, Serve(need))
    ensures WindowsOk(s') && FreshBlock(s, t, Serve(need))
  {
    hide AlignUp, Aligned, Reserve;
    var th := s.threads[t];
    var lo := AlignUp(th.span.cursor, AlignOf(need));
    var b := LiveBlock(th.span.chunk, lo, lo + need.size, AlignOf(need));
    AlignUpBounds(th.span.cursor, AlignOf(need));
    assert Apart(Win(s, SpanOf(t)), Win(s, BlockOf(b)));
    WindowsSplit(s, s', SpanOf(t), SpanOf(t), BlockOf(b));
  }

  lemma InstallWindows(s: State, s': State, t: nat)
    requires WindowsOk(s) && BlocksOk(s) && ShapeOk(s) && t < |s.threads| && CarveStep(s, s', t, Install)
    ensures WindowsOk(s') && FreshBlock(s, t, Install)
  {
    hide AlignUp, Aligned, Reserve, RefsOk;
    var th := s.threads[t];
    var need, lo := th.pc.need, AlignUp(th.pc.lo, AlignOf(th.pc.need));
    var b := LiveBlock(th.pc.c, lo, lo + need.size, AlignOf(need));
    assert CarveFits(th.pc);
    FrontFits(need, th.pc.lo);
    SpanGone(th, |s.chunks|);
    assert Apart(Win(s, PcOf(t)), Win(s, BlockOf(b)));
    WindowsSplit(s, s', PcOf(t), SpanOf(t), BlockOf(b));
  }

  lemma CasWindows(s: State, s': State, t: nat, ok: bool)
    requires WindowsOk(s) && BlocksOk(s) && t < |s.threads| && CarveStep(s, s', t, Cas(ok))
    ensures WindowsOk(s')
  {
    hide AlignUp, Aligned;
    var th := s.threads[t];
    assert CarveFits(th.pc);
    AlignUpBounds(th.pc.cur, MIN_ALIGN);
    if s'.threads[t].pc.Retiring? {
      WindowsGrow(s, s', PcOf(t), th.pc.c);
    } else {
      WindowsFewer(s, s');
    }
  }

  lemma FreeWindows(s: State, s': State, t: nat, a: Action)
    requires WindowsOk(s) && t < |s.threads| && FreeStep(s, s', t, a)
    ensures WindowsOk(s')
  {
    hide Inside, Apart;
    WindowsFewer(s, s');
  }

  lemma LockWindows(s: State, s': State, t: nat, a: Action)
    requires WindowsOk(s) && BlocksOk(s) && t < |s.threads| && LockStep(s, s', t, a)
    ensures WindowsOk(s') && FreshBlock(s, t, a)
  {
    hide AlignUp, Aligned, Inside, Apart;
    match a
    case Note => NoteWindows(s, s', t);
    case DirectCas(ok) => DirectWindows(s, s', t, ok);
    case _ => WindowsFewer(s, s');
  }

  lemma NoteWindows(s: State, s': State, t: nat)
    requires WindowsOk(s) && BlocksOk(s) && t < |s.threads| && LockStep(s, s', t, Note)
    ensures WindowsOk(s') && FreshBlock(s, t, Note)
  {
    hide AlignUp, Aligned, Inside;
    var th := s.threads[t];
    var b := LiveBlock(th.pc.c, th.pc.lo, th.pc.hi, th.pc.align);
    assert CarveFits(th.pc);
    assert Apart(Win(s, PcOf(t)), Win(s, BlockOf(b)));
    WindowsSplit(s, s', PcOf(t), PcOf(t), BlockOf(b));
  }

  lemma DirectWindows(s: State, s': State, t: nat, ok: bool)
    requires WindowsOk(s) && BlocksOk(s) && t < |s.threads| && LockStep(s, s', t, DirectCas(ok))
    ensures WindowsOk(s')
  {
    hide AlignUp, Aligned, Inside, Apart;
    var th := s.threads[t];
    assert CarveFits(th.pc);
    AlignUpBounds(th.pc.cur, AlignOf(th.pc.need));
    if s'.threads[t].pc.Noting? {
      WindowsGrow(s, s', PcOf(t), s.current);
    } else {
      WindowsFewer(s, s');
    }
  }

  /** A scan step changes windows only by a rewind, which must find its chunk without any. */
  lemma ScanWindows(s: State, s': State, t: nat, a: Action)
    requires WindowsOk(s) && t < |s.threads| && ScanStep(s, s', t, a)
    requires s'.threads[t].pc.Rewound? ==> forall k :: Win(s, k).Window? ==> Win(s, k).chunk != s'.threads[t].pc.i
    ensures WindowsOk(s')
  {
    hide Inside, Apart, FreshChunk;
    if s'.threads[t].pc.Rewound? {
      WindowsRewind(s, s', s'.threads[t].pc.i);
    } else {
      WindowsFewer(s, s');
    }
  }

  lemma CarveBlocks(s: State, s': State, t: nat, a: Action)
    requires BlocksOk(s) && t < |s.threads| && CarveStep(s, s', t, a)
    ensures BlocksOk(s')
  {
    hide Reserve, AlignUp, Aligned;
    var th := s.threads[t];
    assert CarveFits(th.pc);
    match a
    case Serve(need) => AlignUpBounds(th.span.cursor, AlignOf(need));
    case Install => AlignUpBounds(th.pc.lo, AlignOf(th.pc.need));
    case Cas(ok) => AlignUpBounds(th.pc.cur, MIN_ALIGN);
    case _ =>
  }

  lemma LockBlocks(s: State, s': State, t: nat, a: Action)
    requires BlocksOk(s) && t < |s.threads| && LockStep(s, s', t, a)
    ensures BlocksOk(s')
  {
    hide Reserve, AlignUp, Aligned;
    assert CarveFits(s.threads[t].pc);
    if a.DirectCas? { AlignUpBounds(s.threads[t].pc.cur, AlignOf(s.threads[t].pc.need)); }
  }

  lemma OtherBlocks(s: State, s': State, t: nat, a: Action)
    requires BlocksOk(s) && t < |s.threads| && (FreeStep(s, s', t, a) || ScanStep(s, s', t, a))
    ensures BlocksOk(s')
  {
    hide Reserve, Aligned, FreshChunk;
    assert CarveFits(s.threads[t].pc);
  }
}
