/** The chunked bump arena as a concurrent protocol: any number of threads carving spans
    lock-free through possibly stale descriptors, retiring spans, freeing in batches, and
    allocating or recycling chunks under the arena mutex, one atomic action per step.

    `spans` and `intent` are sequentially consistent. A relaxed cursor load may return anything,
    because only the compare-exchange that follows decides; the relaxed load of `freed` may
    return any value up to the current one. Where the order of actions inside a thread does not
    matter to safety (when to flush a batch, when to clear one's own span), the model allows any
    order. */
module ArenaProtocol {
  import opened Wrappers

  const MIN_ALIGN: nat := 16
  const ARENA_SPAN_BYTES: nat := 4096

  /** A request: bytes and alignment, both positive. */
  datatype Need = Need(size: nat, align: nat)

  ghost predicate Sane(n: Need) {
    n.size > 0 && n.align > 0
  }

  function AlignUp(n: nat, align: nat): nat
    requires align > 0
  {
    (n + align - 1) / align * align
  }

  ghost predicate Aligned(n: nat, align: nat) {
    align > 0 && n % align == 0
  }

  function Max(a: nat, b: nat): nat {
    if a < b then b else a
  }

  function AlignOf(n: Need): nat {
    Max(n.align, MIN_ALIGN)
  }

  /** Bytes a span carve reserves so that its front satisfies the request. */
  function Reserve(n: Need): nat {
    Max(n.size, ARENA_SPAN_BYTES) + if AlignOf(n) > MIN_ALIGN then AlignOf(n) else 0
  }

  /** One chunk: its memory, the atomics of its metadata, and two history counters of blocks
      ever handed out of it and ever freed back to it. */
  datatype Chunk = Chunk(base: nat, capacity: nat, cursor: nat,
                         intent: bool, spans: nat, carved: nat, freed: nat,
                         handed: nat, returned: nat)

  datatype Span = NoSpan | Span(chunk: nat, cursor: nat, end: nat, blocks: nat)

  /** Frees not yet added to a chunk's `freed`. */
  datatype Batch = Batch(chunk: nat, pending: nat)

  datatype Pc =
    | Idle
    // lock-free carve
    | Pinning(c: nat, need: Need)
    | Checking(c: nat, need: Need)
    | Carving(c: nat, need: Need)
    | Casing(c: nat, need: Need, cur: nat)
    | Unpinning(c: nat)
    | Retiring(c: nat, need: Need, lo: nat, hi: nat)
    | Retired(c: nat, need: Need, lo: nat, hi: nat, prior: nat)
    | Installing(c: nat, need: Need, lo: nat, hi: nat)
    // clearing one's own span before a slow-path visit
    | Clearing(prior: nat)
    // arena mutex held
    | Locked(need: Need)
    | Directing(need: Need, cur: nat)
    | Noting(c: nat, lo: nat, hi: nat, align: nat)
    | Advancing(need: Need)
    | Scanning(need: Need, i: nat)
    | Intending(need: Need, i: nat)
    | ScanSpans(need: Need, i: nat)
    | ScanCarved(need: Need, i: nat, pinned: bool)
    | ScanFreed(need: Need, i: nat, pinned: bool, carved: nat)
    | Deciding(need: Need, i: nat, pinned: bool, carved: nat, freed: nat)
    | Rewound(need: Need, i: nat)
    | Growing(need: Need)
    | Publishing
    | Unlocking

  /** `flight` is a batch taken but not yet added to its chunk's `freed`. */
  datatype Thread = Thread(pc: Pc, span: Span, batch: Batch, flight: Batch)

  /** A block handed out and not yet freed, with the alignment it was asked for. */
  datatype LiveBlock = LiveBlock(chunk: nat, lo: nat, hi: nat, align: nat)

  datatype State = State(chunks: seq<Chunk>, current: nat, published: nat, chunkSize: nat, maxChunks: nat,
                         holder: Option<nat>, threads: seq<Thread>, live: set<LiveBlock>)

  datatype Action =
    | Serve(need: Need)
    | Load(need: Need)
    | Pin
    | Check
    | LoadCursor(cur: nat)
    | Cas(ok: bool)
    | Unpin
    | RetireFlush
    | RetireUnpin
    | Install
    | ClearFlush
    | ClearUnpin
    | Free(b: LiveBlock)
    | FlushTake
    | FlushAdd
    | Lock(need: Need)
    | LockedLoad(cur: nat)
    | DirectCas(ok: bool)
    | Note
    | Advance
    | Scan
    | Intend
    | ReadSpans
    | ReadCarved
    | ReadFreed(seen: nat)
    | Decide
    | Finish
    | Grow(base: nat, mapped: bool)
    | Publish
    | Unlock

  ghost predicate InitState(s: State) {
    && |s.chunks| == 1 && s.current == 0 && s.published == 0 && s.maxChunks >= 1
    && s.chunks[0] == Chunk(s.chunks[0].base, s.chunkSize, s.chunks[0].base, false, 0, 0, 0, 0, 0)
    && s.holder == None && s.live == {}
    && forall t :: 0 <= t < |s.threads| ==> s.threads[t] == Thread(Idle, NoSpan, Batch(0, 0), Batch(0, 0))
  }

  /** The chunk a thread's action edits. */
  ghost predicate ChunkIs(s: State, s': State, c: nat, ch: Chunk) {
    c < |s.chunks| && s'.chunks == s.chunks[c := ch]
  }

  /** Everything but thread `t` (which becomes `th`) and the chunks stays. */
  ghost predicate OnlyThread(s: State, s': State, t: nat, th: Thread) {
    && t < |s.threads| && s'.threads == s.threads[t := th]
    && s'.chunkSize == s.chunkSize && s'.maxChunks == s.maxChunks
  }

  ghost predicate SameShared(s: State, s': State) {
    s'.current == s.current && s'.published == s.published && s'.holder == s.holder
  }

  /** A step of the lock-free carve: only thread `t` moves, to `pc`, and no block changes hands. */
  ghost predicate Moves(s: State, s': State, t: nat, th: Thread) {
    OnlyThread(s, s', t, th) && SameShared(s, s') && s'.live == s.live
  }

  ghost predicate CarveStep(s: State, s': State, t: nat, a: Action)
    requires t < |s.threads|
  {
    var th := s.threads[t];
    match a
    case Serve(need) =>
      // pure thread-local bump inside the open span
      && th.pc.Idle? && th.span.Span? && Sane(need) && th.span.chunk < |s.chunks|
      && var lo := AlignUp(th.span.cursor, AlignOf(need));
         && lo + need.size <= th.span.end
         && var ch := s.chunks[th.span.chunk];
            && OnlyThread(s, s', t, th.(span := th.span.(cursor := lo + need.size, blocks := th.span.blocks + 1)))
            && SameShared(s, s')
            && s'.live == s.live + {LiveBlock(th.span.chunk, lo, lo + need.size, AlignOf(need))}
            && ChunkIs(s, s', th.span.chunk, ch.(handed := ch.handed + 1))
    case Load(need) =>
      && th.pc.Idle? && Sane(need)
      && Moves(s, s', t, th.(pc := Pinning(s.published, need))) && s'.chunks == s.chunks
    case Pin =>
      && th.pc.Pinning? && th.pc.c < |s.chunks|
      && Moves(s, s', t, th.(pc := Checking(th.pc.c, th.pc.need)))
      && var ch := s.chunks[th.pc.c]; ChunkIs(s, s', th.pc.c, ch.(spans := ch.spans + 1))
    case Check =>
      && th.pc.Checking? && th.pc.c < |s.chunks| && s'.chunks == s.chunks
      && Moves(s, s', t, th.(pc := if s.chunks[th.pc.c].intent then Unpinning(th.pc.c)
          else Carving(th.pc.c, th.pc.need)))
    case LoadCursor(cur) =>
      && th.pc.Carving? && s'.chunks == s.chunks
      && Moves(s, s', t, th.(pc := Casing(th.pc.c, th.pc.need, cur)))
    case Cas(ok) =>
      && th.pc.Casing? && th.pc.c < |s.chunks|
      && var ch := s.chunks[th.pc.c];
         var lo := AlignUp(th.pc.cur, MIN_ALIGN);
         var hi := lo + Reserve(th.pc.need);
         if hi > ch.base + ch.capacity then
           Moves(s, s', t, th.(pc := Unpinning(th.pc.c))) && s'.chunks == s.chunks
         else if ok && ch.cursor == th.pc.cur then
           Moves(s, s', t, th.(pc := Retiring(th.pc.c, th.pc.need, lo, hi)))
               && ChunkIs(s, s', th.pc.c, ch.(cursor := hi))
         else
           Moves(s, s', t, th.(pc := Carving(th.pc.c, th.pc.need))) && s'.chunks == s.chunks
    case Unpin =>
      && th.pc.Unpinning? && th.pc.c < |s.chunks| && s.chunks[th.pc.c].spans > 0
      && Moves(s, s', t, th.(pc := Idle))
      && var ch := s.chunks[th.pc.c]; ChunkIs(s, s', th.pc.c, ch.(spans := ch.spans - 1))
    case RetireFlush =>
      && th.pc.Retiring?
      && if th.span.NoSpan? then
           Moves(s, s', t, th.(pc := Installing(th.pc.c, th.pc.need, th.pc.lo, th.pc.hi))) && s'.chunks == s.chunks
         else
           && th.span.chunk < |s.chunks|
           && Moves(s, s', t, th.(pc := Retired(th.pc.c, th.pc.need, th.pc.lo, th.pc.hi, th.span.chunk),
               span := NoSpan))
           && var ch := s.chunks[th.span.chunk]; ChunkIs(s, s', th.span.chunk,
               ch.(carved := ch.carved + th.span.blocks))
    case RetireUnpin =>
      && th.pc.Retired? && th.pc.prior < |s.chunks| && s.chunks[th.pc.prior].spans > 0
      && Moves(s, s', t, th.(pc := Installing(th.pc.c, th.pc.need, th.pc.lo, th.pc.hi)))
      && var ch := s.chunks[th.pc.prior]; ChunkIs(s, s', th.pc.prior, ch.(spans := ch.spans - 1))
    case Install =>
      && th.pc.Installing? && th.pc.c < |s.chunks| && Sane(th.pc.need)
      && var lo := AlignUp(th.pc.lo, AlignOf(th.pc.need));
         var hi := lo + th.pc.need.size;
         var ch := s.chunks[th.pc.c];
         && OnlyThread(s, s', t, th.(pc := Idle, span := Span(th.pc.c, hi, th.pc.hi, 1))) && SameShared(s, s')
         && s'.live == s.live + {LiveBlock(th.pc.c, lo, hi, AlignOf(th.pc.need))}
         && ChunkIs(s, s', th.pc.c, ch.(handed := ch.handed + 1))
    case ClearFlush =>
      && th.pc.Idle? && th.span.Span? && th.span.chunk < |s.chunks|
      && Moves(s, s', t, th.(pc := Clearing(th.span.chunk), span := NoSpan))
      && var ch := s.chunks[th.span.chunk]; ChunkIs(s, s', th.span.chunk, ch.(carved := ch.carved + th.span.blocks))
    case ClearUnpin =>
      && th.pc.Clearing? && th.pc.prior < |s.chunks| && s.chunks[th.pc.prior].spans > 0
      && Moves(s, s', t, th.(pc := Idle))
      && var ch := s.chunks[th.pc.prior]; ChunkIs(s, s', th.pc.prior, ch.(spans := ch.spans - 1))
    case _ => false
  }

  ghost predicate FreeStep(s: State, s': State, t: nat, a: Action)
    requires t < |s.threads|
  {
    var th := s.threads[t];
    match a
    case Free(b) =>
      // the block is dead as soon as it is freed; the batch of another chunk starts its flight
      && th.pc.Idle? && b in s.live && b.chunk < |s.chunks|
      && var same := th.batch.pending == 0 || th.batch.chunk == b.chunk;
         && (!same ==> th.flight.pending == 0)
         && OnlyThread(s, s', t, if same then th.(batch := Batch(b.chunk, th.batch.pending + 1))
                                 else th.(batch := Batch(b.chunk, 1), flight := th.batch))
         && SameShared(s, s') && s'.live == s.live - {b}
         && var ch := s.chunks[b.chunk]; ChunkIs(s, s', b.chunk, ch.(returned := ch.returned + 1))
    case FlushTake =>
      && th.pc.Idle? && th.flight.pending == 0
      && Moves(s, s', t, th.(flight := th.batch, batch := th.batch.(pending := 0))) && s'.chunks == s.chunks
    case FlushAdd =>
      && th.pc.Idle? && th.flight.chunk < |s.chunks|
      && Moves(s, s', t, th.(flight := th.flight.(pending := 0)))
      && var ch := s.chunks[th.flight.chunk]; ChunkIs(s, s', th.flight.chunk,
          ch.(freed := ch.freed + th.flight.pending))
    case _ => false
  }

  ghost predicate LockStep(s: State, s': State, t: nat, a: Action)
    requires t < |s.threads|
  {
    var th := s.threads[t];
    match a
    case Lock(need) =>
      && th.pc.Idle? && s.holder == None && Sane(need)
      && OnlyThread(s, s', t, th.(pc := Locked(need)))
      && s'.holder == Some(t) && s'.current == s.current && s'.published == s.published
      && s'.live == s.live && s'.chunks == s.chunks
    case LockedLoad(cur) =>
      && th.pc.Locked? && s'.chunks == s.chunks
      && Moves(s, s', t, th.(pc := Directing(th.pc.need, cur)))
    case DirectCas(ok) =>
      && th.pc.Directing? && s.current < |s.chunks| && Sane(th.pc.need)
      && var ch := s.chunks[s.current];
         var lo := AlignUp(th.pc.cur, AlignOf(th.pc.need));
         var hi := lo + th.pc.need.size;
         if hi > ch.base + ch.capacity then
           Moves(s, s', t, th.(pc := Advancing(th.pc.need))) && s'.chunks == s.chunks
         else if ok && ch.cursor == th.pc.cur then
           Moves(s, s', t, th.(pc := Noting(s.current, lo, hi, AlignOf(th.pc.need))))
               && ChunkIs(s, s', s.current, ch.(cursor := hi))
         else
           Moves(s, s', t, th.(pc := Locked(th.pc.need))) && s'.chunks == s.chunks
    case Note =>
      // the direct block is counted, then handed out
      && th.pc.Noting? && th.pc.c < |s.chunks|
      && OnlyThread(s, s', t, th.(pc := Publishing)) && SameShared(s, s')
      && s'.live == s.live + {LiveBlock(th.pc.c, th.pc.lo, th.pc.hi, th.pc.align)}
      && var ch := s.chunks[th.pc.c]; ChunkIs(s, s', th.pc.c, ch.(carved := ch.carved + 1, handed := ch.handed + 1))
    case Advance =>
      && th.pc.Advancing? && s.current < |s.chunks| && s'.chunks == s.chunks && s'.live == s.live
      && s'.published == s.published && s'.holder == s.holder
      && var tooBig := th.pc.need.size + AlignOf(th.pc.need) > Max(s.chunks[s.current].capacity, s.chunkSize);
         var next := !tooBig && s.current + 1 < |s.chunks|;
         && s'.current == (if next then s.current + 1 else s.current)
         && OnlyThread(s, s', t, th.(pc := if tooBig then Publishing else if next then Locked(th.pc.need)
             else Scanning(th.pc.need, 0)))
    case _ => false
  }

  ghost predicate ScanStep(s: State, s': State, t: nat, a: Action)
    requires t < |s.threads|
  {
    var th := s.threads[t];
    match a
    case Scan =>
      && th.pc.Scanning?
      && if th.pc.i >= |s.chunks| then
           Moves(s, s', t, th.(pc := Growing(th.pc.need))) && s'.chunks == s.chunks
         else if th.pc.i == s.current || s.chunks[th.pc.i].cursor == s.chunks[th.pc.i].base then
           Moves(s, s', t, th.(pc := Scanning(th.pc.need, th.pc.i + 1))) && s'.chunks == s.chunks
         else
           Moves(s, s', t, th.(pc := Intending(th.pc.need, th.pc.i))) && s'.chunks == s.chunks
    case Intend =>
      && th.pc.Intending? && th.pc.i < |s.chunks|
      && Moves(s, s', t, th.(pc := ScanSpans(th.pc.need, th.pc.i)))
      && ChunkIs(s, s', th.pc.i, s.chunks[th.pc.i].(intent := true))
    case ReadSpans =>
      && th.pc.ScanSpans? && th.pc.i < |s.chunks| && s'.chunks == s.chunks
      && Moves(s, s', t, th.(pc := ScanCarved(th.pc.need, th.pc.i, s.chunks[th.pc.i].spans != 0)))
    case ReadCarved =>
      && th.pc.ScanCarved? && th.pc.i < |s.chunks| && s'.chunks == s.chunks
      && Moves(s, s', t, th.(pc := ScanFreed(th.pc.need, th.pc.i, th.pc.pinned, s.chunks[th.pc.i].carved)))
    case ReadFreed(seen) =>
      // relaxed: any earlier value of a counter that only grows
      && th.pc.ScanFreed? && th.pc.i < |s.chunks| && seen <= s.chunks[th.pc.i].freed && s'.chunks == s.chunks
      && Moves(s, s', t, th.(pc := Deciding(th.pc.need, th.pc.i, th.pc.pinned, th.pc.carved, seen)))
    case Decide =>
      && th.pc.Deciding? && th.pc.i < |s.chunks|
      && var ch := s.chunks[th.pc.i];
         if th.pc.pinned || th.pc.carved == 0 || th.pc.freed != th.pc.carved then
           && Moves(s, s', t, th.(pc := Scanning(th.pc.need, th.pc.i + 1)))
           && ChunkIs(s, s', th.pc.i, ch.(intent := false))
         else
           && Moves(s, s', t, th.(pc := Rewound(th.pc.need, th.pc.i)))
           && ChunkIs(s, s', th.pc.i, ch.(cursor := ch.base))
    case Finish =>
      && th.pc.Rewound? && th.pc.i < |s.chunks|
      && OnlyThread(s, s', t, th.(pc := Locked(th.pc.need)))
      && s'.current == th.pc.i && s'.published == s.published && s'.holder == s.holder && s'.live == s.live
      && ChunkIs(s, s', th.pc.i, s.chunks[th.pc.i].(intent := false))
    case Grow(base, mapped) =>
      && th.pc.Growing? && s'.live == s.live && s'.published == s.published && s'.holder == s.holder
      && if mapped && |s.chunks| < s.maxChunks then
           && FreshChunk(s, base)
           && OnlyThread(s, s', t, th.(pc := Locked(th.pc.need)))
           && s'.chunks == s.chunks + [Chunk(base, s.chunkSize, base, false, 0, 0, 0, 0, 0)]
           && s'.current == s.current + 1
         else
           && OnlyThread(s, s', t, th.(pc := Publishing))
           && s'.chunks == s.chunks && s'.current == s.current
    case Publish =>
      && th.pc.Publishing? && OnlyThread(s, s', t, th.(pc := Unlocking)) && s'.chunks == s.chunks
      && s'.published == s.current && s'.current == s.current && s'.holder == s.holder && s'.live == s.live
    case Unlock =>
      && th.pc.Unlocking? && OnlyThread(s, s', t, th.(pc := Idle)) && s'.chunks == s.chunks
      && s'.holder == None && s'.current == s.current && s'.published == s.published && s'.live == s.live
    case _ => false
  }

  /** A freshly mapped chunk overlaps no chunk that is already mapped. */
  ghost predicate FreshChunk(s: State, base: nat) {
    forall c :: 0 <= c < |s.chunks| ==>
      base + s.chunkSize <= s.chunks[c].base || s.chunks[c].base + s.chunks[c].capacity <= base
  }

  ghost predicate Step(s: State, s': State, t: nat, a: Action) {
    && t < |s.threads|
    && (CarveStep(s, s', t, a) || FreeStep(s, s', t, a) || LockStep(s, s', t, a) || ScanStep(s, s', t, a))
  }

  ghost predicate Next(s: State, s': State) {
    exists t, a :: Step(s, s', t, a)
  }

  /** A finite run from an initial state. */
  ghost predicate Run(states: seq<State>) {
    && |states| > 0 && InitState(states[0])
    && forall i :: 0 < i < |states| ==> Next(states[i - 1], states[i])
  }

  ghost predicate Reachable(s: State) {
    exists states: seq<State> :: Run(states) && states[|states| - 1] == s
  }
}
