/** The bump arena driven by one thread, recycling on, no reset: the chunk chain, the thread's span
    and free batch, and the exhaustion latch. */
module SoloArena {
  import opened Wrappers
  import opened ArenaProtocol
  import ArenaWindows

  const CHUNK_BYTES: nat := 0x10_0000

  datatype Link = Link(base: nat, cursor: nat, spans: nat, carved: nat, freed: nat)

  /** The thread's private bump window. */
  datatype Window = Window(at: nat, cursor: nat, end: nat, blocks: nat)

  datatype Piece = Piece(lo: nat, hi: nat)

  ghost predicate Clear(p: Piece, lo: nat, hi: nat) {
    p.hi <= lo || hi <= p.lo
  }

  ghost predicate ShapeOk(chunks: seq<Link>, current: nat, maxChunks: nat) {
    && current < |chunks| <= maxChunks
    && (forall i :: 0 <= i < |chunks| ==>
          chunks[i].base % CHUNK_BYTES == 0 && chunks[i].base <= chunks[i].cursor <= chunks[i].base + CHUNK_BYTES)
    && (forall i, j :: 0 <= i < j < |chunks| ==> chunks[i].base != chunks[j].base)
  }

  ghost predicate PiecesApart(pieces: set<Piece>) {
    forall p, q :: p in pieces && q in pieces && p != q ==> Clear(p, q.lo, q.hi)
  }

  ghost predicate PiecesWithin(pieces: set<Piece>, lo: nat, hi: nat) {
    forall p :: p in pieces ==> lo <= p.lo < p.hi <= hi
  }

  ghost predicate LiveOk(chunks: seq<Link>, live: seq<set<Piece>>) {
    && |live| == |chunks|
    && forall i :: 0 <= i < |chunks| ==> PiecesApart(live[i]) && PiecesWithin(live[i], chunks[i].base, chunks[i].cursor)
  }

  ghost predicate WindowOk(chunks: seq<Link>, live: seq<set<Piece>>, w: Option<Window>)
    requires |live| == |chunks|
  {
    w.Some? ==>
      && w.value.at < |chunks| && w.value.blocks > 0
      && chunks[w.value.at].base <= w.value.cursor <= w.value.end <= chunks[w.value.at].cursor
      && forall p :: p in live[w.value.at] ==> Clear(p, w.value.cursor, w.value.end)
  }

  function Served(w: Option<Window>, i: nat): nat {
    if w.Some? && w.value.at == i then w.value.blocks else 0
  }

  function Opened(w: Option<Window>, i: nat): nat {
    if w.Some? && w.value.at == i then 1 else 0
  }

  function Owed(batch: nat, pending: nat, i: nat): nat {
    if batch == i then pending else 0
  }

  /** Blocks handed out of a chunk are live, freed or in the pending batch; the counters say so. */
  ghost predicate CountsOk(chunks: seq<Link>, live: seq<set<Piece>>, w: Option<Window>, batch: nat, pending: nat)
    requires |live| == |chunks|
  {
    && (pending > 0 ==> batch < |chunks|)
    && forall i :: 0 <= i < |chunks| ==>
      && |live[i]| + chunks[i].freed + Owed(batch, pending, i) == chunks[i].carved + Served(w, i)
      && chunks[i].spans == Opened(w, i)
      && (chunks[i].cursor > chunks[i].base ==> chunks[i].carved + Served(w, i) > 0)
  }

  /** No empty chunk is stranded off `current`. */
  ghost predicate NoneStranded(chunks: seq<Link>, current: nat) {
    forall i :: 0 <= i < |chunks| && i != current ==> chunks[i].cursor > chunks[i].base
  }

  ghost predicate Busy(live: seq<set<Piece>>, current: nat) {
    forall i :: 0 <= i < |live| && i != current ==> live[i] != {}
  }

  /** No span open, something carved, all of it freed. */
  predicate Quiet(c: Link) {
    c.spans == 0 && c.carved != 0 && c.freed == c.carved
  }

  /** Off `current` every used chunk is pinned, uncounted or unfreed. */
  ghost predicate NothingQuiet(chunks: seq<Link>, current: nat) {
    forall i :: 0 <= i < |chunks| && i != current && chunks[i].cursor > chunks[i].base ==> !Quiet(chunks[i])
  }

  predicate FitsChunk(size: nat, align: nat) {
    size + Max(align, MIN_ALIGN) <= CHUNK_BYTES
  }

  /** The aligned request fits past the chunk's cursor. */
  predicate Room(c: Link, size: nat, align: nat) {
    AlignUp(c.cursor, Max(align, MIN_ALIGN)) + size <= c.base + CHUNK_BYTES
  }

  ghost predicate NoRoomFrom(chunks: seq<Link>, from: nat, size: nat, align: nat) {
    forall i :: from <= i < |chunks| ==> !Room(chunks[i], size, align)
  }

  /** When a chunk-fitting request is refused: no room from the current chunk to the end of the chain,
      nothing before the end to recycle, and no chunk to be had. */
  ghost predicate Refused(chunks: seq<Link>, current: nat, maxChunks: nat, size: nat, align: nat, answer: Option<nat>) {
    && |chunks| > 0 && NoRoomFrom(chunks, current, size, align) && NothingQuiet(chunks, |chunks| - 1)
    && (|chunks| == maxChunks || answer.None?)
  }

  /** The chunks as they are once the thread's own batch and window are flushed. */
  function Unblocked(chunks: seq<Link>, w: Option<Window>, batch: nat, pending: nat): (r: seq<Link>)
    ensures |r| == |chunks|
  {
    seq(|chunks|, i requires 0 <= i < |chunks| => chunks[i].(freed := chunks[i].freed + Owed(batch, pending, i),
        carved := chunks[i].carved + Served(w, i), spans := 0))
  }

  ghost predicate SameCursors(chunks: seq<Link>, chunks': seq<Link>) {
    && |chunks'| == |chunks|
    && forall i :: 0 <= i < |chunks| ==>
      chunks'[i].base == chunks[i].base && chunks'[i].cursor == chunks[i].cursor
  }

  /** At most one chunk is added, the one the kernel granted. */
  ghost predicate Grew(chunks: seq<Link>, chunks': seq<Link>, answer: Option<nat>) {
    |chunks'| > |chunks| ==>
      answer.Some? && |chunks'| == |chunks| + 1 && chunks'[|chunks|].base == answer.value
  }

  /** Chunks stay mapped where they are, and no cursor moves but the current chunk's. */
  ghost predicate OthersStay(chunks: seq<Link>, chunks': seq<Link>, current: nat) {
    && |chunks| <= |chunks'|
    && forall i :: 0 <= i < |chunks| ==>
      chunks'[i].base == chunks[i].base && (i != current ==> chunks'[i].cursor == chunks[i].cursor)
  }

  // ---- value lemmas ----------------------------------------------------------------------

  lemma AddPiece(pieces: set<Piece>, lo: nat, hi: nat, from: nat, to: nat, to': nat)
    requires PiecesApart(pieces) && PiecesWithin(pieces, from, to) && to <= to'
    requires from <= lo < hi <= to' && forall p :: p in pieces ==> Clear(p, lo, hi)
    ensures Piece(lo, hi) !in pieces && |pieces + {Piece(lo, hi)}| == |pieces| + 1
    ensures PiecesApart(pieces + {Piece(lo, hi)}) && PiecesWithin(pieces + {Piece(lo, hi)}, from, to')
  {
  }

  /** Distinct chunks are distinct aligned ranges. */
  lemma ChunksApart(a: nat, b: nat)
    requires a % CHUNK_BYTES == 0 && b % CHUNK_BYTES == 0 && a != b
    ensures a + CHUNK_BYTES <= b || b + CHUNK_BYTES <= a
  {
  }

  /** A block bumped past a chunk's cursor touches no live block of any chunk. */
  lemma FreshAnywhere(chunks: seq<Link>, current: nat, maxChunks: nat, live: seq<set<Piece>>, i: nat, lo: nat, hi: nat)
    requires ShapeOk(chunks, current, maxChunks) && LiveOk(chunks, live) && i < |chunks|
    requires chunks[i].base <= lo <= hi <= chunks[i].base + CHUNK_BYTES
    requires forall p :: p in live[i] ==> Clear(p, lo, hi)
    ensures forall j, p :: 0 <= j < |live| && p in live[j] ==> Clear(p, lo, hi)
  {
    hide PiecesApart;
    forall j, p | 0 <= j < |live| && p in live[j] ensures Clear(p, lo, hi) {
      if j != i { ChunksApart(chunks[i].base, chunks[j].base); }
    }
  }

  /** An empty chunk takes any chunk-fitting request. */
  lemma EmptyFits(base: nat, size: nat, align: nat)
    requires FitsChunk(size, align)
    ensures base <= AlignUp(base, Max(align, MIN_ALIGN))
              && AlignUp(base, Max(align, MIN_ALIGN)) + size <= base + CHUNK_BYTES
  {
    ArenaWindows.AlignUpBounds(base, Max(align, MIN_ALIGN));
  }

  lemma NoPieces(s: set<Piece>)
    ensures |s| == 0 ==> s == {}
    ensures s == {} ==> |s| == 0
  {
  }

  class BumpArena {
    var chunks: seq<Link>
    var current: nat
    const maxChunks: nat
    /** Whether the current chunk's descriptor is published to the lock-free carve. */
    var published: bool
    var exhausted: bool
    var span: Option<Window>
    var batch: nat
    var pending: nat
    /** Per chunk, the blocks handed out and not yet freed. */
    ghost var live: seq<set<Piece>>

    ghost predicate ChainOk()
      reads this
    {
      && ShapeOk(chunks, current, maxChunks) && LiveOk(chunks, live)
      && WindowOk(chunks, live, span) && CountsOk(chunks, live, span, batch, pending)
    }

    ghost predicate Valid()
      reads this
    {
      && ChainOk() && NoneStranded(chunks, current)
      && (exhausted ==> span.None? && pending == 0 && current + 1 == |chunks| == maxChunks && Busy(live, current))
    }

    ghost predicate FreshBase(answer: Option<nat>)
      reads this
    {
      answer.Some? ==> answer.value % CHUNK_BYTES == 0 && forall i :: 0 <= i < |chunks| ==>
          chunks[i].base != answer.value
    }

    constructor (base: nat, maxChunks: nat)
      requires base % CHUNK_BYTES == 0 && maxChunks >= 1
      ensures Valid() && live == [{}] && !exhausted && this.maxChunks == maxChunks
      ensures chunks == [Link(base, base, 0, 0, 0)] && current == 0 && span.None? && pending == 0 && !published
    {
      chunks, current, published, exhausted := [Link(base, base, 0, 0, 0)], 0, false, false;
      span, batch, pending, live := None, 0, 0, [{}];
      this.maxChunks := maxChunks;
    }

    /** Bump chunk `i`, counting the block as carved: exactly when it fits past the cursor. */
    method BumpDirect(i: nat, size: nat, align: nat) returns (r: Option<nat>)
      requires ChainOk() && i < |chunks| && size > 0
      modifies `chunks, `live
      ensures ChainOk()
      ensures var at := AlignUp(old(chunks[i]).cursor, Max(align, MIN_ALIGN));
        r == if at + size <= old(chunks[i]).base + CHUNK_BYTES then Some(at) else None
      ensures r.None? ==> chunks == old(chunks) && live == old(live)
      ensures r.Some? ==>
        && Aligned(r.value, Max(align, MIN_ALIGN))
        && chunks == old(chunks)[i := old(chunks[i]).(cursor := r.value + size, carved := old(chunks[i]).carved + 1)]
        && live == old(live)[i := old(live[i]) + {Piece(r.value, r.value + size)}]
        && (forall j, p :: 0 <= j < |old(live)| && p in old(live)[j] ==> Clear(p, r.value, r.value + size))
    {
      hide AlignUp, Aligned, PiecesApart, PiecesWithin, FitsChunk, ShapeOk, LiveOk, WindowOk, CountsOk;
      LinkFacts(i);
      var c := chunks[i];
      var at := AlignUp(c.cursor, Max(align, MIN_ALIGN));
      ArenaWindows.AlignUpBounds(c.cursor, Max(align, MIN_ALIGN));
      if at + size > c.base + CHUNK_BYTES {
        return None;
      }
      AheadOfAll(live[i], c.base, c.cursor, at, at + size);
      FreshAnywhere(chunks, current, maxChunks, live, i, at, at + size);
      chunks := chunks[i := c.(cursor := at + size, carved := c.carved + 1)];
      ShapeRaised(old(chunks), current, maxChunks, chunks);
      LiveAdd(old(chunks), live, i, at, at + size, chunks);
      live := live[i := live[i] + {Piece(at, at + size)}];
      WindowStays(old(chunks), old(live), i, at, at + size, span, chunks, live);
      CountDirect(old(chunks), old(live), i, at, at + size, span, batch, pending);
      return Some(at);
    }

    lemma LinkFacts(i: nat)
      requires ChainOk() && i < |chunks|
      ensures |chunks| == |live| && chunks[i].base <= chunks[i].cursor <= chunks[i].base + CHUNK_BYTES
      ensures PiecesWithin(live[i], chunks[i].base, chunks[i].cursor)
    {
    }

    /** Find a chunk off `current` with no open span and every carved block freed, and rewind it. */
    method TryRecycle() returns (r: Option<nat>)
      requires ChainOk()
      modifies `chunks
      ensures ChainOk() && |chunks| == |old(chunks)|
      ensures r.None? ==> chunks == old(chunks) && NothingQuiet(chunks, current)
      ensures r.Some? ==> !NothingQuiet(old(chunks), current)
      ensures r.Some? ==>
        && r.value < |chunks| && r.value != current && live[r.value] == {}
        && chunks == old(chunks)[r.value := old(chunks)[r.value].(cursor := old(chunks)[r.value].base)]
    {
      hide AlignUp, Aligned, PiecesApart;
      for i := 0 to |chunks|
        invariant chunks == old(chunks)
        invariant forall k :: 0 <= k < i && k != current && chunks[k].cursor > chunks[k].base ==> !Quiet(chunks[k])
      {
        if i == current {
          continue;
        }
        var c := chunks[i];
        if c.cursor == c.base {
          continue;
        }
        var pinned := c.spans != 0;
        if pinned || c.carved == 0 || c.freed != c.carved {
          continue;
        }
        NoPieces(live[i]);
        chunks := chunks[i := c.(cursor := c.base)];
        return Some(i);
      }
      return None;
    }

    /** A failure that means the whole arena is out of room, not that the request was over-large. */
    predicate ExhaustedAfterFailed(size: nat, align: nat)
      reads this
    {
      |chunks| == maxChunks && FitsChunk(size, align)
    }

    /** `BumpArena::alloc`: the current chunk, then the rest of the chain, then a recycled chunk, then
        a fresh one. It fails only for want of room: an over-large request, a refused mapping, or the
        cap with every other chunk pinned, unfreed or uncounted. */
    method AllocDirect(size: nat, align: nat, answer: Option<nat>) returns (r: Option<nat>)
      requires ChainOk() && NoneStranded(chunks, current) && FreshBase(answer)
      modifies `chunks, `live, `current
      ensures ChainOk() && NoneStranded(chunks, current) && Kept(old(live), live)
      ensures r.Some? ==> Aligned(r.value, Max(align, MIN_ALIGN))
                          && current < |live| && Piece(r.value, r.value + size) in live[current]
                          && live == Grown(old(live), |live|)[current := Grown(old(live), |live|)[current]
                              + {Piece(r.value, r.value + size)}]
                          && (forall j, p :: 0 <= j < |old(live)| && p in old(live)[j] ==>
                              Clear(p, r.value, r.value + size))
      ensures r.None? ==> live == old(live) && chunks == old(chunks)
      ensures OthersStay(old(chunks), chunks, current) && Grew(old(chunks), chunks, answer)
      ensures size == 0 ==> r.None?
      ensures size > 0 && FitsChunk(size, align) ==>
                (r.None? <==> Refused(old(chunks), old(current), maxChunks, size, align, answer))
      ensures r.None? && size > 0 && FitsChunk(size, align) ==> current + 1 == |chunks| && NothingQuiet(chunks, current)
      ensures r.None? && size > 0 && answer.Some? ==> (ExhaustedAfterFailed(size, align) <==> FitsChunk(size, align))
    {
      hide AlignUp, Aligned, ShapeOk, LiveOk, WindowOk, CountsOk, FitsChunk, NothingQuiet, Clear, Quiet, OthersStay;
      ChainFacts();
      SameStay(chunks, current);
      if size == 0 {
        return None;
      }
      GrownSame(live);
      r := BumpDirect(current, size, align);
      BumpStay(old(chunks), old(chunks), chunks, current);
      if r.Some? || !FitsChunk(size, align) {
        return;
      }
      NotEmpty(current, size, align);
      while true
        invariant ChainOk() && current < |chunks| && NoneStranded(chunks, current) && FreshBase(answer)
        invariant chunks == old(chunks) && live == old(live) && chunks[current].cursor > chunks[current].base
        invariant old(current) <= current && forall i :: old(current) <= i <= current ==> !Room(chunks[i], size, align)
        decreases |chunks| - current
      {
        var moved := Advance(answer);
        ghost var advanced := chunks;
        ChainFacts();
        if !moved {
          return None;
        }
        if chunks[current].cursor == chunks[current].base {
          ServeEmpty(size, align);
        }
        r := BumpDirect(current, size, align);
        BumpStay(old(chunks), advanced, chunks, current);
        if r.Some? {
          return;
        }
        NotEmpty(current, size, align);
      }
    }

    /** The next chunk to try: the next one of the chain, else a recycled one, else a fresh one. */
    method Advance(answer: Option<nat>) returns (moved: bool)
      requires ChainOk() && NoneStranded(chunks, current) && FreshBase(answer)
      requires current < |chunks| && chunks[current].cursor > chunks[current].base
      modifies `chunks, `live, `current
      ensures ChainOk() && NoneStranded(chunks, current)
      ensures !moved ==> chunks == old(chunks) && live == old(live) && current == old(current)
      ensures !moved ==> current + 1 == |chunks| && NothingQuiet(chunks, current) && (answer.Some? ==>
                |chunks| == maxChunks)
      ensures moved ==> current < |chunks| && live == Grown(old(live), |live|) && |old(live)| <= |live|
      ensures OthersStay(old(chunks), chunks, current) && Grew(old(chunks), chunks, answer)
      ensures moved ==> (current == old(current) + 1 && chunks == old(chunks) && live == old(live))
                        || (chunks[current].cursor == chunks[current].base && old(current) + 1 == |old(chunks)|
                            && (NothingQuiet(old(chunks), old(current)) ==> |old(chunks)| < maxChunks && answer.Some?))
    {
      hide ShapeOk, LiveOk, WindowOk, CountsOk, NothingQuiet;
      ChainFacts();
      GrownSame(live);
      if current + 1 < |chunks| {
        current := current + 1;
        MovedCurrent(chunks, current - 1, maxChunks);
        return true;
      }
      var i := TryRecycle();
      if i.Some? {
        MovedRewound(old(chunks), chunks, current, i.value, maxChunks);
        current := i.value;
        return true;
      }
      if |chunks| >= maxChunks || answer.None? {
        return false;
      }
      Append(answer.value);
      return true;
    }

    lemma ChainFacts()
      requires ChainOk()
      ensures |live| == |chunks| && current < |chunks| <= maxChunks
    {
    }

    /** A fitting request that a chunk refused finds it nonempty. */
    lemma NotEmpty(i: nat, size: nat, align: nat)
      requires ChainOk() && i < |chunks| && FitsChunk(size, align)
      requires AlignUp(chunks[i].cursor, Max(align, MIN_ALIGN)) + size > chunks[i].base + CHUNK_BYTES
      ensures chunks[i].cursor > chunks[i].base
    {
      hide AlignUp;
      EmptyFits(chunks[i].base, size, align);
    }

    lemma ServeEmpty(size: nat, align: nat)
      requires current < |chunks| && chunks[current].cursor == chunks[current].base && FitsChunk(size, align)
      ensures AlignUp(chunks[current].cursor, Max(align, MIN_ALIGN)) + size <= chunks[current].base + CHUNK_BYTES
    {
      hide AlignUp;
      EmptyFits(chunks[current].base, size, align);
    }

    /** Chain a freshly mapped chunk and move to it. */
    method Append(base: nat)
      requires ChainOk() && NoneStranded(chunks, current) && chunks[current].cursor > chunks[current].base
      requires |chunks| < maxChunks && base % CHUNK_BYTES == 0 && forall i :: 0 <= i < |chunks| ==>
                chunks[i].base != base
      modifies `chunks, `live, `current
      ensures ChainOk() && NoneStranded(chunks, current)
      ensures chunks == old(chunks) + [Link(base, base, 0, 0, 0)] && live == old(live) + [{}]
                && current == |old(chunks)|
      ensures live == Grown(old(live), |live|)
    {
      hide PiecesApart, PiecesWithin;
      assert batch == |chunks| ==> pending == 0;
      chunks := chunks + [Link(base, base, 0, 0, 0)];
      live := live + [{}];
      current := |chunks| - 1;
      NoPieces({});
      EmptyPieces(base);
    }

    // ---- the thread's own window and batch -----------------------------------------------

    /** Add the pending frees to their chunk, and clear the latch if that completes the chunk. */
    method FlushBatch()
      requires ChainOk()
      modifies `chunks, `pending, `exhausted
      ensures ChainOk() && pending == 0 && live == old(live)
      ensures old(pending) == 0 ==> chunks == old(chunks) && exhausted == old(exhausted)
      ensures |chunks| == |old(chunks)| && forall i :: 0 <= i < |chunks| ==>
                chunks[i] == old(chunks)[i].(freed := old(chunks)[i].freed + Owed(batch, old(pending), i))
      ensures exhausted ==> old(exhausted)
      ensures old(exhausted) && old(pending) > 0 ==> (exhausted <==> !(Opened(span, batch) == 0 && live[batch] == {}))
    {
      hide ShapeOk, LiveOk, WindowOk, CountsOk;
      ChainFacts();
      var n := pending;
      if n == 0 {
        return;
      }
      FlushKeeps(chunks, current, maxChunks, live, span, batch, n);
      pending := 0;
      var freed := chunks[batch].freed + n;
      chunks := chunks[batch := chunks[batch].(freed := freed)];
      if exhausted && chunks[batch].spans == 0 && freed == chunks[batch].carved {
        exhausted := false;
      }
    }

    /** Flush the window's block count, release its pin, close it. */
    method RetireSpan()
      requires ChainOk()
      modifies `chunks, `span
      ensures ChainOk() && span == None && |chunks| == |old(chunks)|
      ensures forall i :: 0 <= i < |chunks| ==>
                chunks[i] == old(chunks)[i].(carved := old(chunks)[i].carved + Served(old(span), i), spans := 0)
    {
      hide PiecesApart, PiecesWithin;
      if span.Some? {
        var m := span.value.at;
        chunks := chunks[m := chunks[m].(carved := chunks[m].carved + span.value.blocks, spans := chunks[m].spans - 1)];
      }
      span := None;
    }

    method ClearOwnBlockers()
      requires ChainOk() && !exhausted
      modifies `chunks, `pending, `span, `exhausted
      ensures ChainOk() && span == None && pending == 0 && live == old(live) && !exhausted
      ensures chunks == Unblocked(old(chunks), old(span), batch, old(pending))
    {
      hide ShapeOk, LiveOk, WindowOk, CountsOk;
      ChainFacts();
      FlushBatch();
      ChainFacts();
      RetireSpan();
    }

    lemma SpanFacts()
      requires ChainOk() && span.Some?
      ensures span.value.at < |chunks| == |live|
      ensures chunks[span.value.at].base <= span.value.cursor
                && span.value.end <= chunks[span.value.at].cursor <= chunks[span.value.at].base + CHUNK_BYTES
      ensures forall p, lo, hi :: p in live[span.value.at] && span.value.cursor <= lo <= hi <= span.value.end ==>
                Clear(p, lo, hi)
    {
    }

    /** Serve from the open window. */
    method ServeSpan(size: nat, align: nat) returns (r: Option<nat>)
      requires ChainOk() && size > 0
      modifies `span, `live
      ensures ChainOk()
      ensures r == match old(span)
        case None => None
        case Some(w) => var at := AlignUp(w.cursor, Max(align, MIN_ALIGN)); if at + size <= w.end then Some(at)
            else None
      ensures r.None? ==> span == old(span) && live == old(live)
      ensures r.Some? ==> span == Some(old(span).value.(cursor := r.value + size, blocks := old(span).value.blocks + 1))
      ensures r.Some? ==>
        && Aligned(r.value, Max(align, MIN_ALIGN)) && old(span).Some? && span.Some?
            && span.value.at == old(span).value.at < |old(live)|
        && live == old(live)[span.value.at := old(live)[span.value.at] + {Piece(r.value, r.value + size)}]
        && (forall j, p :: 0 <= j < |old(live)| && p in old(live)[j] ==> Clear(p, r.value, r.value + size))
    {
      hide AlignUp, Aligned, PiecesApart, PiecesWithin, ShapeOk, LiveOk, WindowOk, CountsOk;
      if span.None? {
        return None;
      }
      SpanFacts();
      var w := span.value;
      var at := AlignUp(w.cursor, Max(align, MIN_ALIGN));
      ArenaWindows.AlignUpBounds(w.cursor, Max(align, MIN_ALIGN));
      if at + size > w.end {
        return None;
      }
      FreshAnywhere(chunks, current, maxChunks, live, w.at, at, at + size);
      LiveAdd(chunks, live, w.at, at, at + size, chunks);
      CountServed(chunks, live, w, batch, pending, at, at + size);
      span := Some(w.(cursor := at + size, blocks := w.blocks + 1));
      live := live[w.at := live[w.at] + {Piece(at, at + size)}];
      return Some(at);
    }

    /** Carve a fresh window from the published chunk, retire the old one, and serve its front. */
    method CarveSpan(size: nat, align: nat) returns (r: Option<nat>)
      requires ChainOk() && size > 0 && !exhausted
      modifies `span, `live, `chunks
      ensures ChainOk() && |chunks| == |old(chunks)|
      ensures forall i :: 0 <= i < |chunks| ==>
                chunks[i].base == old(chunks)[i].base && chunks[i].cursor >= old(chunks)[i].cursor
      ensures OthersStay(old(chunks), chunks, current)
      ensures current < |old(chunks)|
      ensures var lo, need := AlignUp(old(chunks)[current].cursor, MIN_ALIGN), Need(size, align);
        r == if published && lo + Reserve(need) <= old(chunks)[current].base + CHUNK_BYTES
            then Some(AlignUp(lo, AlignOf(need))) else None
      ensures r.None? ==> live == old(live) && chunks == old(chunks) && span == old(span)
      ensures r.Some? ==>
        && span == Some(Window(current, r.value + size, AlignUp(old(chunks)[current].cursor, MIN_ALIGN)
            + Reserve(Need(size, align)), 1))
        && Aligned(r.value, Max(align, MIN_ALIGN)) && current < |old(live)|
        && live == old(live)[current := old(live)[current] + {Piece(r.value, r.value + size)}]
        && (forall j, p :: 0 <= j < |old(live)| && p in old(live)[j] ==> Clear(p, r.value, r.value + size))
    {
      hide AlignUp, Aligned, PiecesApart, PiecesWithin, Reserve, ShapeOk, LiveOk, WindowOk, CountsOk, Clear, Served,
           Opened;
      ChainFacts();
      LinkFacts(current);
      if !published {
        return None;
      }
      var need := Need(size, align);
      var c := chunks[current];
      var lo := AlignUp(c.cursor, MIN_ALIGN);
      ArenaWindows.AlignUpBounds(c.cursor, MIN_ALIGN);
      if lo + Reserve(need) > c.base + CHUNK_BYTES {
        return None;
      }
      ReserveFits(need, lo);
      var at := AlignUp(lo, AlignOf(need));
      AheadOfAll(live[current], c.base, c.cursor, at, at + size);
      FreshAnywhere(chunks, current, maxChunks, live, current, at, at + size);
      RetireSpan();
      ChainFacts();
      LinkFacts(current);
      c := chunks[current];
      ghost var retired := chunks;
      chunks := chunks[current := c.(cursor := lo + Reserve(need), spans := c.spans + 1)];
      span := Some(Window(current, at + size, lo + Reserve(need), 1));
      ShapeRaised(retired, current, maxChunks, chunks);
      LiveAdd(retired, live, current, at, at + size, chunks);
      CountCarved(retired, live, current, batch, pending, at, at + size, chunks, span.value);
      live := live[current := live[current] + {Piece(at, at + size)}];
      return Some(at);
    }

    // ---- the arena arm -------------------------------------------------------------------

    /** The request fits the open window, or a window carved from the published chunk. */
    predicate Fast(size: nat, align: nat)
      reads this
    {
      || (span.Some? && AlignUp(span.value.cursor, Max(align, MIN_ALIGN)) + size <= span.value.end)
      || (published && current < |chunks| && AlignUp(chunks[current].cursor, MIN_ALIGN)
          + Reserve(Need(size, align)) <= chunks[current].base + CHUNK_BYTES)
    }

    /** One arena request. Served blocks are aligned, in bounds and clear of every live block. Off the
        latch a chunk-fitting request is refused exactly when neither window serves it and the arena,
        with this thread's own blockers cleared, has no room; every chunk but the last, then the
        current one, has a live block. When the kernel was willing, the cap is reached and the latch
        is set. */
    method Alloc(size: nat, align: nat, answer: Option<nat>) returns (r: Option<nat>)
      requires Valid() && size > 0 && FreshBase(answer)
      modifies `chunks, `live, `current, `span, `pending, `exhausted, `published
      ensures Valid()
      ensures r.None? ==> live == old(live)
      ensures r.Some? ==>
        && Aligned(r.value, Max(align, MIN_ALIGN)) && OneMore(old(live), live, Piece(r.value, r.value + size))
        && (forall j, p :: 0 <= j < |old(live)| && p in old(live)[j] ==> Clear(p, r.value, r.value + size))
      ensures !old(exhausted) && FitsChunk(size, align) ==>
                (r.None? <==> !old(Fast(size, align)) && Refused(Unblocked(old(chunks), old(span), batch, old(pending)),
                    old(current), maxChunks, size, align, answer))
      ensures !old(exhausted) && !old(Fast(size, align)) ==> span.None? && pending == 0
      ensures OthersStay(old(chunks), chunks, current) && Grew(old(chunks), chunks, answer)
      ensures r.None? ==> SameCursors(old(chunks), chunks)
      ensures r.None? && FitsChunk(size, align) ==> current + 1 == |chunks| >= |old(chunks)| && Busy(live, current)
      ensures r.None? && FitsChunk(size, align) && answer.Some? ==> exhausted && |chunks| == maxChunks
      ensures exhausted ==> r.None?
      ensures exhausted && !old(exhausted) ==> FitsChunk(size, align)
    {
      hide AlignUp, Aligned, ShapeOk, LiveOk, WindowOk, CountsOk, FitsChunk, NoneStranded, Clear, Refused, Reserve,
           OneMore, Unblocked;
      ChainFacts();
      if exhausted {
        return None;
      }
      r := ServeSpan(size, align);
      if r.Some? {
        AddedOne(old(live), span.value.at, Piece(r.value, r.value + size));
        return;
      }
      r := CarveSpan(size, align);
      if r.Some? {
        Risen(old(chunks), chunks, current);
        AddedOne(old(live), current, Piece(r.value, r.value + size));
        return;
      }
      r := AllocSlow(size, align, answer);
    }

    /** The slow path: clear one's own blockers, let the arena advance, publish what is current then,
        and latch exhaustion. */
    method AllocSlow(size: nat, align: nat, answer: Option<nat>) returns (r: Option<nat>)
      requires Valid() && size > 0 && FreshBase(answer) && !exhausted
      modifies `chunks, `live, `current, `span, `pending, `exhausted, `published
      ensures Valid() && span.None? && pending == 0
      ensures r.None? ==> live == old(live)
      ensures r.Some? ==>
        && Aligned(r.value, Max(align, MIN_ALIGN)) && OneMore(old(live), live, Piece(r.value, r.value + size))
        && (forall j, p :: 0 <= j < |old(live)| && p in old(live)[j] ==> Clear(p, r.value, r.value + size))
      ensures FitsChunk(size, align) ==>
                (r.None? <==> Refused(Unblocked(old(chunks), old(span), batch, old(pending)),
                    old(current), maxChunks, size, align, answer))
      ensures OthersStay(old(chunks), chunks, current) && Grew(old(chunks), chunks, answer)
      ensures r.None? ==> SameCursors(old(chunks), chunks)
      ensures r.None? && FitsChunk(size, align) ==> current + 1 == |chunks| && Busy(live, current)
      ensures r.None? && FitsChunk(size, align) && answer.Some? ==> exhausted && |chunks| == maxChunks
      ensures exhausted ==> r.None? && FitsChunk(size, align)
    {
      hide AlignUp, Aligned, ShapeOk, LiveOk, WindowOk, CountsOk, FitsChunk, NoneStranded, Clear, Refused;
      ChainFacts();
      ClearOwnBlockers();
      ChainFacts();
      ghost var cleared := chunks;
      Risen(old(chunks), cleared, current);
      r := AllocDirect(size, align, answer);
      ChainFacts();
      published := true;
      if r.Some? {
        GrownOne(old(live), live, current, Piece(r.value, r.value + size));
      }
      if r.None? && FitsChunk(size, align) {
        AllBusy();
      }
      if r.None? && ExhaustedAfterFailed(size, align) {
        exhausted := true;
      }
    }

    /** At the cap with nothing open or pending, a chunk that cannot be recycled has a live block. */
    lemma AllBusy()
      requires ChainOk() && NoneStranded(chunks, current) && span.None? && pending == 0
      requires NothingQuiet(chunks, current)
      ensures Busy(live, current)
    {
      hide PiecesApart, PiecesWithin;
      forall i | 0 <= i < |live| && i != current ensures live[i] != {} {
        NoPieces(live[i]);
      }
    }

    /** Free a live block. While the latch is set, freeing the last live block of any chunk clears
        it; anything else leaves it. */
    method Free(at: nat, p: Piece)
      requires Valid() && at < |live| && p in live[at]
      modifies `chunks, `live, `batch, `pending, `exhausted
      ensures Valid() && live == old(live)[at := old(live)[at] - {p}]
      ensures SameCursors(old(chunks), chunks)
      ensures exhausted <==> old(exhausted) && live[at] != {}
    {
      hide PiecesApart, PiecesWithin, NoneStranded, ShapeOk, LiveOk, WindowOk, CountsOk;
      ChainFacts();
      if batch != at {
        ghost var was := chunks;
        FlushBatch();
        ChainFacts();
        Risen(was, chunks, current);
      }
      PieceFreed(chunks, live, span, batch, pending, at, p);
      pending := if batch == at then pending + 1 else 1;
      batch := at;
      live := live[at := live[at] - {p}];
      if exhausted {
        ghost var was := chunks;
        FlushBatch();
        ChainFacts();
        Risen(was, chunks, current);
      }
    }

    /** Recovery: once exhausted, freeing the last live block of any chunk but the current lets the
        next chunk-fitting request be served, even if the kernel has no more memory. */
    method FreeThenAlloc(at: nat, p: Piece, size: nat, align: nat, answer: Option<nat>) returns (r: Option<nat>)
      requires Valid() && exhausted && at < |live| && at != current && live[at] == {p}
      requires size > 0 && FitsChunk(size, align) && FreshBase(answer)
      modifies `chunks, `live, `current, `span, `batch, `pending, `exhausted, `published
      ensures Valid() && r.Some?
    {
      hide ShapeOk, LiveOk, WindowOk, CountsOk, NoneStranded, AlignUp, Aligned, FitsChunk;
      ChainFacts();
      ghost var last := current;
      Free(at, p);
      ChainFacts();
      assert live[at] == {};
      r := Alloc(size, align, answer);
      ChainFacts();
    }
  }

  /** A freed block leaves the live blocks for the batch of its chunk. */
  lemma PieceFreed(chunks: seq<Link>, live: seq<set<Piece>>, w: Option<Window>, batch: nat, pending: nat, at: nat,
      p: Piece)
    requires LiveOk(chunks, live) && WindowOk(chunks, live, w) && CountsOk(chunks, live, w, batch, pending)
    requires at < |chunks| && p in live[at] && (batch != at ==> pending == 0)
    ensures var live' := live[at := live[at] - {p}];
      && LiveOk(chunks, live') && WindowOk(chunks, live', w)
      && CountsOk(chunks, live', w, at, if batch == at then pending + 1 else 1)
  {
    FewerPieces(live[at], p, chunks[at].base, chunks[at].cursor);
    hide PiecesApart, PiecesWithin;
  }

  /** Adding a batch to its chunk keeps the books, and completes the chunk exactly when nothing in it
      is live and no window is open there. */
  lemma FlushKeeps(chunks: seq<Link>, current: nat, maxChunks: nat, live: seq<set<Piece>>, w: Option<Window>,
      batch: nat, n: nat)
    requires ShapeOk(chunks, current, maxChunks) && LiveOk(chunks, live) && WindowOk(chunks, live, w)
    requires CountsOk(chunks, live, w, batch, n) && n > 0
    ensures batch < |chunks|
    ensures var freed := chunks[batch].freed + n;
      var chunks' := chunks[batch := chunks[batch].(freed := freed)];
      && ShapeOk(chunks', current, maxChunks) && LiveOk(chunks', live) && WindowOk(chunks', live, w)
      && CountsOk(chunks', live, w, batch, 0)
      && (chunks[batch].spans == 0 && freed == chunks[batch].carved <==> Opened(w, batch) == 0 && live[batch] == {})
  {
    hide PiecesApart, PiecesWithin;
    NoPieces(live[batch]);
  }

  // ---- value lemmas used by the methods --------------------------------------------------

  lemma ReserveFits(need: Need, lo: nat)
    requires need.size > 0 && Aligned(lo, MIN_ALIGN)
    ensures lo <= AlignUp(lo, AlignOf(need)) && AlignUp(lo, AlignOf(need)) + need.size <= lo + Reserve(need)
    ensures Aligned(AlignUp(lo, AlignOf(need)), AlignOf(need))
  {
    hide AlignUp, Aligned;
    ArenaWindows.FrontFits(Need(need.size, AlignOf(need)), lo);
  }

  lemma AheadOfAll(pieces: set<Piece>, from: nat, to: nat, lo: nat, hi: nat)
    requires PiecesWithin(pieces, from, to) && to <= lo
    ensures forall p :: p in pieces ==> Clear(p, lo, hi)
  {
  }

  /** A new block of chunk `i`, clear of the chunk's others and below its new cursor. */
  lemma LiveAdd(chunks: seq<Link>, live: seq<set<Piece>>, i: nat, lo: nat, hi: nat, chunks': seq<Link>)
    requires LiveOk(chunks, live) && i < |chunks| == |chunks'| && forall p :: p in live[i] ==> Clear(p, lo, hi)
    requires forall j :: 0 <= j < |chunks| ==>
              chunks'[j].base == chunks[j].base && chunks'[j].cursor >= chunks[j].cursor
    requires chunks[i].base <= lo < hi <= chunks'[i].cursor
    ensures LiveOk(chunks', live[i := live[i] + {Piece(lo, hi)}])
    ensures |live[i] + {Piece(lo, hi)}| == |live[i]| + 1
  {
    AddPiece(live[i], lo, hi, chunks[i].base, chunks[i].cursor, chunks'[i].cursor);
    hide PiecesApart;
    var live' := live[i := live[i] + {Piece(lo, hi)}];
    forall j | 0 <= j < |chunks| ensures PiecesApart(live'[j])
        && PiecesWithin(live'[j], chunks'[j].base, chunks'[j].cursor) {}
  }

  lemma CountDirect(chunks: seq<Link>, live: seq<set<Piece>>, i: nat, lo: nat, hi: nat, w: Option<Window>,
      batch: nat, pending: nat)
    requires |live| == |chunks| && i < |chunks| && CountsOk(chunks, live, w, batch, pending)
    requires |live[i] + {Piece(lo, hi)}| == |live[i]| + 1
    ensures CountsOk(chunks[i := chunks[i].(cursor := hi, carved := chunks[i].carved + 1)],
              live[i := live[i] + {Piece(lo, hi)}], w, batch, pending)
  {
  }

  /** A block served from the open window moves from the window to the live blocks. */
  lemma CountServed(chunks: seq<Link>, live: seq<set<Piece>>, w: Window, batch: nat, pending: nat, lo: nat, hi: nat)
    requires |live| == |chunks| && WindowOk(chunks, live, Some(w)) && CountsOk(chunks, live, Some(w), batch, pending)
    requires w.cursor <= lo < hi <= w.end && |live[w.at] + {Piece(lo, hi)}| == |live[w.at]| + 1
    ensures var (live', w') := (live[w.at := live[w.at] + {Piece(lo, hi)}],
              Some(w.(cursor := hi, blocks := w.blocks + 1)));
      WindowOk(chunks, live', w') && CountsOk(chunks, live', w', batch, pending)
  {
  }

  /** A fresh window past everything in its chunk, its front already served. */
  lemma CountCarved(chunks: seq<Link>, live: seq<set<Piece>>, i: nat, batch: nat, pending: nat, lo: nat, hi: nat,
                    chunks': seq<Link>, w: Window)
    requires LiveOk(chunks, live) && i < |chunks| && CountsOk(chunks, live, None, batch, pending)
    requires chunks[i].base <= chunks[i].cursor <= lo < hi <= w.end && w == Window(i, hi, w.end, 1)
    requires chunks' == chunks[i := chunks[i].(cursor := w.end, spans := chunks[i].spans + 1)]
    requires |live[i] + {Piece(lo, hi)}| == |live[i]| + 1
    ensures var live' := live[i := live[i] + {Piece(lo, hi)}];
      WindowOk(chunks', live', Some(w)) && CountsOk(chunks', live', Some(w), batch, pending)
  {
    hide PiecesApart;
    AheadOfAll(live[i], chunks[i].base, chunks[i].cursor, hi, w.end);
  }

  lemma ShapeRaised(chunks: seq<Link>, current: nat, maxChunks: nat, chunks': seq<Link>)
    requires ShapeOk(chunks, current, maxChunks) && |chunks'| == |chunks|
    requires forall j :: 0 <= j < |chunks| ==>
              chunks'[j].base == chunks[j].base && chunks[j].cursor <= chunks'[j].cursor
    requires forall j :: 0 <= j < |chunks| ==>
              chunks'[j].cursor == chunks[j].cursor || chunks'[j].cursor <= chunks[j].base + CHUNK_BYTES
    ensures ShapeOk(chunks', current, maxChunks)
  {
  }

  lemma FewerPieces(pieces: set<Piece>, p: Piece, from: nat, to: nat)
    requires p in pieces && PiecesApart(pieces) && PiecesWithin(pieces, from, to)
    ensures PiecesApart(pieces - {p}) && PiecesWithin(pieces - {p}, from, to) && |pieces - {p}| == |pieces| - 1
  {
  }

  lemma EmptyPieces(base: nat)
    ensures PiecesApart({}) && PiecesWithin({}, base, base)
  {
  }

  lemma WindowStays(chunks: seq<Link>, live: seq<set<Piece>>, i: nat, lo: nat, hi: nat, w: Option<Window>,
                    chunks': seq<Link>, live': seq<set<Piece>>)
    requires |live| == |chunks| == |live'| == |chunks'| && i < |chunks| && WindowOk(chunks, live, w)
    requires chunks[i].cursor <= lo < hi && chunks'[i].base == chunks[i].base && chunks'[i].cursor == hi
    requires forall j :: 0 <= j < |chunks| && j != i ==> chunks'[j] == chunks[j] && live'[j] == live[j]
    requires live'[i] == live[i] + {Piece(lo, hi)}
    ensures WindowOk(chunks', live', w)
  {
  }

  lemma MovedCurrent(chunks: seq<Link>, k: nat, maxChunks: nat)
    requires ShapeOk(chunks, k, maxChunks) && k + 1 < |chunks| && NoneStranded(chunks, k)
              && chunks[k].cursor > chunks[k].base
    ensures NoneStranded(chunks, k + 1) && ShapeOk(chunks, k + 1, maxChunks)
  {
  }

  /** Moving from a used chunk to a rewound one strands nothing. */
  lemma MovedRewound(chunks: seq<Link>, chunks': seq<Link>, k: nat, i: nat, maxChunks: nat)
    requires ShapeOk(chunks', k, maxChunks) && k < |chunks| && i < |chunks| && i != k
    requires NoneStranded(chunks, k) && chunks[k].cursor > chunks[k].base
    requires chunks' == chunks[i := chunks[i].(cursor := chunks[i].base)]
    ensures NoneStranded(chunks', i) && ShapeOk(chunks', i, maxChunks) && chunks'[i].cursor == chunks'[i].base
  {
  }

  lemma Risen(chunks: seq<Link>, chunks': seq<Link>, current: nat)
    requires |chunks| == |chunks'| && NoneStranded(chunks, current)
    requires forall i :: 0 <= i < |chunks| ==>
              chunks'[i].base == chunks[i].base && chunks'[i].cursor >= chunks[i].cursor
    ensures NoneStranded(chunks', current)
  {
  }

  /** The per-chunk live sets, padded with empty ones for chunks mapped since. */
  ghost function Grown(live: seq<set<Piece>>, n: nat): (r: seq<set<Piece>>)
    ensures |r| == if n < |live| then |live| else n
  {
    if n <= |live| then live else live + seq(n - |live|, i => {})
  }

  lemma GrownSame(live: seq<set<Piece>>)
    ensures Grown(live, |live|) == live
  {
  }

  ghost predicate Kept(live: seq<set<Piece>>, live': seq<set<Piece>>) {
    |live| <= |live'| && forall i :: 0 <= i < |live| ==> live[i] <= live'[i]
  }

  lemma AddedOne(live: seq<set<Piece>>, i: nat, p: Piece)
    requires i < |live|
    ensures OneMore(live, live[i := live[i] + {p}], p)
  {
    GrownSame(live);
    var live' := live[i := live[i] + {p}];
    assert live' == Grown(live, |live'|)[i := Grown(live, |live'|)[i] + {p}];
  }

  lemma SameStay(chunks: seq<Link>, current: nat)
    ensures OthersStay(chunks, chunks, current)
  {
  }

  /** An edit of the current chunk that leaves it mapped moves no other cursor. */
  lemma BumpStay(chunks: seq<Link>, chunks': seq<Link>, chunks'': seq<Link>, current: nat)
    requires OthersStay(chunks, chunks', current) && |chunks''| == |chunks'|
    requires current < |chunks'| && chunks''[current].base == chunks'[current].base
    requires chunks'' == chunks'[current := chunks''[current]]
    ensures OthersStay(chunks, chunks'', current)
  {
  }

  lemma GrownOne(live: seq<set<Piece>>, live': seq<set<Piece>>, i: nat, p: Piece)
    requires |live| <= |live'| && i < |live'|
    requires live' == Grown(live, |live'|)[i := Grown(live, |live'|)[i] + {p}]
    ensures OneMore(live, live', p)
  {
    hide Grown;
  }

  /** Exactly one block more, in some chunk. */
  ghost predicate OneMore(live: seq<set<Piece>>, live': seq<set<Piece>>, p: Piece) {
    exists i :: 0 <= i < |live'| && |live| <= |live'|
        && live' == Grown(live, |live'|)[i := Grown(live, |live'|)[i] + {p}]
  }

  // ---- a refusal beside a free chunk -----------------------------------------------------

  /** All of a chunk but one granule. */
  const BIG: nat := CHUNK_BYTES - MIN_ALIGN

  ghost predicate Full(c: Link) {
    c.cursor >= c.base + BIG
  }

  lemma FullServesNothing(c: Link, size: nat)
    requires Full(c) && size > MIN_ALIGN
    ensures !Room(c, size, MIN_ALIGN)
    ensures AlignUp(c.cursor, MIN_ALIGN) + Reserve(Need(size, MIN_ALIGN)) > c.base + CHUNK_BYTES
  {
    ArenaWindows.AlignUpBounds(c.cursor, MIN_ALIGN);
    hide AlignUp;
  }

  lemma FullIsSlow(arena: BumpArena, size: nat)
    requires arena.ChainOk() && arena.span.None? && size > MIN_ALIGN && Full(arena.chunks[arena.current])
    ensures !arena.Fast(size, MIN_ALIGN)
  {
    FullServesNothing(arena.chunks[arena.current], size);
    hide AlignUp, Reserve;
  }

  lemma BigFills(chunks: seq<Link>, live: seq<set<Piece>>, i: nat, p: Piece)
    requires LiveOk(chunks, live) && i < |chunks| && p in live[i] && p.hi == p.lo + BIG
    ensures Full(chunks[i])
  {
    hide PiecesApart;
  }

  lemma TwoBig(pieces: set<Piece>, base: nat, cursor: nat, p: Piece, q: Piece)
    requires PiecesWithin(pieces, base, cursor) && cursor <= base + CHUNK_BYTES
    requires p in pieces && q in pieces && p.hi == p.lo + BIG && q.hi == q.lo + BIG
    ensures !Clear(p, q.lo, q.hi)
  {
  }

  /** Two such blocks never share a chunk. */
  lemma BigElsewhere(chunks: seq<Link>, current: nat, maxChunks: nat, live: seq<set<Piece>>, live': seq<set<Piece>>,
      q: Piece, j: nat, p: Piece)
    requires ShapeOk(chunks, current, maxChunks) && LiveOk(chunks, live') && OneMore(live, live', q)
    requires q.hi == q.lo + BIG && p.hi == p.lo + BIG && Clear(p, q.lo, q.hi)
    requires j < |live| && p in live[j]
    ensures live'[j] == live[j]
  {
    hide PiecesApart, Full;
    var i :| 0 <= i < |live'| && live' == Grown(live, |live'|)[i := Grown(live, |live'|)[i] + {q}];
    if i == j { TwoBig(live'[j], chunks[j].base, chunks[j].cursor, p, q); }
  }

  /** A chunk off the end with all its blocks freed and flushed can be recycled. */
  lemma FreedRecycles(arena: BumpArena, size: nat, align: nat, answer: Option<nat>)
    requires arena.ChainOk() && |arena.chunks| == 2 && arena.live[0] == {}
    requires arena.chunks[0].cursor > arena.chunks[0].base
    ensures !Refused(Unblocked(arena.chunks, arena.span, arena.batch, arena.pending), arena.current,
              arena.maxChunks, size, align, answer)
  {
    hide PiecesApart, PiecesWithin, Room;
    var cleared := Unblocked(arena.chunks, arena.span, arena.batch, arena.pending);
    NoPieces(arena.live[0]);
    assert Quiet(cleared[0]) && cleared[0].cursor > cleared[0].base;
  }

  lemma AllFullRefuses(arena: BumpArena, size: nat, answer: Option<nat>)
    requires arena.ChainOk() && |arena.chunks| == 2 == arena.maxChunks && arena.live[0] != {}
    requires Full(arena.chunks[0]) && Full(arena.chunks[1]) && size > MIN_ALIGN
    ensures Refused(Unblocked(arena.chunks, arena.span, arena.batch, arena.pending), arena.current,
              arena.maxChunks, size, MIN_ALIGN, answer)
  {
    hide PiecesApart, PiecesWithin, Room;
    var cleared := Unblocked(arena.chunks, arena.span, arena.batch, arena.pending);
    NoPieces(arena.live[0]);
    forall i | arena.current <= i < |cleared| ensures !Room(cleared[i], size, MIN_ALIGN) {
      FullServesNothing(cleared[i], size);
    }
    assert !Quiet(cleared[0]);
  }

  /** A flushed chunk without live blocks, once used, is quiet. */
  lemma UsedIsQuiet(arena: BumpArena)
    requires arena.ChainOk() && |arena.chunks| == 2 && arena.live[1] == {} && Full(arena.chunks[1])
    requires arena.span.None? && arena.pending == 0
    ensures Quiet(arena.chunks[1])
  {
    hide PiecesApart, PiecesWithin;
    NoPieces(arena.live[1]);
  }

  lemma FirstFits(chunks: seq<Link>, base: nat, maxChunks: nat, batch: nat, answer: Option<nat>)
    requires chunks == Unblocked([Link(base, base, 0, 0, 0)], None, batch, 0)
    ensures FitsChunk(BIG, MIN_ALIGN) && !Refused(chunks, 0, maxChunks, BIG, MIN_ALIGN, answer)
  {
    EmptyFits(base, BIG, MIN_ALIGN);
    hide AlignUp;
    assert Room(chunks[0], BIG, MIN_ALIGN);
  }

  /** Of two chunks, a block that did not go to the other went to this one. */
  lemma OnlyPlace(live: seq<set<Piece>>, live': seq<set<Piece>>, q: Piece, at: nat)
    requires OneMore(live, live', q) && at <= 1 && |live'| <= 2
    requires at >= |live| || live[at] == {}
    requires (|live'| == 1 && at == 0)
              || (1 - at < |live| && live'[1 - at] == live[1 - at] && q !in live[1 - at])
    ensures at < |live'| && live'[at] == {q}
  {
  }

  lemma NewChunk(arena: BumpArena, size: nat, answer: Option<nat>)
    requires |arena.chunks| < arena.maxChunks && answer.Some?
    ensures !Refused(Unblocked(arena.chunks, arena.span, arena.batch, arena.pending), arena.current,
              arena.maxChunks, size, MIN_ALIGN, answer)
  {
    hide NoRoomFrom, NothingQuiet;
  }

  /** The arena fills chunk 0, fills chunk 1, recycles the freed chunk 0, fills it again, and has every
      block of chunk 1 freed. The next request is refused and the arena latched exhausted, although
      chunk 1 is wholly free: the advance has made it current, and the scan skips the current chunk. */
  method RefusedBesideQuiet(b0: nat, b1: nat, b2: nat) returns (arena: BumpArena, r: Option<nat>)
    requires b0 % CHUNK_BYTES == b1 % CHUNK_BYTES == b2 % CHUNK_BYTES == 0
    requires b0 != b1 && b1 != b2 && b0 != b2
    ensures fresh(arena) && arena.Valid() && FitsChunk(1024, MIN_ALIGN) && r.None? && arena.exhausted
    ensures |arena.chunks| == 2 == arena.maxChunks && arena.live[1] == {} && Quiet(arena.chunks[1])
  {
    hide ShapeOk, LiveOk, WindowOk, CountsOk, NoneStranded, Refused, Room, Quiet, Unblocked, OneMore, AlignUp,
         PiecesApart, PiecesWithin;
    arena := new BumpArena(b0, 2);
    FirstFits(Unblocked(arena.chunks, arena.span, arena.batch, arena.pending), b0, 2, arena.batch, None);
    var a := arena.Alloc(BIG, MIN_ALIGN, None);
    arena.ChainFacts();
    var p := Piece(a.value, a.value + BIG);
    OnlyPlace([{}], arena.live, p, 0);
    BigFills(arena.chunks, arena.live, 0, p);
    FullIsSlow(arena, BIG);
    NewChunk(arena, BIG, Some(b1));
    ghost var live := arena.live;
    a := arena.Alloc(BIG, MIN_ALIGN, Some(b1));
    arena.ChainFacts();
    var q := Piece(a.value, a.value + BIG);
    BigElsewhere(arena.chunks, arena.current, 2, live, arena.live, q, 0, p);
    OnlyPlace(live, arena.live, q, 1);
    BigFills(arena.chunks, arena.live, 0, p);
    BigFills(arena.chunks, arena.live, 1, q);
    arena.Free(0, p);
    arena.ChainFacts();
    FullIsSlow(arena, BIG);
    FreedRecycles(arena, BIG, MIN_ALIGN, None);
    live := arena.live;
    assert q in live[1];
    a := arena.Alloc(BIG, MIN_ALIGN, None);
    arena.ChainFacts();
    ghost var p' := Piece(a.value, a.value + BIG);
    BigElsewhere(arena.chunks, arena.current, 2, live, arena.live, p', 1, q);
    OnlyPlace(live, arena.live, p', 0);
    BigFills(arena.chunks, arena.live, 0, p');
    BigFills(arena.chunks, arena.live, 1, q);
    arena.Free(1, q);
    arena.ChainFacts();
    FullIsSlow(arena, 1024);
    AllFullRefuses(arena, 1024, Some(b2));
    r := arena.Alloc(1024, MIN_ALIGN, Some(b2));
    arena.ChainFacts();
    UsedIsQuiet(arena);
  }
}
