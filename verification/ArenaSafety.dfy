/** Safety of chunk recycling over whole runs: the intent/spans pair lets a chunk's cursor be
    rewound only when nothing is live in it and nobody can carve from it. */
module ArenaSafety {
  import opened Wrappers
  import opened ArenaProtocol
  import opened ArenaCounts
  import opened ArenaWindows

  /** The thread holds the arena mutex. */
  ghost predicate InMutex(pc: Pc) {
    || pc.Locked? || pc.Directing? || pc.Noting? || pc.Advancing? || pc.Scanning? || pc.Intending?
    || pc.ScanSpans? || pc.ScanCarved? || pc.ScanFreed? || pc.Deciding? || pc.Rewound? || pc.Growing?
    || pc.Publishing? || pc.Unlocking?
  }

  /** The chunk a scan is examining with its intent raised. */
  ghost function Intends(pc: Pc): Option<nat> {
    match pc
    case ScanSpans(_, i) => Some(i)
    case ScanCarved(_, i, _) => Some(i)
    case ScanFreed(_, i, _, _) => Some(i)
    case Deciding(_, i, _, _, _) => Some(i)
    case Rewound(_, i) => Some(i)
    case _ => None
  }

  /** The thread has a span of chunk `i`, or a carve past the intent check, or a retired span
      whose pin is still to be dropped. A carve that has pinned but not yet checked, or is only
      taking its pin back, is not engaged. */
  ghost predicate Engaged(th: Thread, i: nat) {
    || (th.span.Span? && th.span.chunk == i)
    || (PinnedBy(th.pc) == Some(i) && !th.pc.Checking? && !th.pc.Unpinning?)
    || PriorOf(th.pc) == Some(i)
  }

  ghost predicate Quiet(threads: seq<Thread>, i: nat) {
    forall t :: 0 <= t < |threads| ==> !Engaged(threads[t], i)
  }

  /** What a scan in progress has established about the chunk it examines. */
  ghost predicate ScanOk(s: State, pc: Pc) {
    && (Intends(pc).Some? ==>
          var i := Intends(pc).value; i < |s.chunks| && i != s.current && s.chunks[i].intent)
    && match pc
       case Intending(_, i) => i < |s.chunks| && i != s.current
       case ScanCarved(_, i, pinned) => !pinned ==> Quiet(s.threads, i)
       case ScanFreed(_, i, pinned, carved) => !pinned ==> Quiet(s.threads, i) && carved == s.chunks[i].carved
       case Deciding(_, i, pinned, carved, freed) =>
         && freed <= s.chunks[i].freed
         && (!pinned ==> Quiet(s.threads, i) && carved == s.chunks[i].carved)
       case Rewound(_, i) => Quiet(s.threads, i) && LiveIn(s.live, i) == {}
       case _ => true
  }

  ghost predicate MutexOk(s: State) {
    && (s.holder.Some? ==> s.holder.value < |s.threads|)
    && (forall t :: 0 <= t < |s.threads| ==> (InMutex(s.threads[t].pc) <==> s.holder == Some(t)))
    && (forall c :: 0 <= c < |s.chunks| ==>
          (s.chunks[c].intent ==> s.holder.Some? && Intends(s.threads[s.holder.value].pc) == Some(c)))
  }

  ghost predicate ScansOk(s: State) {
    forall t :: 0 <= t < |s.threads| ==> ScanOk(s, s.threads[t].pc)
  }

  ghost predicate Inv(s: State) {
    ShapeOk(s) && CountsOk(s) && WindowsOk(s) && BlocksOk(s) && MutexOk(s) && ScansOk(s)
  }

  lemma InitInv(s: State)
    requires InitState(s)
    ensures Inv(s)
  {
    assert CountsOk(s) by {
      forall c | 0 <= c < |s.chunks| ensures Balanced(s.chunks[c], s.threads, s.live, c) {
        TotalZero(s.threads, Pins, c);
        TotalZero(s.threads, Unflushed, c);
        TotalZero(s.threads, Pending, c);
        assert LiveIn(s.live, c) == {};
      }
    }
  }

  // ---- the scan --------------------------------------------------------------------------

  /** No pins counted means nobody is engaged: the `spans` half of the Dekker pair. */
  lemma NoPinsQuiet(s: State, i: nat)
    requires CountsOk(s) && i < |s.chunks| && s.chunks[i].spans == 0
    ensures Quiet(s.threads, i)
  {
    assert Balanced(s.chunks[i], s.threads, s.live, i);
    TotalZero(s.threads, Pins, i);
    forall t | 0 <= t < |s.threads| ensures !Engaged(s.threads[t], i) {
      assert Weight(s.threads[t], Pins, i) == 0;
    }
  }

  /** With nobody engaged `carved` is exact, so `freed == carved`, even read low, means that no
      block of the chunk is live. */
  lemma QuietAndFreed(s: State, i: nat, seen: nat)
    requires CountsOk(s) && i < |s.chunks| && Quiet(s.threads, i)
    requires seen <= s.chunks[i].freed && seen == s.chunks[i].carved
    ensures LiveIn(s.live, i) == {}
    ensures s.chunks[i].freed == s.chunks[i].carved == s.chunks[i].handed == s.chunks[i].returned
  {
    assert Balanced(s.chunks[i], s.threads, s.live, i);
    forall t | 0 <= t < |s.threads| ensures Weight(s.threads[t], Unflushed, i) == 0 {
      assert !Engaged(s.threads[t], i);
    }
    TotalZero(s.threads, Unflushed, i);
    assert |LiveIn(s.live, i)| == 0;
  }

  /** A quiet chunk without live blocks holds no window, once the mutex holder is scanning. */
  lemma QuietNoWindows(s: State, i: nat, h: nat)
    requires MutexOk(s) && Quiet(s.threads, i) && LiveIn(s.live, i) == {}
    requires h < |s.threads| && InMutex(s.threads[h].pc) && !s.threads[h].pc.Noting?
    ensures forall k :: Win(s, k).Window? ==> Win(s, k).chunk != i
  {
    forall k ensures Win(s, k).Window? ==> Win(s, k).chunk != i {
      match k
      case SpanOf(t) => if t < |s.threads| { assert !Engaged(s.threads[t], i); }
      case PcOf(t) =>
        if t < |s.threads| {
          assert !Engaged(s.threads[t], i);
          assert s.threads[t].pc.Noting? ==> s.holder == Some(t);
        }
      case BlockOf(b) => if b in s.live { assert b in LiveIn(s.live, b.chunk); }
    }
  }

  /** A raised intent keeps a chunk quiet: the `intent` half of the Dekker pair. */
  lemma QuietKept(s: State, s': State, t: nat, a: Action, i: nat)
    requires t < |s.threads| && (CarveStep(s, s', t, a) || FreeStep(s, s', t, a))
    requires i < |s.chunks| && s.chunks[i].intent && Quiet(s.threads, i)
    ensures Quiet(s'.threads, i)
    ensures s'.chunks[i].carved == s.chunks[i].carved
    ensures LiveIn(s'.live, i) <= LiveIn(s.live, i)
  {
    hide AlignUp, Reserve;
    assert !Engaged(s.threads[t], i);
    assert !Engaged(s'.threads[t], i);
  }

  // ---- preservation ----------------------------------------------------------------------

  /** What a step outside the mutex leaves alone. */
  ghost predicate Outside(s: State, s': State, t: nat) {
    && s'.holder == s.holder && s'.current == s.current && s'.holder != Some(t)
    && t < |s.threads| == |s'.threads| && s'.threads == s.threads[t := s'.threads[t]] && !InMutex(s'.threads[t].pc)
    && |s'.chunks| == |s.chunks|
    && forall c :: 0 <= c < |s.chunks| ==>
         s'.chunks[c].intent == s.chunks[c].intent && s'.chunks[c].freed >= s.chunks[c].freed
  }

  lemma CarveOutside(s: State, s': State, t: nat, a: Action)
    requires MutexOk(s) && t < |s.threads| && CarveStep(s, s', t, a)
    ensures |s'.threads| == |s.threads| && Outside(s, s', t)
  {
    hide CarveStep;
    assert InMutex(s.threads[t].pc) <==> s.holder == Some(t);
    CarveThread(s, s', t, a);
    CarveChunks(s, s', t, a);
  }

  lemma CarveThread(s: State, s': State, t: nat, a: Action)
    requires t < |s.threads| && CarveStep(s, s', t, a)
    ensures SameShared(s, s') && |s'.threads| == |s.threads| && s'.threads == s.threads[t := s'.threads[t]]
    ensures !InMutex(s.threads[t].pc) && !InMutex(s'.threads[t].pc)
  {
    hide AlignUp, Reserve, Sane, AlignOf, ChunkIs, SameShared;
  }

  lemma CarveChunks(s: State, s': State, t: nat, a: Action)
    requires t < |s.threads| && CarveStep(s, s', t, a)
    ensures |s'.chunks| == |s.chunks|
    ensures forall c :: 0 <= c < |s.chunks| ==>
              s'.chunks[c].intent == s.chunks[c].intent && s'.chunks[c].freed >= s.chunks[c].freed
  {
    hide AlignUp, Reserve, Sane, AlignOf, OnlyThread, SameShared;
  }

  lemma FreeOutside(s: State, s': State, t: nat, a: Action)
    requires MutexOk(s) && t < |s.threads| && FreeStep(s, s', t, a)
    ensures |s'.threads| == |s.threads| && Outside(s, s', t)
  {
    assert InMutex(s.threads[t].pc) <==> s.holder == Some(t);
  }

  lemma LockFreeMutex(s: State, s': State, t: nat, a: Action)
    requires MutexOk(s) && t < |s.threads| && (CarveStep(s, s', t, a) || FreeStep(s, s', t, a))
    ensures MutexOk(s') && |s'.threads| == |s.threads| && Outside(s, s', t)
  {
    if CarveStep(s, s', t, a) { CarveOutside(s, s', t, a); } else { FreeOutside(s, s', t, a); }
    hide CarveStep, FreeStep;
  }

  lemma LockFreeScans(s: State, s': State, t: nat, a: Action)
    requires MutexOk(s) && ScansOk(s) && t < |s.threads| && (CarveStep(s, s', t, a) || FreeStep(s, s', t, a))
    ensures ScansOk(s')
  {
    LockFreeMutex(s, s', t, a);
    forall u | 0 <= u < |s'.threads| ensures ScanOk(s', s'.threads[u].pc) {
      if u != t {
        var pc := s.threads[u].pc;
        assert ScanOk(s, pc);
        if Intends(pc).Some? {
          if Quiet(s.threads, Intends(pc).value) { QuietKept(s, s', t, a, Intends(pc).value); }
        }
      }
      hide Quiet, LiveIn, CarveStep, FreeStep;
    }
  }

  lemma LockMutex(s: State, s': State, t: nat, a: Action)
    requires MutexOk(s) && t < |s.threads| && LockStep(s, s', t, a)
    ensures MutexOk(s')
  {
    hide AlignUp, Reserve;
    assert InMutex(s.threads[t].pc) <==> s.holder == Some(t);
  }

  /** While one thread works under the mutex, nobody is scanning. */
  lemma LockScans(s: State, s': State, t: nat, a: Action)
    requires MutexOk(s) && t < |s.threads| && LockStep(s, s', t, a)
    ensures ScansOk(s')
  {
    hide AlignUp, Reserve, Quiet;
    LockMutex(s, s', t, a);
    forall u | 0 <= u < |s'.threads| ensures ScanOk(s', s'.threads[u].pc) {
      assert InMutex(s'.threads[u].pc) <==> s'.holder == Some(u);
    }
  }

  lemma ScanMutex(s: State, s': State, t: nat, a: Action)
    requires MutexOk(s) && ScansOk(s) && t < |s.threads| && ScanStep(s, s', t, a)
    ensures MutexOk(s')
  {
    hide ScansOk, ScanOk, ScanStep;
    assert InMutex(s.threads[t].pc) <==> s.holder == Some(t);
    ScanAt(s, t);
    ScanThread(s, s', t, a);
    ScanIntents(s, s', t, a);
  }

  lemma ScanThread(s: State, s': State, t: nat, a: Action)
    requires t < |s.threads| && ScanStep(s, s', t, a)
    ensures |s'.threads| == |s.threads| && s'.threads == s.threads[t := s'.threads[t]]
    ensures InMutex(s.threads[t].pc)
    ensures s'.holder == if a.Unlock? then None else s.holder
    ensures InMutex(s'.threads[t].pc) <==> !a.Unlock?
  {
    hide FreshChunk, ChunkIs;
  }

  /** The scanned chunk alone carries the intent, from its raising to its lowering. */
  lemma ScanIntents(s: State, s': State, t: nat, a: Action)
    requires t < |s.threads| && ScanStep(s, s', t, a) && ScanOk(s, s.threads[t].pc)
    requires forall c :: 0 <= c < |s.chunks| && s.chunks[c].intent ==> Intends(s.threads[t].pc) == Some(c)
    ensures |s'.threads| == |s.threads|
    ensures forall c :: 0 <= c < |s'.chunks| && s'.chunks[c].intent ==> Intends(s'.threads[t].pc) == Some(c)
  {
    hide FreshChunk, Quiet, LiveIn, SameShared;
  }

  lemma ScanAt(s: State, t: nat)
    requires ScansOk(s) && t < |s.threads|
    ensures ScanOk(s, s.threads[t].pc)
  {
    hide ScanOk;
  }

  lemma ScanKeepsQuiet(s: State, s': State, t: nat, a: Action, i: nat)
    requires t < |s.threads| && ScanStep(s, s', t, a)
    ensures Quiet(s.threads, i) ==> Quiet(s'.threads, i)
  {
    hide FreshChunk;
    assert Engaged(s'.threads[t], i) ==> Engaged(s.threads[t], i);
  }

  /** What the scanning thread knows after its own next action. */
  lemma ScanAdvances(s: State, s': State, t: nat, a: Action)
    requires CountsOk(s) && MutexOk(s) && ScansOk(s) && t < |s.threads| && ScanStep(s, s', t, a)
    ensures ScanOk(s', s'.threads[t].pc)
  {
    hide FreshChunk, CountsOk, Quiet, LiveIn;
    var pc := s.threads[t].pc;
    assert ScanOk(s, pc);
    if Intends(pc).Some? { ScanKeepsQuiet(s, s', t, a, Intends(pc).value); }
    if a.ReadSpans? {
      if s.chunks[pc.i].spans == 0 { NoPinsQuiet(s, pc.i); }
    } else if a.Decide? && s'.threads[t].pc.Rewound? {
      QuietAndFreed(s, pc.i, pc.freed);
    }
  }

  lemma ScanScans(s: State, s': State, t: nat, a: Action)
    requires CountsOk(s) && MutexOk(s) && ScansOk(s) && t < |s.threads| && ScanStep(s, s', t, a)
    ensures ScansOk(s')
  {
    ScanMutex(s, s', t, a);
    ScanAdvances(s, s', t, a);
    hide FreshChunk, Quiet, LiveIn, CountsOk;
    forall u | 0 <= u < |s'.threads| ensures ScanOk(s', s'.threads[u].pc) {
      assert InMutex(s'.threads[u].pc) <==> s'.holder == Some(u);
      assert InMutex(s.threads[t].pc) <==> s.holder == Some(t);
    }
  }

  /** A rewind finds its chunk without any live block, open span or carve in progress. */
  lemma RewindIsSafe(s: State, s': State, t: nat, a: Action)
    requires Inv(s) && t < |s.threads| && ScanStep(s, s', t, a) && s'.threads[t].pc.Rewound?
    ensures var i := s'.threads[t].pc.i;
      && i < |s.chunks| && LiveIn(s.live, i) == {} && Quiet(s.threads, i)
      && (forall k :: Win(s, k).Window? ==> Win(s, k).chunk != i)
      && s.chunks[i].freed == s.chunks[i].carved == s.chunks[i].handed
  {
    hide ShapeOk, WindowsOk, BlocksOk, FreshChunk, Win, CountsOk;
    var pc := s.threads[t].pc;
    assert ScanOk(s, pc);
    QuietAndFreed(s, pc.i, pc.freed);
    hide Quiet, LiveIn;
    QuietNoWindows(s, pc.i, t);
  }

  lemma StepInv(s: State, s': State, t: nat, a: Action)
    requires Inv(s) && Step(s, s', t, a)
    ensures Inv(s')
  {
    hide ShapeOk, CountsOk, WindowsOk, BlocksOk, MutexOk, ScansOk, CarveStep, FreeStep, LockStep, ScanStep, FreshBlock;
    if CarveStep(s, s', t, a) {
      CarveShape(s, s', t, a);
      CarveWindows(s, s', t, a);
      CarveFresh(s, s', t, a);
      CarveCounts(s, s', t, a);
      CarveBlocks(s, s', t, a);
      LockFreeMutex(s, s', t, a);
      LockFreeScans(s, s', t, a);
    } else if FreeStep(s, s', t, a) {
      FreeShape(s, s', t, a);
      FreeWindows(s, s', t, a);
      FreeCounts(s, s', t, a);
      OtherBlocks(s, s', t, a);
      LockFreeMutex(s, s', t, a);
      LockFreeScans(s, s', t, a);
    } else if LockStep(s, s', t, a) {
      LockShape(s, s', t, a);
      LockWindows(s, s', t, a);
      LockCounts(s, s', t, a);
      LockBlocks(s, s', t, a);
      LockMutex(s, s', t, a);
      LockScans(s, s', t, a);
    } else {
      ScanShape(s, s', t, a);
      if s'.threads[t].pc.Rewound? { RewindIsSafe(s, s', t, a); }
      ScanWindows(s, s', t, a);
      ScanCounts(s, s', t, a);
      OtherBlocks(s, s', t, a);
      ScanMutex(s, s', t, a);
      ScanScans(s, s', t, a);
    }
  }

  lemma CarveFresh(s: State, s': State, t: nat, a: Action)
    requires ShapeOk(s) && WindowsOk(s) && BlocksOk(s) && t < |s.threads| && CarveStep(s, s', t, a)
    ensures FreshBlock(s, t, a)
  {
    hide ShapeOk, WindowsOk, BlocksOk, AlignUp, Reserve;
    match a
    case Serve(need) => ServeWindows(s, s', t, need);
    case Install => InstallWindows(s, s', t);
    case _ =>
  }

  // ---- the theorems ----------------------------------------------------------------------

  lemma {:induction false} RunInv(states: seq<State>, i: nat)
    requires Run(states) && i < |states|
    ensures Inv(states[i])
  {
    hide Inv, InitState, Step;
    if i == 0 {
      InitInv(states[0]);
    } else {
      RunInv(states, i - 1);
      assert Next(states[i - 1], states[i]);
      var t, a :| Step(states[i - 1], states[i], t, a);
      StepInv(states[i - 1], states[i], t, a);
    }
  }

  lemma ReachableInv(s: State)
    requires Reachable(s)
    ensures Inv(s)
  {
    hide Inv, InitState, Next;
    var states: seq<State> :| Run(states) && states[|states| - 1] == s;
    RunInv(states, |states| - 1);
  }

  /** Mapped chunks are disjoint ranges. */
  ghost predicate ChunksApart(chunks: seq<Chunk>) {
    forall i, j :: 0 <= i < j < |chunks| ==> RangesApart(chunks[i], chunks[j])
  }

  ghost predicate RangesApart(a: Chunk, b: Chunk) {
    a.base + a.capacity <= b.base || b.base + b.capacity <= a.base
  }

  lemma StepApart(s: State, s': State, t: nat, a: Action)
    requires ChunksApart(s.chunks) && Step(s, s', t, a)
    ensures ChunksApart(s'.chunks)
  {
    StepRanges(s, s', t, a);
    hide Step;
    if |s'.chunks| > |s.chunks| {
      assert forall i :: 0 <= i < |s.chunks| ==> RangesApart(s.chunks[i], s'.chunks[|s.chunks|]);
    }
  }

  /** No step moves a chunk, and at most one, clear of all others, is mapped. */
  lemma StepRanges(s: State, s': State, t: nat, a: Action)
    requires Step(s, s', t, a)
    ensures |s.chunks| <= |s'.chunks| <= |s.chunks| + 1
    ensures forall c :: 0 <= c < |s.chunks| ==>
              s'.chunks[c].base == s.chunks[c].base && s'.chunks[c].capacity == s.chunks[c].capacity
    ensures |s'.chunks| > |s.chunks| ==>
              forall c :: 0 <= c < |s.chunks| ==> RangesApart(s.chunks[c], s'.chunks[|s.chunks|])
  {
    hide CarveStep, FreeStep, LockStep, ScanStep;
    if CarveStep(s, s', t, a) {
      CarveRanges(s, s', t, a);
    } else if FreeStep(s, s', t, a) {
      FreeRanges(s, s', t, a);
    } else if LockStep(s, s', t, a) {
      LockRanges(s, s', t, a);
    } else {
      ScanRanges(s, s', t, a);
    }
  }

  /** Chunks stay where they are. */
  ghost predicate Unmoved(s: State, s': State) {
    && |s'.chunks| == |s.chunks|
    && forall c :: 0 <= c < |s.chunks| ==>
         s'.chunks[c].base == s.chunks[c].base && s'.chunks[c].capacity == s.chunks[c].capacity
  }

  lemma CarveRanges(s: State, s': State, t: nat, a: Action)
    requires t < |s.threads| && CarveStep(s, s', t, a)
    ensures Unmoved(s, s')
  {
    hide AlignUp, Reserve, Sane, AlignOf, OnlyThread, SameShared;
  }

  lemma FreeRanges(s: State, s': State, t: nat, a: Action)
    requires t < |s.threads| && FreeStep(s, s', t, a)
    ensures Unmoved(s, s')
  {
    hide OnlyThread, SameShared;
  }

  lemma LockRanges(s: State, s': State, t: nat, a: Action)
    requires t < |s.threads| && LockStep(s, s', t, a)
    ensures Unmoved(s, s')
  {
    hide AlignUp, Max, Sane, AlignOf, OnlyThread, SameShared;
  }

  lemma ScanRanges(s: State, s': State, t: nat, a: Action)
    requires t < |s.threads| && ScanStep(s, s', t, a)
    ensures !a.Grow? ==> Unmoved(s, s')
    ensures a.Grow? && s'.chunks != s.chunks ==>
              && FreshChunk(s, a.base)
              && s'.chunks == s.chunks + [Chunk(a.base, s.chunkSize, a.base, false, 0, 0, 0, 0, 0)]
  {
    hide OnlyThread, SameShared, FreshChunk;
  }

  lemma {:induction false} RunApart(states: seq<State>, i: nat)
    requires Run(states) && i < |states|
    ensures ChunksApart(states[i].chunks)
  {
    hide ChunksApart, Step;
    if i == 0 {
      OneChunk(states[0]);
    } else {
      RunApart(states, i - 1);
      assert Next(states[i - 1], states[i]);
      var t: nat, a :| Step(states[i - 1], states[i], t, a);
      StepApart(states[i - 1], states[i], t, a);
    }
  }

  lemma OneChunk(s: State)
    requires InitState(s)
    ensures ChunksApart(s.chunks)
  {
  }

  lemma ReachableApart(s: State)
    requires Reachable(s)
    ensures ChunksApart(s.chunks)
  {
    hide ChunksApart, InitState, Next;
    var states: seq<State> :| Run(states) && states[|states| - 1] == s;
    RunApart(states, |states| - 1);
  }

  /** In every reachable state live blocks are aligned as asked, inside the carved part of a
      mapped chunk, and no two of them overlap. */
  lemma NoLiveOverlap(s: State, b: LiveBlock, c: LiveBlock)
    requires Reachable(s) && b in s.live && c in s.live
    ensures b.chunk < |s.chunks| && c.chunk < |s.chunks|
    ensures var ch := s.chunks[b.chunk];
      ch.base <= b.lo < b.hi <= ch.cursor <= ch.base + ch.capacity && Aligned(b.lo, b.align)
    ensures b != c ==> b.hi <= c.lo || c.hi <= b.lo
  {
    ReachableInv(s);
    ReachableApart(s);
    hide Reachable, CountsOk, MutexOk, ScansOk, Aligned;
    assert Inside(s.chunks, Win(s, BlockOf(b))) && Inside(s.chunks, Win(s, BlockOf(c)));
    assert b != c ==> Apart(Win(s, BlockOf(b)), Win(s, BlockOf(c)));
    assert b.chunk < c.chunk ==> RangesApart(s.chunks[b.chunk], s.chunks[c.chunk]);
    assert c.chunk < b.chunk ==> RangesApart(s.chunks[c.chunk], s.chunks[b.chunk]);
  }

  /** Whatever step lowers a chunk's cursor finds the chunk without a live block, without an
      open span, and without anybody who could still carve from it. */
  lemma RecycleIsSafe(s: State, s': State, t: nat, a: Action, c: nat)
    requires Reachable(s) && Step(s, s', t, a) && c < |s.chunks|
    requires c < |s'.chunks| && s'.chunks[c].cursor < s.chunks[c].cursor
    ensures LiveIn(s.live, c) == {} && Quiet(s.threads, c)
    ensures forall k :: Win(s, k).Window? ==> Win(s, k).chunk != c
    ensures s.chunks[c].freed == s.chunks[c].carved == s.chunks[c].handed
  {
    ReachableInv(s);
    CursorFalls(s, s', t, a, c);
    hide Inv, ScanStep, Reachable, LiveIn, Quiet, Win;
    RewindIsSafe(s, s', t, a);
  }

  lemma CursorFalls(s: State, s': State, t: nat, a: Action, c: nat)
    requires Inv(s) && Step(s, s', t, a) && c < |s.chunks| && c < |s'.chunks|
    requires s'.chunks[c].cursor < s.chunks[c].cursor
    ensures |s'.threads| == |s.threads| && ScanStep(s, s', t, a) && s.threads[t].pc.Deciding?
    ensures s'.threads[t].pc == Rewound(s.threads[t].pc.need, c)
  {
    hide ShapeOk, CountsOk, WindowsOk, MutexOk, ScansOk, CarveStep, FreeStep, LockStep, ScanStep, CarveFits;
    assert CarveFits(s.threads[t].pc);
    if CarveStep(s, s', t, a) {
      CarveRises(s, s', t, a, c);
    } else if FreeStep(s, s', t, a) {
      FreeRises(s, s', t, a, c);
    } else if LockStep(s, s', t, a) {
      LockRises(s, s', t, a, c);
    } else {
      ScanRewinds(s, s', t, a, c);
    }
  }

  lemma CarveRises(s: State, s': State, t: nat, a: Action, c: nat)
    requires t < |s.threads| && CarveFits(s.threads[t].pc) && CarveStep(s, s', t, a) && c < |s.chunks|
    ensures |s'.chunks| == |s.chunks| && s'.chunks[c].cursor >= s.chunks[c].cursor
  {
    hide AlignUp, SameShared;
    if a.Cas? { AlignUpBounds(s.threads[t].pc.cur, MIN_ALIGN); }
  }

  lemma FreeRises(s: State, s': State, t: nat, a: Action, c: nat)
    requires t < |s.threads| && FreeStep(s, s', t, a) && c < |s.chunks|
    ensures |s'.chunks| == |s.chunks| && s'.chunks[c].cursor >= s.chunks[c].cursor
  {
    hide OnlyThread, SameShared;
  }

  lemma LockRises(s: State, s': State, t: nat, a: Action, c: nat)
    requires t < |s.threads| && LockStep(s, s', t, a) && c < |s.chunks|
    ensures |s'.chunks| == |s.chunks| && s'.chunks[c].cursor >= s.chunks[c].cursor
  {
    hide AlignUp, OnlyThread, SameShared;
    if a.DirectCas? { AlignUpBounds(s.threads[t].pc.cur, AlignOf(s.threads[t].pc.need)); }
  }

  lemma ScanRewinds(s: State, s': State, t: nat, a: Action, c: nat)
    requires t < |s.threads| && ScanStep(s, s', t, a) && c < |s.chunks| && c < |s'.chunks|
    requires s'.chunks[c].cursor < s.chunks[c].cursor
    ensures |s'.threads| == |s.threads| && s.threads[t].pc.Deciding?
    ensures s'.threads[t].pc == Rewound(s.threads[t].pc.need, c)
  {
    hide FreshChunk, SameShared;
  }

  /** A block stays live until it is freed, whatever else happens. */
  lemma LiveUntilFreed(s: State, s': State, t: nat, a: Action, b: LiveBlock)
    requires Step(s, s', t, a) && b in s.live && a != Free(b)
    ensures b in s'.live
  {
    hide AlignUp, Reserve, FreshChunk;
  }

  /** In every reachable state, per chunk: everything handed out and freed is accounted for; with
      no pins `freed` never exceeds `carved`, and the two agree exactly when no block is live and
      no free is still on its way. */
  lemma CountersAgree(s: State, c: nat)
    requires Reachable(s) && c < |s.chunks|
    ensures var ch := s.chunks[c];
      && ch.carved + Total(s.threads, Unflushed, c) == ch.handed
      && ch.freed + Total(s.threads, Pending, c) == ch.returned
      && ch.handed == ch.returned + |LiveIn(s.live, c)|
      && (ch.spans == 0 ==> ch.freed <= ch.carved)
      && (ch.spans == 0 ==> (ch.freed == ch.carved <==> LiveIn(s.live, c) == {} && Total(s.threads, Pending, c) == 0))
  {
    ReachableInv(s);
    assert Balanced(s.chunks[c], s.threads, s.live, c);
    if s.chunks[c].spans == 0 {
      TotalZero(s.threads, Pins, c);
      forall t | 0 <= t < |s.threads| ensures Weight(s.threads[t], Unflushed, c) == 0 {
        assert Weight(s.threads[t], Pins, c) == 0;
      }
      TotalZero(s.threads, Unflushed, c);
    }
    hide Inv, Reachable, Total, Weight;
    assert |LiveIn(s.live, c)| == 0 <==> LiveIn(s.live, c) == {};
  }
}
