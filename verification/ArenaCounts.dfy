/** The conservation laws of the arena's counters: per chunk, every pin, every block ever handed
    out and every block ever freed is accounted for, at every point of every interleaving. */
module ArenaCounts {
  import opened Wrappers
  import opened ArenaProtocol

  datatype Kind = Pins | Unflushed | Pending

  /** The chunk a carve in progress has pinned. */
  ghost function PinnedBy(pc: Pc): Option<nat> {
    match pc
    case Checking(c, _) => Some(c)
    case Carving(c, _) => Some(c)
    case Casing(c, _, _) => Some(c)
    case Unpinning(c) => Some(c)
    case Retiring(c, _, _, _) => Some(c)
    case Retired(c, _, _, _, _) => Some(c)
    case Installing(c, _, _, _) => Some(c)
    case _ => None
  }

  /** The chunk of a retired span whose pin is still to be dropped. */
  ghost function PriorOf(pc: Pc): Option<nat> {
    match pc
    case Retired(_, _, _, _, prior) => Some(prior)
    case Clearing(prior) => Some(prior)
    case _ => None
  }

  /** What one thread holds back from chunk `c`: pins taken, blocks served but not yet in
      `carved`, frees not yet in `freed`. */
  ghost function Weight(th: Thread, kind: Kind, c: nat): nat {
    match kind
    case Pins =>
      (if th.span.Span? && th.span.chunk == c then 1 else 0)
      + (if PinnedBy(th.pc) == Some(c) then 1 else 0)
      + (if PriorOf(th.pc) == Some(c) then 1 else 0)
    case Unflushed =>
      if th.span.Span? && th.span.chunk == c then th.span.blocks else 0
    case Pending =>
      (if th.batch.chunk == c then th.batch.pending else 0)
      + (if th.flight.chunk == c then th.flight.pending else 0)
  }

  ghost function Total(threads: seq<Thread>, kind: Kind, c: nat): nat {
    if threads == [] then 0
    else Total(threads[..|threads| - 1], kind, c) + Weight(threads[|threads| - 1], kind, c)
  }

  lemma {:induction false} TotalUpdate(threads: seq<Thread>, t: nat, th: Thread, kind: Kind, c: nat)
    requires t < |threads|
    ensures Total(threads[t := th], kind, c) + Weight(threads[t], kind, c)
            == Total(threads, kind, c) + Weight(th, kind, c)
  {
    hide Weight;
    var n := |threads| - 1;
    assert threads[t := th][..n] == if t < n then threads[..n][t := th] else threads[..n];
    if t < n { TotalUpdate(threads[..n], t, th, kind, c); }
  }

  lemma {:induction false} TotalZero(threads: seq<Thread>, kind: Kind, c: nat)
    ensures Total(threads, kind, c) == 0 <==> forall t :: 0 <= t < |threads| ==> Weight(threads[t], kind, c) == 0
  {
    hide Weight;
    if threads != [] {
      var n := |threads| - 1;
      TotalZero(threads[..n], kind, c);
      if Total(threads, kind, c) == 0 {
        forall t | 0 <= t < |threads| ensures Weight(threads[t], kind, c) == 0 {
          if t < n { assert threads[..n][t] == threads[t]; }
        }
      }
    }
  }

  ghost function LiveIn(live: set<LiveBlock>, c: nat): set<LiveBlock> {
    set b | b in live && b.chunk == c
  }

  /** The four laws of one chunk. */
  ghost predicate Balanced(ch: Chunk, threads: seq<Thread>, live: set<LiveBlock>, c: nat) {
    && ch.spans == Total(threads, Pins, c)
    && ch.carved + Total(threads, Unflushed, c) == ch.handed
    && ch.freed + Total(threads, Pending, c) == ch.returned
    && ch.handed == ch.returned + |LiveIn(live, c)|
  }

  ghost predicate CountsOk(s: State) {
    forall c :: 0 <= c < |s.chunks| ==> Balanced(s.chunks[c], s.threads, s.live, c)
  }

  /** Every chunk a thread refers to is mapped; a span is retired before its successor is
      installed. */
  ghost predicate RefsOk(th: Thread, n: nat) {
    && (th.span.Span? ==> th.span.chunk < n)
    && th.batch.chunk < n && th.flight.chunk < n
    && (PinnedBy(th.pc).Some? ==> PinnedBy(th.pc).value < n)
    && (PriorOf(th.pc).Some? ==> PriorOf(th.pc).value < n)
    && (th.pc.Pinning? ==> th.pc.c < n)
    && (th.pc.Noting? ==> th.pc.c < n)
    && (th.pc.Retired? || th.pc.Installing? ==> th.span.NoSpan?)
  }

  ghost predicate ShapeOk(s: State) {
    && s.current < |s.chunks| && s.published < |s.chunks|
    && (forall t :: 0 <= t < |s.threads| ==> RefsOk(s.threads[t], |s.chunks|))
    && (forall b :: b in s.live ==> b.chunk < |s.chunks|)
  }

  /** How one step may change chunk `c`, given how it changes one thread and the live blocks. */
  ghost predicate Delta(ch: Chunk, ch': Chunk, th: Thread, th': Thread,
                        live: set<LiveBlock>, live': set<LiveBlock>, c: nat)
  {
    && ch'.spans + Weight(th, Pins, c) == ch.spans + Weight(th', Pins, c)
    && ch'.carved + Weight(th', Unflushed, c) + ch.handed == ch.carved + Weight(th, Unflushed, c) + ch'.handed
    && ch'.freed + Weight(th', Pending, c) + ch.returned == ch.freed + Weight(th, Pending, c) + ch'.returned
    && ch'.handed + ch.returned + |LiveIn(live, c)| == ch.handed + ch'.returned + |LiveIn(live', c)|
  }

  lemma KeepCounts(s: State, s': State, t: nat, th: Thread)
    requires CountsOk(s) && t < |s.threads| && s'.threads == s.threads[t := th]
    requires |s'.chunks| == |s.chunks|
    requires forall c :: 0 <= c < |s.chunks| ==>
               Delta(s.chunks[c], s'.chunks[c], s.threads[t], th, s.live, s'.live, c)
    ensures CountsOk(s')
  {
    hide Weight, Total, LiveIn;
    forall c | 0 <= c < |s.chunks| ensures Balanced(s'.chunks[c], s'.threads, s'.live, c) {
      TotalUpdate(s.threads, t, th, Pins, c);
      TotalUpdate(s.threads, t, th, Unflushed, c);
      TotalUpdate(s.threads, t, th, Pending, c);
      assert Balanced(s.chunks[c], s.threads, s.live, c);
      assert Delta(s.chunks[c], s'.chunks[c], s.threads[t], th, s.live, s'.live, c);
    }
  }

  lemma LiveAdd(live: set<LiveBlock>, b: LiveBlock, c: nat)
    requires b !in live
    ensures |LiveIn(live + {b}, c)| == |LiveIn(live, c)| + if b.chunk == c then 1 else 0
  {
    assert LiveIn(live + {b}, c) == LiveIn(live, c) + if b.chunk == c then {b} else {};
  }

  /** The block a step hands out, if any. */
  ghost function HandedOut(s: State, t: nat, a: Action): Option<LiveBlock>
    requires t < |s.threads|
  {
    var th := s.threads[t];
    match a
    case Serve(need) =>
      if th.span.Span? && Sane(need) then
        var lo := AlignUp(th.span.cursor, AlignOf(need));
        Some(LiveBlock(th.span.chunk, lo, lo + need.size, AlignOf(need)))
      else None
    case Install =>
      if th.pc.Installing? && Sane(th.pc.need) then
        var lo := AlignUp(th.pc.lo, AlignOf(th.pc.need));
        Some(LiveBlock(th.pc.c, lo, lo + th.pc.need.size, AlignOf(th.pc.need)))
      else None
    case Note =>
      if th.pc.Noting? then Some(LiveBlock(th.pc.c, th.pc.lo, th.pc.hi, th.pc.align)) else None
    case _ => None
  }

  ghost predicate FreshBlock(s: State, t: nat, a: Action)
    requires t < |s.threads|
  {
    HandedOut(s, t, a).Some? ==> HandedOut(s, t, a).value !in s.live
  }

  lemma CarveDelta(s: State, s': State, t: nat, a: Action, c: nat)
    requires ShapeOk(s) && t < |s.threads| && CarveStep(s, s', t, a) && FreshBlock(s, t, a) && c < |s.chunks|
    ensures |s'.chunks| == |s.chunks| && |s'.threads| == |s.threads| && s'.threads == s.threads[t := s'.threads[t]]
    ensures Delta(s.chunks[c], s'.chunks[c], s.threads[t], s'.threads[t], s.live, s'.live, c)
  {
    hide CarveStep, Delta, Weight, RefsOk, FreshBlock;
    assert RefsOk(s.threads[t], |s.chunks|);
    if a.Serve? || a.Install? {
      HandDelta(s, s', t, a, c);
    } else {
      SpanGone(s.threads[t], |s.chunks|);
      if a.RetireFlush? || a.ClearFlush? {
        FlushDelta(s, s', t, a, c);
      } else {
        PinDelta(s, s', t, a, c);
      }
    }
  }

  /** Retiring moves a span's blocks from the thread to its chunk. */
  lemma FlushDelta(s: State, s': State, t: nat, a: Action, c: nat)
    requires t < |s.threads| && CarveStep(s, s', t, a) && c < |s.chunks|
    requires a.RetireFlush? || a.ClearFlush?
    ensures |s'.chunks| == |s.chunks| && |s'.threads| == |s.threads| && s'.threads == s.threads[t := s'.threads[t]]
    ensures Delta(s.chunks[c], s'.chunks[c], s.threads[t], s'.threads[t], s.live, s'.live, c)
  {
    hide Total, LiveIn, AlignUp, Max, Sane, SameShared;
  }

  /** Pinning and unpinning move one pin between the thread and its chunk. */
  lemma PinDelta(s: State, s': State, t: nat, a: Action, c: nat)
    requires t < |s.threads| && CarveStep(s, s', t, a) && c < |s.chunks|
    requires !a.Serve? && !a.Install? && !a.RetireFlush? && !a.ClearFlush?
    ensures |s'.chunks| == |s.chunks| && |s'.threads| == |s.threads| && s'.threads == s.threads[t := s'.threads[t]]
    ensures Delta(s.chunks[c], s'.chunks[c], s.threads[t], s'.threads[t], s.live, s'.live, c)
  {
    hide CarveStep, PcPins, LiveIn;
    PinMoves(s, s', t, a, c);
    PinWeights(s.threads[t], s'.threads[t].pc, c);
    hide Weight;
  }

  /** Pins a control state accounts for. */
  ghost function PcPins(pc: Pc, c: nat): nat {
    (if PinnedBy(pc) == Some(c) then 1 else 0) + (if PriorOf(pc) == Some(c) then 1 else 0)
  }

  lemma PinMoves(s: State, s': State, t: nat, a: Action, c: nat)
    requires t < |s.threads| && CarveStep(s, s', t, a) && c < |s.chunks|
    requires !a.Serve? && !a.Install? && !a.RetireFlush? && !a.ClearFlush?
    ensures |s'.chunks| == |s.chunks| && |s'.threads| == |s.threads| && s'.threads == s.threads[t := s'.threads[t]]
    ensures s'.threads[t] == s.threads[t].(pc := s'.threads[t].pc) && s'.live == s.live
    ensures s'.chunks[c] == s.chunks[c].(spans := s'.chunks[c].spans, cursor := s'.chunks[c].cursor)
    ensures s'.chunks[c].spans + PcPins(s.threads[t].pc, c) == s.chunks[c].spans + PcPins(s'.threads[t].pc, c)
  {
    hide AlignUp, Max, Reserve, Sane, SameShared;
  }

  lemma PinWeights(th: Thread, pc: Pc, c: nat)
    ensures Weight(th.(pc := pc), Pins, c) + PcPins(th.pc, c) == Weight(th, Pins, c) + PcPins(pc, c)
    ensures Weight(th.(pc := pc), Unflushed, c) == Weight(th, Unflushed, c)
    ensures Weight(th.(pc := pc), Pending, c) == Weight(th, Pending, c)
  {
    hide PinnedBy, PriorOf;
  }

  lemma HandDelta(s: State, s': State, t: nat, a: Action, c: nat)
    requires t < |s.threads| && RefsOk(s.threads[t], |s.chunks|) && CarveStep(s, s', t, a) && FreshBlock(s, t, a)
              && c < |s.chunks|
    requires a.Serve? || a.Install?
    ensures |s'.chunks| == |s.chunks| && |s'.threads| == |s.threads| && s'.threads == s.threads[t := s'.threads[t]]
    ensures Delta(s.chunks[c], s'.chunks[c], s.threads[t], s'.threads[t], s.live, s'.live, c)
  {
    hide Total, LiveIn, AlignUp, AlignOf, Max, Reserve, Sane, Balanced, RefsOk;
    SpanGone(s.threads[t], |s.chunks|);
    LiveAdd(s.live, HandedOut(s, t, a).value, c);
  }

  lemma CarveCounts(s: State, s': State, t: nat, a: Action)
    requires CountsOk(s) && ShapeOk(s) && t < |s.threads| && CarveStep(s, s', t, a) && FreshBlock(s, t, a)
    ensures CountsOk(s')
  {
    hide Delta, CarveStep, HandedOut, Weight, FreshBlock, Balanced;
    forall c | 0 <= c < |s.chunks|
      ensures |s'.chunks| == |s.chunks| && |s'.threads| == |s.threads| && s'.threads == s.threads[t := s'.threads[t]]
      ensures Delta(s.chunks[c], s'.chunks[c], s.threads[t], s'.threads[t], s.live, s'.live, c)
    {
      CarveDelta(s, s', t, a, c);
    }
    CarveDelta(s, s', t, a, s.current);
    KeepCounts(s, s', t, s'.threads[t]);
  }

  lemma SpanGone(th: Thread, n: nat)
    requires RefsOk(th, n)
    ensures th.pc.Retired? || th.pc.Installing? ==> th.span.NoSpan?
  {
  }

  lemma FreeCounts(s: State, s': State, t: nat, a: Action)
    requires CountsOk(s) && ShapeOk(s) && t < |s.threads| && FreeStep(s, s', t, a)
    ensures CountsOk(s')
  {
    hide Total, LiveIn, Balanced, RefsOk;
    var th := s'.threads[t];
    forall c | 0 <= c < |s.chunks| ensures Delta(s.chunks[c], s'.chunks[c], s.threads[t], th, s.live, s'.live, c) {
      if a.Free? {
        LiveAdd(s.live - {a.b}, a.b, c);
        assert s.live - {a.b} + {a.b} == s.live;
      }
    }
    hide Delta, FreeStep, Weight;
    KeepCounts(s, s', t, th);
  }

  lemma LockCounts(s: State, s': State, t: nat, a: Action)
    requires CountsOk(s) && ShapeOk(s) && t < |s.threads| && LockStep(s, s', t, a) && FreshBlock(s, t, a)
    ensures CountsOk(s')
  {
    hide Delta, LockStep, HandedOut, Weight, Balanced;
    LockFrame(s, s', t, a);
    forall c | 0 <= c < |s.chunks|
      ensures Delta(s.chunks[c], s'.chunks[c], s.threads[t], s'.threads[t], s.live, s'.live, c)
    {
      LockDelta(s, s', t, a, c);
    }
    KeepCounts(s, s', t, s'.threads[t]);
  }

  lemma LockFrame(s: State, s': State, t: nat, a: Action)
    requires t < |s.threads| && LockStep(s, s', t, a)
    ensures |s'.chunks| == |s.chunks| && |s'.threads| == |s.threads| && s'.threads == s.threads[t := s'.threads[t]]
  {
    hide AlignUp, AlignOf, Sane, SameShared;
  }

  lemma LockDelta(s: State, s': State, t: nat, a: Action, c: nat)
    requires t < |s.threads| && LockStep(s, s', t, a) && FreshBlock(s, t, a) && c < |s.chunks|
    ensures |s'.chunks| == |s.chunks| && |s'.threads| == |s.threads|
    ensures Delta(s.chunks[c], s'.chunks[c], s.threads[t], s'.threads[t], s.live, s'.live, c)
  {
    hide Total, LiveIn, AlignUp, AlignOf, Max, Sane;
    if HandedOut(s, t, a).Some? { LiveAdd(s.live, HandedOut(s, t, a).value, c); }
  }

  lemma ScanDelta(s: State, s': State, t: nat, a: Action, c: nat)
    requires t < |s.threads| && ScanStep(s, s', t, a) && c < |s.chunks|
    ensures |s'.chunks| >= |s.chunks| && |s'.threads| == |s.threads|
    ensures Delta(s.chunks[c], s'.chunks[c], s.threads[t], s'.threads[t], s.live, s'.live, c)
  {
    hide ScanStep, LiveIn, PcPins;
    ScanMoves(s, s', t, a, c);
    PinWeights(s.threads[t], s'.threads[t].pc, c);
    hide Weight;
  }

  /** A scan step moves no count. */
  lemma ScanMoves(s: State, s': State, t: nat, a: Action, c: nat)
    requires t < |s.threads| && ScanStep(s, s', t, a) && c < |s.chunks|
    ensures |s'.chunks| >= |s.chunks| && |s'.threads| == |s.threads|
    ensures s'.threads[t] == s.threads[t].(pc := s'.threads[t].pc) && s'.live == s.live
    ensures s'.chunks[c] == s.chunks[c].(intent := s'.chunks[c].intent, cursor := s'.chunks[c].cursor)
    ensures PcPins(s.threads[t].pc, c) == PcPins(s'.threads[t].pc, c) == 0
  {
    hide FreshChunk, SameShared;
  }

  lemma ScanFrame(s: State, s': State, t: nat, a: Action)
    requires t < |s.threads| && ScanStep(s, s', t, a)
    ensures |s'.chunks| >= |s.chunks| && |s'.threads| == |s.threads| && s'.threads == s.threads[t := s'.threads[t]]
    ensures s'.live == s.live
    ensures |s'.chunks| > |s.chunks| ==>
      && |s'.chunks| == |s.chunks| + 1 && a.Grow?
      && s'.chunks[|s.chunks|] == Chunk(a.base, s.chunkSize, a.base, false, 0, 0, 0, 0, 0)
      && s'.threads[t] == s.threads[t].(pc := s'.threads[t].pc) && s'.threads[t].pc.Locked?
  {
    hide FreshChunk;
  }

  lemma ScanCounts(s: State, s': State, t: nat, a: Action)
    requires CountsOk(s) && ShapeOk(s) && t < |s.threads| && ScanStep(s, s', t, a)
    ensures CountsOk(s')
  {
    hide Total, LiveIn, RefsOk, Delta, ScanStep, Weight;
    var n := |s.chunks|;
    ScanFrame(s, s', t, a);
    var kept := s'.(chunks := s'.chunks[..n]);
    forall c | 0 <= c < n
      ensures Delta(s.chunks[c], kept.chunks[c], s.threads[t], s'.threads[t], s.live, s'.live, c)
    {
      ScanDelta(s, s', t, a, c);
    }
    KeepCounts(s, kept, t, s'.threads[t]);
    if |s'.chunks| > n {
      LockedRefs(s.threads[t], s'.threads[t], n);
      Unreferenced(s'.threads, s'.live, n);
      assert Balanced(s'.chunks[n], s'.threads, s'.live, n);
    }
    hide Balanced;
    forall c | 0 <= c < |s'.chunks| ensures Balanced(s'.chunks[c], s'.threads, s'.live, c) {
      if c < n { assert Balanced(kept.chunks[c], kept.threads, kept.live, c); }
    }
  }

  lemma LockedRefs(th: Thread, th': Thread, n: nat)
    requires RefsOk(th, n) && th' == th.(pc := th'.pc) && th'.pc.Locked?
    ensures RefsOk(th', n)
  {
  }

  /** Nothing refers to a chunk index that is not mapped yet. */
  lemma Unreferenced(threads: seq<Thread>, live: set<LiveBlock>, n: nat)
    requires forall t :: 0 <= t < |threads| ==> RefsOk(threads[t], n)
    requires forall b :: b in live ==> b.chunk < n
    ensures Total(threads, Pins, n) == Total(threads, Unflushed, n) == Total(threads, Pending, n) == 0
    ensures LiveIn(live, n) == {}
  {
    forall t | 0 <= t < |threads|
      ensures Weight(threads[t], Pins, n) == Weight(threads[t], Unflushed, n) == Weight(threads[t], Pending, n) == 0
    {
      assert RefsOk(threads[t], n);
    }
    hide Weight, RefsOk;
    TotalZero(threads, Pins, n);
    TotalZero(threads, Unflushed, n);
    TotalZero(threads, Pending, n);
  }

  lemma ShapeFrame(s: State, s': State, t: nat)
    requires ShapeOk(s) && t < |s.threads| && |s'.threads| == |s.threads| && |s'.chunks| >= |s.chunks|
    requires s'.threads == s.threads[t := s'.threads[t]] && RefsOk(s'.threads[t], |s'.chunks|)
    requires s'.current < |s'.chunks| && s'.published < |s'.chunks|
    requires forall b :: b in s'.live ==> b.chunk < |s'.chunks|
    ensures ShapeOk(s')
  {
    forall u | 0 <= u < |s'.threads| ensures RefsOk(s'.threads[u], |s'.chunks|) {
      if u != t { assert RefsOk(s.threads[u], |s.chunks|); }
    }
  }

  lemma CarveShape(s: State, s': State, t: nat, a: Action)
    requires ShapeOk(s) && t < |s.threads| && CarveStep(s, s', t, a)
    ensures ShapeOk(s')
  {
    hide AlignUp;
    assert RefsOk(s.threads[t], |s.chunks|);
    ShapeFrame(s, s', t);
  }

  lemma FreeShape(s: State, s': State, t: nat, a: Action)
    requires ShapeOk(s) && t < |s.threads| && FreeStep(s, s', t, a)
    ensures ShapeOk(s')
  {
    assert RefsOk(s.threads[t], |s.chunks|);
    ShapeFrame(s, s', t);
  }

  lemma LockShape(s: State, s': State, t: nat, a: Action)
    requires ShapeOk(s) && t < |s.threads| && LockStep(s, s', t, a)
    ensures ShapeOk(s')
  {
    hide AlignUp;
    assert RefsOk(s.threads[t], |s.chunks|);
    ShapeFrame(s, s', t);
  }

  lemma ScanShape(s: State, s': State, t: nat, a: Action)
    requires ShapeOk(s) && t < |s.threads| && ScanStep(s, s', t, a)
    ensures ShapeOk(s') && |s'.threads| == |s.threads|
  {
    hide FreshChunk;
    assert RefsOk(s.threads[t], |s.chunks|);
    ShapeFrame(s, s', t);
  }
}
