/** What the training policy freezes: the best arm per signature, the context overrides at two
    depths, and the sites that route alike from one frame. Rewards are reals. */
module Bandit {
  import opened Wrappers
  import opened Bytes
  import opened Entries
  import opened Routing

  const ARMS: nat := 4
  const FINE_MIN_PULLS: nat := 32
  const FINE_MARGIN: real := 0.05
  const DEEP_CTX_MIN_FRACTION: real := 0.05

  // ---- running variance ------------------------------------------------------------------

  ghost function Sum(xs: seq<real>): real {
    if xs == [] then 0.0 else Sum(xs[..|xs| - 1]) + xs[|xs| - 1]
  }

  /** Sum of squared distances from `c`. */
  ghost function SquaredFrom(xs: seq<real>, c: real): real {
    if xs == [] then 0.0
    else SquaredFrom(xs[..|xs| - 1], c) + (xs[|xs| - 1] - c) * (xs[|xs| - 1] - c)
  }

  /** Population variance. */
  ghost function Variance(xs: seq<real>): real {
    if xs == [] then 0.0 else SquaredFrom(xs, Sum(xs) / |xs| as real) / |xs| as real
  }

  lemma OneMoreValue(xs: seq<real>, x: real, c: real)
    ensures Sum(xs + [x]) == Sum(xs) + x
    ensures SquaredFrom(xs + [x], c) == SquaredFrom(xs, c) + (x - c) * (x - c)
  {
    assert (xs + [x])[..|xs|] == xs;
  }

  lemma NoValues(c: real)
    ensures Sum([]) == 0.0 && SquaredFrom([], c) == 0.0
  {
  }

  lemma {:induction false} MoveCentre(xs: seq<real>, a: real, b: real)
    ensures SquaredFrom(xs, b)
            == SquaredFrom(xs, a) + 2.0 * (a - b) * (Sum(xs) - |xs| as real * a) + |xs| as real * (a - b) * (a - b)
  {
    hide Sum, SquaredFrom;
    if xs == [] {
      NoValues(a);
      NoValues(b);
    } else {
      var front, x := xs[..|xs| - 1], xs[|xs| - 1];
      assert xs == front + [x] && |xs| as real == |front| as real + 1.0;
      MoveCentre(front, a, b);
      OneMoreValue(front, x, a);
      OneMoreValue(front, x, b);
      CentreAlgebra(|front| as real, Sum(front), SquaredFrom(front, a), SquaredFrom(front, b), x, a, b);
    }
  }

  lemma CentreAlgebra(n: real, s: real, v: real, w: real, x: real, a: real, b: real)
    requires w == v + 2.0 * (a - b) * (s - n * a) + n * (a - b) * (a - b)
    ensures w + (x - b) * (x - b)
            == v + (x - a) * (x - a) + 2.0 * (a - b) * (s + x - (n + 1.0) * a) + (n + 1.0) * (a - b) * (a - b)
  {
    var y, d := x - a, a - b;
    assert x - b == y + d;
    assert (y + d) * (y + d) == y * y + 2.0 * d * y + d * d;
    assert s + x - (n + 1.0) * a == s - n * a + y;
    assert 2.0 * d * (s - n * a + y) == 2.0 * d * (s - n * a) + 2.0 * d * y;
    assert (n + 1.0) * d * d == n * d * d + d * d;
  }

  /** The running update is exact: with mean `m` over `n` values, one more value `x`. */
  lemma StepExact(xs: seq<real>, x: real, m: real, m': real)
    requires Sum(xs) == |xs| as real * m && m' == m + (x - m) / (|xs| + 1) as real
    ensures Sum(xs + [x]) == (|xs| + 1) as real * m'
    ensures SquaredFrom(xs + [x], m') == SquaredFrom(xs, m) + (x - m) * (x - m')
  {
    OneMoreValue(xs, x, m');
    MoveCentre(xs, m, m');
    hide Sum, SquaredFrom;
    assert (|xs| + 1) as real == |xs| as real + 1.0;
    StepAlgebra(|xs| as real, x, m, m', Sum(xs), SquaredFrom(xs, m), SquaredFrom(xs, m'));
  }

  lemma StepAlgebra(n: real, x: real, m: real, m': real, s: real, v: real, w: real)
    requires n >= 0.0 && s == n * m && m' == m + (x - m) / (n + 1.0)
    requires w == v + 2.0 * (m - m') * (s - n * m) + n * (m - m') * (m - m')
    ensures s + x == (n + 1.0) * m'
    ensures w + (x - m') * (x - m') == v + (x - m) * (x - m')
  {
    var d, e := x - m, m' - m;
    assert (n + 1.0) * e == d;
    assert w == v + n * e * e;
    assert n * e * e == (d - e) * e;
    assert x - m' == d - e;
  }

  /** One arm's accumulators. */
  datatype Arm = Arm(sum: real, pulls: nat, obs: nat, mean: real, m2: real)

  /** The accumulators stand for exactly these observed batch means. */
  ghost predicate Summarises(a: Arm, seen: seq<real>) {
    a.obs == |seen| && Sum(seen) == a.obs as real * a.mean && a.m2 == SquaredFrom(seen, a.mean)
  }

  function ArmVariance(a: Arm): real {
    if a.obs < 2 then 0.0 else a.m2 / a.obs as real
  }

  /** The escalation gate's number is the population variance of everything observed. */
  lemma ArmVarianceExact(a: Arm, seen: seq<real>)
    requires Summarises(a, seen)
    ensures ArmVariance(a) == Variance(seen)
  {
    if a.obs < 2 {
      NoSpread(seen);
    } else {
      assert Sum(seen) / a.obs as real == a.mean;
    }
  }

  /** One more observation keeps the accumulators exact. */
  lemma ObservedOne(a: Arm, seen: seq<real>, x: real, mean: real, m2: real)
    requires Summarises(a, seen)
    requires mean == a.mean + (x - a.mean) / (a.obs + 1) as real && m2 == a.m2 + (x - a.mean) * (x - mean)
    ensures Summarises(a.(obs := a.obs + 1, mean := mean, m2 := m2), seen + [x])
  {
    hide Sum, SquaredFrom;
    StepExact(seen, x, a.mean, mean);
  }

  /** One arm's statistics, updated in place. */
  class ArmStats {
    var sumReward: real
    var pulls: nat
    var obs: nat
    var obsMean: real
    var obsM2: real
    /** Every batch mean observed. */
    ghost var seen: seq<real>

    ghost predicate Valid()
      reads this
    {
      Summarises(Value(), seen)
    }

    function Value(): Arm
      reads this
    {
      Arm(sumReward, pulls, obs, obsMean, obsM2)
    }

    constructor (reward: real)
      ensures Valid() && seen == [] && sumReward == reward && pulls == 1
    {
      sumReward, pulls, obs, obsMean, obsM2, seen := reward, 1, 0, 0.0, 0.0, [];
    }

    method Observe(reward: real)
      requires Valid()
      modifies `obs, `obsMean, `obsM2, `seen
      ensures Valid() && seen == old(seen) + [reward]
    {
      hide Summarises;
      ghost var was := Value();
      obs := obs + 1;
      var delta := reward - obsMean;
      obsMean := obsMean + delta / obs as real;
      obsM2 := obsM2 + delta * (reward - obsMean);
      ObservedOne(was, seen, reward, obsMean, obsM2);
      seen := seen + [reward];
    }

    /** Credits the batch mean once per pull it stands for, and observes it once. */
    method UpdateWeighted(reward: real, weight: nat)
      requires Valid()
      modifies `sumReward, `obs, `obsMean, `obsM2, `seen
      ensures Valid() && seen == old(seen) + [reward] && sumReward == old(sumReward) + reward * weight as real
    {
      sumReward := sumReward + reward * weight as real;
      Observe(reward);
    }

    /** The escalation gate's number is the exact population variance of everything observed. */
    method RewardVariance() returns (v: real)
      requires Valid()
      ensures v == Variance(seen)
    {
      ArmVarianceExact(Value(), seen);
      hide Sum, SquaredFrom, Variance;
      if obs < 2 {
        return 0.0;
      }
      return obsM2 / obs as real;
    }
  }

  lemma NoSpread(xs: seq<real>)
    requires |xs| < 2
    ensures Variance(xs) == 0.0
  {
    if xs != [] {
      assert xs[..0] == [];
      assert Sum(xs) == xs[0];
      assert SquaredFrom(xs, xs[0]) == 0.0;
    }
  }

  // ---- best arm --------------------------------------------------------------------------

  function Mean(sum: real, pulls: nat): real {
    if pulls == 0 then 0.0 else sum / pulls as real
  }

  /** Index of a greatest mean, the last one on ties. */
  function Best(means: seq<real>): (b: nat)
    requires |means| > 0
    ensures b < |means|
  {
    if |means| == 1 then 0
    else
      var b := Best(means[..|means| - 1]);
      if means[b] <= means[|means| - 1] then |means| - 1 else b
  }

  lemma {:induction false} BestIsLastMax(means: seq<real>)
    requires |means| > 0
    ensures forall i :: 0 <= i < |means| ==> means[i] <= means[Best(means)]
    ensures forall i :: Best(means) < i < |means| ==> means[i] < means[Best(means)]
  {
    if |means| > 1 { BestIsLastMax(means[..|means| - 1]); }
  }

  lemma LastMaxUnique(means: seq<real>, i: nat)
    requires i < |means|
    ensures (forall j :: 0 <= j < |means| ==> means[j] <= means[i])
              && (forall j :: i < j < |means| ==> means[j] < means[i])
            <==> i == Best(means)
  {
    BestIsLastMax(means);
    hide Best;
  }

  /** The scan that keeps the later of equal means. */
  method BestLoop(means: seq<real>) returns (b: nat)
    requires |means| > 0
    ensures b == Best(means)
  {
    b := 0;
    for i := 1 to |means|
      invariant b < i && b == Best(means[..i])
    {
      assert means[..i + 1][..i] == means[..i];
      if means[b] <= means[i] {
        b := i;
      }
    }
    assert means[..|means|] == means;
  }

  datatype Signature = Signature(callerPc: u64, sizeClass: u8)

  datatype Stat = Stat(sig: Signature, arms: seq<Arm>, totalPulls: u32, oneFrame: u64)

  /** What a signature's four arms have come to. */
  function StatFrom(sig: Signature, arms: seq<ArmStats>, totalPulls: u32, oneFrame: u64): (s: Stat)
    requires |arms| == ARMS
    reads arms
    ensures |s.arms| == ARMS
  {
    Stat(sig, seq(ARMS, i requires 0 <= i < ARMS reads arms => arms[i].Value()), totalPulls, oneFrame)
  }

  /** The variance gate compares the threshold with the exact variance of what the frozen verdict's
      arm observed. */
  lemma VariesIff(sig: Signature, arms: seq<ArmStats>, totalPulls: u32, oneFrame: u64, threshold: real)
    requires |arms| == ARMS && forall i :: 0 <= i < ARMS ==> arms[i].Valid()
    ensures var s := StatFrom(sig, arms, totalPulls, oneFrame);
      Varies(s, threshold) <==> Variance(arms[Code(BestBackend(s))].seen) >= threshold
  {
    var s := StatFrom(sig, arms, totalPulls, oneFrame);
    var verdict := Code(BestBackend(s));
    hide BestBackend, Sum, SquaredFrom, Variance, ArmVariance;
    ArmVarianceExact(arms[verdict].Value(), arms[verdict].seen);
  }

  /** What one history context observed of each arm. */
  datatype Fine = Fine(sums: seq<real>, pulls: seq<nat>)

  datatype Row = Row(sig: Signature, ctx: u8, fine: Fine)

  /** The policy's maps, as their rows in key order. */
  datatype Policy = Policy(stats: seq<Stat>, fine: seq<Row>, deep: seq<Row>)

  predicate FineOk(f: Fine) { |f.sums| == |f.pulls| == ARMS }

  predicate RowsOk(rows: seq<Row>) { forall i :: 0 <= i < |rows| ==> FineOk(rows[i].fine) }

  ghost predicate PolicyOk(p: Policy) {
    && (forall i :: 0 <= i < |p.stats| ==> |p.stats[i].arms| == ARMS)
    && RowsOk(p.fine) && RowsOk(p.deep)
  }

  function BestBackend(s: Stat): Backend
    requires |s.arms| == ARMS
  {
    BackendOf(Best(seq(ARMS, i requires 0 <= i < ARMS => Mean(s.arms[i].sum, s.arms[i].pulls))))
  }

  function Means(f: Fine): (r: seq<real>)
    requires FineOk(f)
    ensures |r| == ARMS
  {
    seq(ARMS, i requires 0 <= i < ARMS => Mean(f.sums[i], f.pulls[i]))
  }

  /** How far an arm is ahead of the coarse verdict's arm, in this context. */
  function Margin(f: Fine, best: Backend, coarse: Backend): real
    requires FineOk(f)
  {
    Means(f)[Code(best)] - Means(f)[Code(coarse)]
  }

  function FineOverride(f: Fine, coarse: Backend): Option<(Backend, real)>
    requires FineOk(f)
  {
    var best := Best(Means(f));
    var b := BackendOf(best);
    var margin := Means(f)[best] - Means(f)[Code(coarse)];
    if f.pulls[best] < FINE_MIN_PULLS || f.pulls[Code(coarse)] == 0 || b == coarse || margin < FINE_MARGIN then None
    else Some((b, margin))
  }

  /** An override names the context's best arm; it disagrees with the coarse verdict and beats it by
      the margin, both arms having been observed here. */
  ghost predicate Justified(f: Fine, coarse: Backend, b: Backend)
    requires FineOk(f)
  {
    && b != coarse && Margin(f, b, coarse) >= FINE_MARGIN
    && f.pulls[Code(b)] >= FINE_MIN_PULLS && f.pulls[Code(coarse)] > 0
    && (forall i :: 0 <= i < ARMS ==> Means(f)[i] <= Means(f)[Code(b)])
    && (forall i :: Code(b) < i < ARMS ==> Means(f)[i] < Means(f)[Code(b)])
  }

  lemma CodeBack(i: nat)
    requires i < ARMS
    ensures Code(BackendOf(i)) == i
  {
  }

  /** Exactly the justified overrides are made, and at most one backend is justified. */
  lemma OverrideIff(f: Fine, coarse: Backend, b: Backend)
    requires FineOk(f)
    ensures Justified(f, coarse, b) <==> FineOverride(f, coarse).Some? && FineOverride(f, coarse).value.0 == b
    ensures FineOverride(f, coarse).Some? ==>
              FineOverride(f, coarse).value.1 == Margin(f, FineOverride(f, coarse).value.0, coarse)
  {
    BestIsLastMax(Means(f));
    CodeBack(Best(Means(f)));
    hide Best, Means, BackendOf, Code;
    LastMaxUnique(Means(f), Code(b));
    CodeInjective(b, Best(Means(f)));
  }

  lemma CodeInjective(b: Backend, i: nat)
    requires i < ARMS
    ensures Code(b) == i <==> b == BackendOf(i)
  {
  }

  // ---- shallow context -------------------------------------------------------------------

  datatype Override = Override(key: u64, coarse: u64, sig: Signature, backend: Backend)

  function CoarseKey(sig: Signature): u64 { SiteKey(sig.callerPc, sig.sizeClass) }

  /** The verdict a context row overrides its parent with, if any. */
  function Overrides(r: Row, coarse: map<u64, Backend>): Option<(Backend, real)>
    requires FineOk(r.fine)
  {
    if CoarseKey(r.sig) in coarse then FineOverride(r.fine, coarse[CoarseKey(r.sig)]) else None
  }

  function Shallow1(r: Row, coarse: map<u64, Backend>): seq<Override>
    requires FineOk(r.fine)
  {
    var o := Overrides(r, coarse);
    if o.None? then [] else [Override(ContextKey(CoarseKey(r.sig), r.ctx), CoarseKey(r.sig), r.sig, o.value.0)]
  }

  function ShallowEntries(rows: seq<Row>, coarse: map<u64, Backend>): seq<Override>
    requires RowsOk(rows)
  {
    if rows == [] then [] else ShallowEntries(rows[..|rows| - 1], coarse) + Shallow1(rows[|rows| - 1], coarse)
  }

  function Parents(entries: seq<Override>): set<u64> {
    set i | 0 <= i < |entries| :: entries[i].coarse
  }

  // ---- deep context ----------------------------------------------------------------------

  function StatOf(stats: seq<Stat>, sig: Signature): Option<Stat> {
    if stats == [] then None
    else if stats[|stats| - 1].sig == sig then Some(stats[|stats| - 1])
    else StatOf(stats[..|stats| - 1], sig)
  }

  /** The site was trained at two size classes. */
  ghost predicate MixedSizes(stats: seq<Stat>, callerPc: u64) {
    exists i, j :: 0 <= i < |stats| && 0 <= j < |stats| && stats[i].sig.callerPc == stats[j].sig.callerPc == callerPc
      && stats[i].sig.sizeClass != stats[j].sig.sizeClass
  }

  function Larger(a: real, b: real): real { if b > a then b else a }

  /** The best margin any shallow context of the signature showed, emitted or not, from zero. */
  function ShallowBest(rows: seq<Row>, coarse: map<u64, Backend>, sig: Signature): real
    requires RowsOk(rows)
  {
    if rows == [] then 0.0
    else
      var rest, r := ShallowBest(rows[..|rows| - 1], coarse, sig), rows[|rows| - 1];
      if r.sig == sig && Comparable(r, coarse) then Larger(rest, BestMargin(r, coarse)) else rest
  }

  /** The coarse verdict's arm was observed in this context. */
  predicate Comparable(r: Row, coarse: map<u64, Backend>)
    requires FineOk(r.fine)
  {
    CoarseKey(r.sig) in coarse && r.fine.pulls[Code(coarse[CoarseKey(r.sig)])] > 0
  }

  function BestMargin(r: Row, coarse: map<u64, Backend>): real
    requires FineOk(r.fine) && CoarseKey(r.sig) in coarse
  {
    Means(r.fine)[Best(Means(r.fine))] - Means(r.fine)[Code(coarse[CoarseKey(r.sig)])]
  }

  function Traffic(f: Fine): nat
    requires FineOk(f)
  {
    f.pulls[0] + f.pulls[1] + f.pulls[2] + f.pulls[3]
  }

  /** The frozen verdict's arm varies at least this much. */
  predicate Varies(s: Stat, threshold: real)
    requires |s.arms| == ARMS
  {
    ArmVariance(s.arms[Code(BestBackend(s))]) >= threshold
  }

  /** The context carries a real share of the signature's traffic. */
  predicate Carries(f: Fine, s: Stat)
    requires FineOk(f)
  {
    s.totalPulls > 0 && Traffic(f) as real / s.totalPulls as real >= DEEP_CTX_MIN_FRACTION
  }

  ghost function Deep1(p: Policy, coarse: map<u64, Backend>, flagged: set<u64>, threshold: real,
      r: Row): (out: seq<Override>)
    requires PolicyOk(p) && FineOk(r.fine)
    ensures |out| <= 1
  {
    var key, s := CoarseKey(r.sig), StatOf(p.stats, r.sig);
    StatOk(p.stats, r.sig);
    var o := Overrides(r, coarse);
    if key !in flagged && s.Some? && Varies(s.value, threshold) && MixedSizes(p.stats, r.sig.callerPc)
       && Carries(r.fine, s.value) && o.Some? && o.value.1 > ShallowBest(p.fine, coarse, r.sig)
    then [Override(DeepKey(key, r.ctx), key, r.sig, o.value.0)]
    else []
  }

  lemma {:induction false} StatOk(stats: seq<Stat>, sig: Signature)
    ensures StatOf(stats, sig).Some? ==> StatOf(stats, sig).value in stats && StatOf(stats, sig).value.sig == sig
  {
    if stats != [] {
      StatOk(stats[..|stats| - 1], sig);
      assert stats == stats[..|stats| - 1] + [stats[|stats| - 1]];
    }
  }

  ghost function DeepEntries(p: Policy, coarse: map<u64, Backend>, flagged: set<u64>, threshold: real,
      rows: seq<Row>): seq<Override>
    requires PolicyOk(p) && RowsOk(rows)
  {
    if rows == [] then []
    else
      DeepEntries(p, coarse, flagged, threshold, rows[..|rows| - 1])
      + Deep1(p, coarse, flagged, threshold, rows[|rows| - 1])
  }

  /** The one-frame groups of the overridden signatures, by coarse key. */
  function Mark(frames: map<u64, (u64, u8)>, stats: seq<Stat>, e: Override): map<u64, (u64, u8)> {
    var s := StatOf(stats, e.sig);
    if s.Some? && s.value.oneFrame != 0 then frames[e.coarse := (s.value.oneFrame, e.sig.sizeClass)] else frames
  }

  function Frames(start: map<u64, (u64, u8)>, stats: seq<Stat>, entries: seq<Override>): map<u64, (u64, u8)> {
    if entries == [] then start
    else Mark(Frames(start, stats, entries[..|entries| - 1]), stats, entries[|entries| - 1])
  }

  lemma FramesMore(start: map<u64, (u64, u8)>, stats: seq<Stat>, entries: seq<Override>, more: seq<Override>)
    requires |more| <= 1
    ensures Frames(start, stats, entries + more)
            == if more == [] then Frames(start, stats, entries) else Mark(Frames(start, stats, entries), stats, more[0])
  {
    if more == [] { assert entries + more == entries; } else { assert (entries + more)[..|entries|] == entries; }
  }

  datatype FineFreeze = FineFreeze(entries: seq<Override>, flagged: set<u64>, deepEntries: seq<Override>,
      deepFlagged: set<u64>, frames: map<u64, (u64, u8)>)

  /** Overrides at both depths; a threshold of zero turns the deep pass off. */
  ghost function FreezeFine(p: Policy, coarse: map<u64, Backend>, threshold: real): FineFreeze
    requires PolicyOk(p)
  {
    var entries := ShallowEntries(p.fine, coarse);
    var deep := if threshold > 0.0 then DeepEntries(p, coarse, Parents(entries), threshold, p.deep) else [];
    FineFreeze(entries, Parents(entries), deep, Parents(deep), Frames(Frames(map[], p.stats, entries), p.stats, deep))
  }

  // ---- the freeze loops ------------------------------------------------------------------

  lemma ParentsAppend(a: seq<Override>, b: seq<Override>)
    requires |b| <= 1
    ensures Parents(a + b) == Parents(a) + Parents(b)
    ensures |b| == 1 ==> Parents(b) == {b[0].coarse}
    ensures b == [] ==> Parents(b) == {}
  {
    forall k ensures k in Parents(a + b) <==> k in Parents(a) || k in Parents(b) {
      if k in Parents(a) {
        var i :| 0 <= i < |a| && a[i].coarse == k;
        assert (a + b)[i].coarse == k;
      }
      if k in Parents(b) {
        assert (a + b)[|a|].coarse == k;
      }
    }
  }

  method ShallowPass(stats: seq<Stat>, rows: seq<Row>, coarse: map<u64, Backend>)
    returns (entries: seq<Override>, flagged: set<u64>, frames: map<u64, (u64, u8)>)
    requires RowsOk(rows)
    ensures entries == ShallowEntries(rows, coarse) && flagged == Parents(entries)
    ensures frames == Frames(map[], stats, entries)
  {
    hide FineOverride, SiteKey, ContextKey, StatOf, Parents;
    entries, flagged, frames := [], {}, map[];
    NoParents();
    for i := 0 to |rows|
      invariant entries == ShallowEntries(rows[..i], coarse) && flagged == Parents(entries)
      invariant frames == Frames(map[], stats, entries)
    {
      assert rows[..i + 1][..i] == rows[..i];
      ParentsAppend(entries, Shallow1(rows[i], coarse));
      FramesMore(map[], stats, entries, Shallow1(rows[i], coarse));
      var key := CoarseKey(rows[i].sig);
      if key !in coarse {
        continue;
      }
      var o := FineOverride(rows[i].fine, coarse[key]);
      if o.None? {
        continue;
      }
      entries := entries + [Override(ContextKey(key, rows[i].ctx), key, rows[i].sig, o.value.0)];
      flagged := flagged + {key};
      var s := StatOf(stats, rows[i].sig);
      if s.Some? && s.value.oneFrame != 0 {
        frames := frames[key := (s.value.oneFrame, rows[i].sig.sizeClass)];
      }
    }
    assert rows[..|rows|] == rows;
  }

  /** Distinct size classes per call site. */
  method SizesPerSite(stats: seq<Stat>) returns (sizes: map<u64, set<u8>>)
    ensures forall pc: u64, c: u8 :: (pc in sizes && c in sizes[pc]) <==>
              exists i :: 0 <= i < |stats| && stats[i].sig == Signature(pc, c)
  {
    sizes := map[];
    for i := 0 to |stats|
      invariant forall pc: u64, c: u8 :: (pc in sizes && c in sizes[pc]) <==>
                  exists k :: 0 <= k < i && stats[k].sig == Signature(pc, c)
    {
      var (pc, c) := (stats[i].sig.callerPc, stats[i].sig.sizeClass);
      sizes := sizes[pc := (if pc in sizes then sizes[pc] else {}) + {c}];
    }
  }

  lemma TwoSizes(stats: seq<Stat>, pc: u64, sizes: set<u8>)
    requires forall c: u8 :: c in sizes <==> exists i :: 0 <= i < |stats| && stats[i].sig == Signature(pc, c)
    ensures |sizes| >= 2 <==> MixedSizes(stats, pc)
  {
    if |sizes| >= 2 {
      var a :| a in sizes;
      var rest := sizes - {a};
      assert |rest| >= 1;
      var b :| b in rest;
      var i :| 0 <= i < |stats| && stats[i].sig == Signature(pc, a);
      var j :| 0 <= j < |stats| && stats[j].sig == Signature(pc, b);
      assert stats[i].sig.sizeClass != stats[j].sig.sizeClass;
    }
    if MixedSizes(stats, pc) {
      var i, j :| 0 <= i < |stats| && 0 <= j < |stats| && stats[i].sig.callerPc == stats[j].sig.callerPc == pc
        && stats[i].sig.sizeClass != stats[j].sig.sizeClass;
      var a, b := stats[i].sig.sizeClass, stats[j].sig.sizeClass;
      assert stats[i].sig == Signature(pc, a) && stats[j].sig == Signature(pc, b);
      assert {a, b} <= sizes;
      assert |sizes - {a, b}| == |sizes| - 2;
    }
  }

  method BestShallowMargins(rows: seq<Row>, coarse: map<u64, Backend>) returns (best: map<Signature, real>)
    requires RowsOk(rows)
    ensures forall sig :: (if sig in best then best[sig] else 0.0) == ShallowBest(rows, coarse, sig)
  {
    hide Comparable, BestMargin;
    best := map[];
    for i := 0 to |rows|
      invariant forall sig :: (if sig in best then best[sig] else 0.0) == ShallowBest(rows[..i], coarse, sig)
    {
      assert rows[..i + 1][..i] == rows[..i];
      var r := rows[i];
      if !Comparable(r, coarse) {
        continue;
      }
      IsComparable(r, coarse);
      var margin := BestMargin(r, coarse);
      var entry := if r.sig in best then best[r.sig] else 0.0;
      best := best[r.sig := if margin > entry then margin else entry];
    }
    assert rows[..|rows|] == rows;
  }

  lemma IsComparable(r: Row, coarse: map<u64, Backend>)
    requires FineOk(r.fine) && Comparable(r, coarse)
    ensures CoarseKey(r.sig) in coarse
  {
  }

  /** The gates of the deep pass, in order, on one row. */
  method DeepRow(p: Policy, coarse: map<u64, Backend>, flagged: set<u64>, threshold: real, r: Row,
      sizes: map<u64, set<u8>>, margins: map<Signature, real>) returns (e: Option<Override>)
    requires PolicyOk(p) && FineOk(r.fine)
    requires forall pc: u64, c: u8 :: (pc in sizes && c in sizes[pc]) <==>
               exists i :: 0 <= i < |p.stats| && p.stats[i].sig == Signature(pc, c)
    requires forall sig :: (if sig in margins then margins[sig] else 0.0) == ShallowBest(p.fine, coarse, sig)
    ensures Deep1(p, coarse, flagged, threshold, r) == if e.None? then [] else [e.value]
  {
    hide FineOverride, SiteKey, DeepKey, MixedSizes, ShallowBest, BestBackend, Varies, Carries;
    var key := CoarseKey(r.sig);
    if key in flagged || key !in coarse {
      return None;
    }
    var s := StatOf(p.stats, r.sig);
    StatOk(p.stats, r.sig);
    if s.None? || !Varies(s.value, threshold) {
      return None;
    }
    var classes := if r.sig.callerPc in sizes then sizes[r.sig.callerPc] else {};
    TwoSizes(p.stats, r.sig.callerPc, classes);
    if |classes| < 2 || !Carries(r.fine, s.value) {
      return None;
    }
    var o := FineOverride(r.fine, coarse[key]);
    if o.None? || o.value.1 <= (if r.sig in margins then margins[r.sig] else 0.0) {
      return None;
    }
    return Some(Override(DeepKey(key, r.ctx), key, r.sig, o.value.0));
  }

  method DeepPass(p: Policy, coarse: map<u64, Backend>, flagged: set<u64>, threshold: real,
      start: map<u64, (u64, u8)>)
    returns (entries: seq<Override>, deepFlagged: set<u64>, frames: map<u64, (u64, u8)>)
    requires PolicyOk(p)
    ensures entries == DeepEntries(p, coarse, flagged, threshold, p.deep) && deepFlagged == Parents(entries)
    ensures frames == Frames(start, p.stats, entries)
  {
    hide Deep1, ShallowBest, Varies, Carries, Parents, StatOf;
    var sizes := SizesPerSite(p.stats);
    var margins := BestShallowMargins(p.fine, coarse);
    entries, deepFlagged, frames := [], {}, start;
    NoParents();
    for i := 0 to |p.deep|
      invariant entries == DeepEntries(p, coarse, flagged, threshold, p.deep[..i]) && deepFlagged == Parents(entries)
      invariant frames == Frames(start, p.stats, entries)
    {
      assert p.deep[..i + 1][..i] == p.deep[..i];
      var r := p.deep[i];
      ParentsAppend(entries, Deep1(p, coarse, flagged, threshold, r));
      FramesMore(start, p.stats, entries, Deep1(p, coarse, flagged, threshold, r));
      var e := DeepRow(p, coarse, flagged, threshold, r, sizes, margins);
      if e.None? {
        continue;
      }
      entries := entries + [e.value];
      deepFlagged := deepFlagged + {e.value.coarse};
      var s := StatOf(p.stats, e.value.sig);
      if s.Some? && s.value.oneFrame != 0 {
        frames := frames[e.value.coarse := (s.value.oneFrame, e.value.sig.sizeClass)];
      }
    }
    assert p.deep[..|p.deep|] == p.deep;
  }

  method FreezeFineLoop(p: Policy, coarse: map<u64, Backend>, threshold: real) returns (out: FineFreeze)
    requires PolicyOk(p)
    ensures out == FreezeFine(p, coarse, threshold)
  {
    hide ShallowEntries, DeepEntries, Parents, Mark;
    var entries, flagged, frames := ShallowPass(p.stats, p.fine, coarse);
    var deepEntries, deepFlagged := [], {};
    if threshold > 0.0 {
      deepEntries, deepFlagged, frames := DeepPass(p, coarse, flagged, threshold, frames);
    } else {
      NoParents();
    }
    return FineFreeze(entries, flagged, deepEntries, deepFlagged, frames);
  }

  lemma NoParents()
    ensures Parents([]) == {}
  {
  }

  // ---- what freezing guarantees ----------------------------------------------------------

  ghost predicate ShallowReason(rows: seq<Row>, coarse: map<u64, Backend>, e: Override, i: nat)
    requires RowsOk(rows)
  {
    && i < |rows| && e.coarse == CoarseKey(rows[i].sig) && e.coarse in coarse
    && e.key == ContextKey(e.coarse, rows[i].ctx) && e.sig == rows[i].sig
    && Justified(rows[i].fine, coarse[e.coarse], e.backend)
  }

  /** The shallow overrides are exactly the justified ones. */
  lemma {:induction false} ShallowIff(rows: seq<Row>, coarse: map<u64, Backend>, e: Override)
    requires RowsOk(rows)
    ensures e in ShallowEntries(rows, coarse) <==> exists i: nat :: ShallowReason(rows, coarse, e, i)
  {
    hide SiteKey, ContextKey, FineOverride, Justified, Shallow1;
    if rows != [] {
      var n := |rows| - 1;
      ShallowIff(rows[..n], coarse, e);
      ShallowLast(rows, coarse, e);
      forall i: nat | i < n ensures ShallowReason(rows, coarse, e, i) <==> ShallowReason(rows[..n], coarse, e, i) {}
    }
  }

  lemma ShallowLast(rows: seq<Row>, coarse: map<u64, Backend>, e: Override)
    requires RowsOk(rows) && rows != []
    ensures e in Shallow1(rows[|rows| - 1], coarse) <==> ShallowReason(rows, coarse, e, |rows| - 1)
  {
    hide SiteKey, ContextKey, FineOverride, Justified;
    var r := rows[|rows| - 1];
    if CoarseKey(r.sig) in coarse { OverrideIff(r.fine, coarse[CoarseKey(r.sig)], e.backend); }
  }

  /** Why a deep override is made: a parent no shallow context explains, of varying reward, trained
      at several sizes; a context with a real share of its traffic; and a margin that beats the
      coarse verdict and every shallow context of the same signature. */
  ghost predicate DeepReason(p: Policy, coarse: map<u64, Backend>, flagged: set<u64>, threshold: real,
      rows: seq<Row>, e: Override, i: nat)
    requires PolicyOk(p) && RowsOk(rows)
  {
    && i < |rows|
    && var r := rows[i];
    && e.coarse == CoarseKey(r.sig) && e.coarse in coarse && e.coarse !in flagged
    && e.key == DeepKey(e.coarse, r.ctx) && e.sig == r.sig
    && Justified(r.fine, coarse[e.coarse], e.backend)
    && Margin(r.fine, e.backend, coarse[e.coarse]) > ShallowBest(p.fine, coarse, r.sig)
    && MixedSizes(p.stats, r.sig.callerPc)
    && StatOf(p.stats, r.sig).Some? && |StatOf(p.stats, r.sig).value.arms| == ARMS
    && Varies(StatOf(p.stats, r.sig).value, threshold) && Carries(r.fine, StatOf(p.stats, r.sig).value)
  }

  lemma {:induction false} DeepIff(p: Policy, coarse: map<u64, Backend>, flagged: set<u64>, threshold: real,
      rows: seq<Row>, e: Override)
    requires PolicyOk(p) && RowsOk(rows)
    ensures e in DeepEntries(p, coarse, flagged, threshold, rows) <==>
            exists i: nat :: DeepReason(p, coarse, flagged, threshold, rows, e, i)
  {
    hide SiteKey, DeepKey, FineOverride, Justified, MixedSizes, ShallowBest, Varies, Carries, StatOf, Margin;
    if rows != [] {
      var n := |rows| - 1;
      DeepIff(p, coarse, flagged, threshold, rows[..n], e);
      DeepLast(p, coarse, flagged, threshold, rows, e);
      hide Deep1;
      forall i: nat | i < n
        ensures DeepReason(p, coarse, flagged, threshold, rows, e, i) <==>
                  DeepReason(p, coarse, flagged, threshold, rows[..n], e, i)
      {}
    }
  }

  lemma DeepLast(p: Policy, coarse: map<u64, Backend>, flagged: set<u64>, threshold: real, rows: seq<Row>, e: Override)
    requires PolicyOk(p) && RowsOk(rows) && rows != []
    ensures e in Deep1(p, coarse, flagged, threshold, rows[|rows| - 1]) <==>
            DeepReason(p, coarse, flagged, threshold, rows, e, |rows| - 1)
  {
    hide SiteKey, DeepKey, FineOverride, Justified, MixedSizes, ShallowBest, Varies, Carries, StatOf, Margin;
    var r := rows[|rows| - 1];
    StatOk(p.stats, r.sig);
    if CoarseKey(r.sig) in coarse { OverrideIff(r.fine, coarse[CoarseKey(r.sig)], e.backend); }
  }

  /** No site is routed at both depths. */
  lemma OneDepth(p: Policy, coarse: map<u64, Backend>, threshold: real)
    requires PolicyOk(p)
    ensures FreezeFine(p, coarse, threshold).flagged !! FreezeFine(p, coarse, threshold).deepFlagged
  {
    hide ShallowEntries, DeepEntries, DeepReason;
    var out := FreezeFine(p, coarse, threshold);
    forall k | k in out.deepFlagged ensures k !in out.flagged {
      var i :| 0 <= i < |out.deepEntries| && out.deepEntries[i].coarse == k;
      assert out.deepEntries[i] in out.deepEntries;
      DeepIff(p, coarse, out.flagged, threshold, p.deep, out.deepEntries[i]);
      var j: nat :| DeepReason(p, coarse, out.flagged, threshold, p.deep, out.deepEntries[i], j);
      NotFlagged(p, coarse, out.flagged, threshold, p.deep, out.deepEntries[i], j);
    }
  }

  lemma NotFlagged(p: Policy, coarse: map<u64, Backend>, flagged: set<u64>, threshold: real, rows: seq<Row>,
      e: Override, i: nat)
    requires PolicyOk(p) && RowsOk(rows) && DeepReason(p, coarse, flagged, threshold, rows, e, i)
    ensures e.coarse !in flagged
  {
  }

  /** Raising the threshold only drops deep overrides and never touches the shallow ones; at zero the
      deep pass is off. */
  lemma Monotone(p: Policy, coarse: map<u64, Backend>, low: real, high: real)
    requires PolicyOk(p) && 0.0 < low <= high
    ensures var (a, b) := (FreezeFine(p, coarse, low), FreezeFine(p, coarse, high));
      && a.entries == b.entries && a.flagged == b.flagged
      && (forall e :: e in b.deepEntries ==> e in a.deepEntries) && b.deepFlagged <= a.deepFlagged
      && FreezeFine(p, coarse, 0.0).deepEntries == []
  {
    hide ShallowEntries, DeepEntries, DeepReason;
    var a, b := FreezeFine(p, coarse, low), FreezeFine(p, coarse, high);
    forall e | e in b.deepEntries ensures e in a.deepEntries {
      DeepIff(p, coarse, a.flagged, high, p.deep, e);
      DeepIff(p, coarse, a.flagged, low, p.deep, e);
      var i: nat :| DeepReason(p, coarse, a.flagged, high, p.deep, e, i);
      Weaker(p, coarse, a.flagged, low, high, p.deep, e, i);
    }
    forall k | k in b.deepFlagged ensures k in a.deepFlagged {
      var i :| 0 <= i < |b.deepEntries| && b.deepEntries[i].coarse == k;
      assert b.deepEntries[i] in b.deepEntries;
      var j :| 0 <= j < |a.deepEntries| && a.deepEntries[j] == b.deepEntries[i];
    }
  }

  lemma Weaker(p: Policy, coarse: map<u64, Backend>, flagged: set<u64>, low: real, high: real, rows: seq<Row>,
      e: Override, i: nat)
    requires PolicyOk(p) && RowsOk(rows) && low <= high && DeepReason(p, coarse, flagged, high, rows, e, i)
    ensures DeepReason(p, coarse, flagged, low, rows, e, i)
  {
    hide Justified, MixedSizes, ShallowBest, BestBackend, Carries, StatOf, Margin, SiteKey, DeepKey;
  }

  // ---- distillation ----------------------------------------------------------------------

  /** Signatures seen through one leaf site at one size class. */
  ghost predicate InGroup(s: Stat, frame: u64, c: u8) {
    s.oneFrame == frame && s.sig.sizeClass == c
  }

  ghost predicate Occupied(stats: seq<Stat>, frame: u64, c: u8) {
    exists i :: 0 <= i < |stats| && InGroup(stats[i], frame, c)
  }

  ghost predicate Unanimous(stats: seq<Stat>, frame: u64, c: u8, b: Backend)
    requires forall i :: 0 <= i < |stats| ==> |stats[i].arms| == ARMS
  {
    forall i :: 0 <= i < |stats| && InGroup(stats[i], frame, c) ==> BestBackend(stats[i]) == b
  }

  function Volume(stats: seq<Stat>, frame: u64, c: u8): nat {
    if stats == [] then 0
    else
      var s := stats[|stats| - 1];
      Volume(stats[..|stats| - 1], frame, c) + if s.oneFrame == frame && s.sig.sizeClass == c then s.totalPulls else 0
  }

  /** One group's accumulator: the agreed backend, lost for good at the first disagreement. */
  ghost predicate Gathered(stats: seq<Stat>, groups: map<(u64, u8), (Option<Backend>, nat)>, frame: u64, c: u8)
    requires forall i :: 0 <= i < |stats| ==> |stats[i].arms| == ARMS
  {
    && ((frame, c) in groups <==> frame != 0 && Occupied(stats, frame, c))
    && ((frame, c) in groups ==>
          && groups[(frame, c)].1 == Volume(stats, frame, c)
          && forall b :: (groups[(frame, c)].0 == Some(b) <==> Unanimous(stats, frame, c, b)))
  }

  function Gather(groups: map<(u64, u8), (Option<Backend>, nat)>, s: Stat): map<(u64, u8), (Option<Backend>, nat)>
    requires |s.arms| == ARMS
  {
    var best, key := BestBackend(s), (s.oneFrame, s.sig.sizeClass);
    var was := if key in groups then groups[key] else (Some(best), 0);
    if s.oneFrame == 0 then groups
    else groups[key := (if was.0 != Some(best) then None else was.0, was.1 + s.totalPulls)]
  }

  lemma GatherStep(stats: seq<Stat>, s: Stat, groups: map<(u64, u8), (Option<Backend>, nat)>, frame: u64, c: u8)
    requires forall i :: 0 <= i < |stats| ==> |stats[i].arms| == ARMS
    requires |s.arms| == ARMS && Gathered(stats, groups, frame, c)
    ensures Gathered(stats + [s], Gather(groups, s), frame, c)
  {
    hide BestBackend;
    var more, n := stats + [s], |stats|;
    assert more[..n] == stats && more[n] == s;
    forall b ensures Unanimous(more, frame, c, b) <==> Unanimous(stats, frame, c, b) && (InGroup(s, frame, c) ==>
        BestBackend(s) == b) {
      assert forall i :: 0 <= i < n ==> more[i] == stats[i];
    }
    assert Occupied(more, frame, c) <==> Occupied(stats, frame, c) || InGroup(s, frame, c) by {
      if Occupied(stats, frame, c) {
        var i :| 0 <= i < n && InGroup(stats[i], frame, c);
        assert more[i] == stats[i];
      }
      if InGroup(s, frame, c) { assert InGroup(more[n], frame, c); }
    }
    if !Occupied(stats, frame, c) { NoVolume(stats, frame, c); }
  }

  lemma {:induction false} NoVolume(stats: seq<Stat>, frame: u64, c: u8)
    requires !Occupied(stats, frame, c)
    ensures Volume(stats, frame, c) == 0
    ensures forall i :: 0 <= i < |stats| ==> !InGroup(stats[i], frame, c)
  {
    if stats != [] {
      var n := |stats| - 1;
      forall i | 0 <= i < n ensures !InGroup(stats[..n][i], frame, c) {
        assert stats[..n][i] == stats[i];
      }
      NoVolume(stats[..n], frame, c);
    }
  }

  /** Emitted exactly for the known leaf sites whose signatures, at that size class, all have the same
      best arm; the entry carries that arm and the group's volume, saturated. */
  method Distill(stats: seq<Stat>) returns (out: map<(u64, u8), (Backend, nat)>)
    requires forall i :: 0 <= i < |stats| ==> |stats[i].arms| == ARMS
    ensures forall frame: u64, c: u8 :: (frame, c) in out <==>
              frame != 0 && Occupied(stats, frame, c) && exists b :: Unanimous(stats, frame, c, b)
    ensures forall frame: u64, c: u8 :: (frame, c) in out ==>
              && Unanimous(stats, frame, c, out[(frame, c)].0)
              && out[(frame, c)].1 == if Volume(stats, frame, c) < TWO32 then Volume(stats, frame, c) else TWO32 - 1
  {
    hide Gathered, Occupied, Unanimous, Volume, BestBackend;
    var groups: map<(u64, u8), (Option<Backend>, nat)> := map[];
    forall frame: u64, c: u8 ensures Gathered([], map[], frame, c) { NothingGathered(frame, c); }
    for i := 0 to |stats|
      invariant forall frame: u64, c: u8 :: Gathered(stats[..i], groups, frame, c)
    {
      var s := stats[i];
      assert stats[..i + 1] == stats[..i] + [s];
      ghost var longer, after := stats[..i + 1], Gather(groups, s);
      forall frame: u64, c: u8 ensures Gathered(longer, after, frame, c) {
        GatherStep(stats[..i], s, groups, frame, c);
      }
      if s.oneFrame == 0 {
        continue;
      }
      var best, key := BestBackend(s), (s.oneFrame, s.sig.sizeClass);
      var entry := if key in groups then groups[key] else (Some(best), 0);
      if entry.0 != Some(best) {
        entry := (None, entry.1);
      }
      groups := groups[key := (entry.0, entry.1 + s.totalPulls)];
    }
    assert stats[..|stats|] == stats;
    out := map k | k in groups && groups[k].0.Some? ::
      (groups[k].0.value, if groups[k].1 < TWO32 then groups[k].1 else TWO32 - 1);
    forall frame: u64, c: u8
      ensures (frame, c) in out <==>
                frame != 0 && Occupied(stats, frame, c) && exists b :: Unanimous(stats, frame, c, b)
      ensures (frame, c) in out ==> Unanimous(stats, frame, c, out[(frame, c)].0)
      ensures (frame, c) in out ==> out[(frame, c)].1 == if Volume(stats, frame, c) < TWO32
                then Volume(stats, frame, c) else TWO32 - 1
    {
      GatheredMeans(stats, groups, frame, c);
    }
  }

  lemma NothingGathered(frame: u64, c: u8)
    ensures Gathered([], map[], frame, c)
  {
  }

  lemma GatheredMeans(stats: seq<Stat>, groups: map<(u64, u8), (Option<Backend>, nat)>, frame: u64, c: u8)
    requires forall i :: 0 <= i < |stats| ==> |stats[i].arms| == ARMS
    requires Gathered(stats, groups, frame, c)
    ensures (frame, c) in groups <==> frame != 0 && Occupied(stats, frame, c)
    ensures (frame, c) in groups ==>
      && groups[(frame, c)].1 == Volume(stats, frame, c)
      && (groups[(frame, c)].0.Some? <==> exists b :: Unanimous(stats, frame, c, b))
      && (groups[(frame, c)].0.Some? ==> Unanimous(stats, frame, c, groups[(frame, c)].0.value))
  {
    hide Occupied, Unanimous, Volume;
    if (frame, c) in groups && groups[(frame, c)].0.Some? {
      assert Unanimous(stats, frame, c, groups[(frame, c)].0.value);
    }
  }
}
