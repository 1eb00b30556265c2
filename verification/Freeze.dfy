/** Freezing a trained policy into the two routing tables: clamping, demotion, the overrides that
    survive, their parents' flags, and the sites left out of the distilled table; then what a pinned
    verdict has to do with the full route. */
module Freeze {
  import opened Wrappers
  import opened Bytes
  import opened Entries
  import opened Routing
  import opened Bandit
  import Chd
  import HashTable
  import TableMeaning
  import ModelFile
  import Lanes

  // ---- clamping --------------------------------------------------------------------------

  /** The freeze-time switches. */
  datatype Config = Config(demoteArena: bool, liftsLarge: bool, fraction: real, escalate: real, legacyExclude: bool)

  predicate Unservable(c: u8, b: Backend) {
    match b
    case Slab => c > 11
    case Buddy => c > 13 || c <= 10
    case Arena => c > 13
    case System => false
  }

  function Clamp(c: u8, b: Backend, demote: bool): Backend {
    if b == System && c <= 13 then DefaultBackend(c)
    else if Unservable(c, b) then DefaultBackend(c)
    else if demote && b == Arena then DefaultBackend(c)
    else b
  }

  /** Demotion spares the large classes when chunks are recycled. */
  predicate DemoteFor(cfg: Config, heavy: bool, c: u8) {
    cfg.demoteArena && heavy && !(cfg.liftsLarge && c >= 12)
  }

  /** No clamped verdict is one the class cannot be served by, and clamping again changes nothing. */
  lemma ClampServable(c: u8, b: Backend, demote: bool)
    ensures var r := Clamp(c, b, demote);
      && !Unservable(c, r) && (r == System ==> c > 13) && (demote ==> r != Arena)
      && Clamp(c, r, demote) == r
      && (r == b || r == DefaultBackend(c))
  {
  }

  /** Demotion matters only to a servable Arena verdict, which it turns into the class's default. */
  lemma DemotionIff(c: u8, b: Backend)
    ensures Clamp(c, b, true) != Clamp(c, b, false) <==> b == Arena && c <= 13
    ensures Clamp(c, b, true) != Clamp(c, b, false) ==>
              Clamp(c, b, false) == Arena && Clamp(c, b, true) == DefaultBackend(c)
  {
  }

  datatype Verdict = Verdict(key: u64, sizeClass: u8, backend: Backend, pulls: u32)

  datatype Final = Final(key: u64, sizeClass: u8, backend: Backend, heavy: bool)

  function TotalPulls(vs: seq<Verdict>): nat {
    if vs == [] then 0 else TotalPulls(vs[..|vs| - 1]) + vs[|vs| - 1].pulls
  }

  /** The entry carries its share of the table's training volume. */
  predicate Heavy(cfg: Config, pulls: nat, total: nat) {
    total > 0 && pulls as real / total as real >= cfg.fraction
  }

  function ClampOne(cfg: Config, total: nat, v: Verdict): Final {
    var heavy := Heavy(cfg, v.pulls, total);
    Final(v.key, v.sizeClass, Clamp(v.sizeClass, v.backend, DemoteFor(cfg, heavy, v.sizeClass)), heavy)
  }

  function ClampAll(cfg: Config, vs: seq<Verdict>): (r: seq<Final>)
    ensures |r| == |vs|
  {
    seq(|vs|, i requires 0 <= i < |vs| => ClampOne(cfg, TotalPulls(vs), vs[i]))
  }

  // ---- the main table --------------------------------------------------------------------

  /** What training gives a signature: four arms that start with a pull each, and a total that rises
      together with the arm selected. */
  ghost predicate Trained(s: Stat) {
    && |s.arms| == ARMS && (forall i :: 0 <= i < ARMS ==> s.arms[i].pulls >= 1)
    && s.totalPulls == s.arms[0].pulls + s.arms[1].pulls + s.arms[2].pulls + s.arms[3].pulls
  }

  ghost predicate StatsOk(stats: seq<Stat>) {
    forall i :: 0 <= i < |stats| ==> Trained(stats[i])
  }

  function MainVerdicts(stats: seq<Stat>): (r: seq<Verdict>)
    requires forall i :: 0 <= i < |stats| ==> |stats[i].arms| == ARMS
    ensures |r| == |stats|
  {
    seq(|stats|, i requires 0 <= i < |stats| =>
      Verdict(CoarseKey(stats[i].sig), stats[i].sig.sizeClass, BestBackend(stats[i]), stats[i].totalPulls))
  }

  /** The final verdicts by key, the last one of equal keys. */
  function ByKey(finals: seq<Final>): map<u64, Final> {
    if finals == [] then map[]
    else ByKey(finals[..|finals| - 1])[finals[|finals| - 1].key := finals[|finals| - 1]]
  }

  function Backends(byKey: map<u64, Final>): map<u64, Backend> {
    map k | k in byKey :: byKey[k].backend
  }

  /** An override is clamped under its parent's demotion, and dropped when nothing is left of it. */
  function Keep1(cfg: Config, byKey: map<u64, Final>, e: Override): (r: seq<Entry>)
    ensures |r| <= 1
  {
    var heavy := if e.coarse in byKey then byKey[e.coarse].heavy else true;
    var b := Clamp(e.sig.sizeClass, e.backend, DemoteFor(cfg, heavy, e.sig.sizeClass));
    if e.coarse in byKey && byKey[e.coarse].backend == b then [] else [Entry(e.key, b, e.sig.sizeClass, 0)]
  }

  function KeepAll(cfg: Config, byKey: map<u64, Final>, es: seq<Override>): seq<Entry> {
    if es == [] then [] else KeepAll(cfg, byKey, es[..|es| - 1]) + Keep1(cfg, byKey, es[|es| - 1])
  }

  /** Parents of the overrides that survive. */
  function Survivors(cfg: Config, byKey: map<u64, Final>, es: seq<Override>): set<u64> {
    set i | 0 <= i < |es| && Keep1(cfg, byKey, es[i]) != [] :: es[i].coarse
  }

  method KeepLoop(cfg: Config, byKey: map<u64, Final>, es: seq<Override>)
    returns (kept: seq<Entry>, parents: set<u64>)
    ensures kept == KeepAll(cfg, byKey, es) && parents == Survivors(cfg, byKey, es)
  {
    hide Clamp, DemoteFor;
    kept, parents := [], {};
    for i := 0 to |es|
      invariant kept == KeepAll(cfg, byKey, es[..i]) && parents == Survivors(cfg, byKey, es[..i])
    {
      assert es[..i + 1][..i] == es[..i];
      OneMoreSurvivor(cfg, byKey, es[..i], es[i]);
      assert es[..i + 1] == es[..i] + [es[i]];
      var e := es[i];
      var heavy := if e.coarse in byKey then byKey[e.coarse].heavy else true;
      var clamped := Clamp(e.sig.sizeClass, e.backend, DemoteFor(cfg, heavy, e.sig.sizeClass));
      if e.coarse in byKey && byKey[e.coarse].backend == clamped {
        continue;
      }
      kept := kept + [Entry(e.key, clamped, e.sig.sizeClass, 0)];
      parents := parents + {e.coarse};
    }
    assert es[..|es|] == es;
  }

  lemma OneMoreSurvivor(cfg: Config, byKey: map<u64, Final>, es: seq<Override>, e: Override)
    ensures Survivors(cfg, byKey, es + [e])
            == Survivors(cfg, byKey, es) + if Keep1(cfg, byKey, e) == [] then {} else {e.coarse}
  {
    hide Keep1;
    var more, n := es + [e], |es|;
    assert more[n] == e && forall i :: 0 <= i < n ==> more[i] == es[i];
    forall k ensures k in Survivors(cfg, byKey, more) <==>
        k in Survivors(cfg, byKey, es) || (Keep1(cfg, byKey, e) != [] && k == e.coarse) {
      if k in Survivors(cfg, byKey, es) {
        var i :| 0 <= i < n && Keep1(cfg, byKey, es[i]) != [] && es[i].coarse == k;
        assert more[i].coarse == k;
      }
    }
  }

  function Flag(key: u64, shallow: set<u64>, deep: set<u64>): u8 {
    if key in shallow then FLAG_HAS_CONTEXT else if key in deep then FLAG_DEEP_CONTEXT else 0
  }

  function Coarse(finals: seq<Final>, shallow: set<u64>, deep: set<u64>): (r: seq<Entry>)
    ensures |r| == |finals|
  {
    seq(|finals|, i requires 0 <= i < |finals| =>
      Entry(finals[i].key, finals[i].backend, finals[i].sizeClass, Flag(finals[i].key, shallow, deep)))
  }

  // ---- the distilled table ---------------------------------------------------------------

  /** One unanimous leaf site at one size class, with its saturated volume. */
  datatype Group = Group(frame: u64, sizeClass: u8, backend: Backend, pulls: u32)

  ghost predicate GroupOk(stats: seq<Stat>, g: Group)
    requires forall i :: 0 <= i < |stats| ==> |stats[i].arms| == ARMS
  {
    && g.frame != 0 && Occupied(stats, g.frame, g.sizeClass) && Unanimous(stats, g.frame, g.sizeClass, g.backend)
    && g.pulls == Saturated(Volume(stats, g.frame, g.sizeClass))
  }

  function Saturated(n: nat): u32 {
    if n < TWO32 then n else TWO32 - 1
  }

  ghost predicate NoRepeats(groups: seq<Group>) {
    forall i, j :: 0 <= i < j < |groups| ==>
      groups[i].frame != groups[j].frame || groups[i].sizeClass != groups[j].sizeClass
  }

  ghost predicate AnyListed(groups: seq<Group>, frame: u64, c: u8) {
    exists i :: 0 <= i < |groups| && groups[i].frame == frame && groups[i].sizeClass == c
  }

  /** The unanimous groups of known leaf sites, each once, in some order. */
  ghost predicate Lists(stats: seq<Stat>, groups: seq<Group>)
    requires forall i :: 0 <= i < |stats| ==> |stats[i].arms| == ARMS
  {
    && NoRepeats(groups)
    && (forall i :: 0 <= i < |groups| ==> GroupOk(stats, groups[i]))
    && (forall frame: u64, c: u8, b | frame != 0 && Occupied(stats, frame, c) && Unanimous(stats, frame, c, b) ::
          AnyListed(groups, frame, c))
  }

  function GroupVerdicts(groups: seq<Group>): (r: seq<Verdict>)
    ensures |r| == |groups|
  {
    seq(|groups|, i requires 0 <= i < |groups| =>
      Verdict(SiteKey(groups[i].frame, groups[i].sizeClass), groups[i].sizeClass, groups[i].backend, groups[i].pulls))
  }

  /** One-frame keys of the sites whose context entries survive. */
  function Excluded(cfg: Config, frames: map<u64, (u64, u8)>, parents: set<u64>): set<u64> {
    set k | k in frames && (cfg.legacyExclude || k in parents) :: SiteKey(frames[k].0, frames[k].1)
  }

  function Unexcluded(finals: seq<Final>, excluded: set<u64>): seq<Entry> {
    if finals == [] then []
    else
      var f := finals[|finals| - 1];
      Unexcluded(finals[..|finals| - 1], excluded)
      + if f.key in excluded then [] else [Entry(f.key, f.backend, f.sizeClass, 0)]
  }

  // ---- freezing --------------------------------------------------------------------------

  datatype Frozen = Frozen(main: seq<Entry>, distilled: seq<Entry>)

  function MainFinals(p: Policy, cfg: Config): (r: seq<Final>)
    requires forall i :: 0 <= i < |p.stats| ==> |p.stats[i].arms| == ARMS
    ensures |r| == |p.stats|
  {
    ClampAll(cfg, MainVerdicts(p.stats))
  }

  ghost function Overridden(p: Policy, cfg: Config): FineFreeze
    requires PolicyOk(p)
  {
    FreezeFine(p, Backends(ByKey(MainFinals(p, cfg))), cfg.escalate)
  }

  ghost function ShallowParents(p: Policy, cfg: Config): set<u64>
    requires PolicyOk(p)
  {
    Survivors(cfg, ByKey(MainFinals(p, cfg)), Overridden(p, cfg).entries)
  }

  ghost function DeepParents(p: Policy, cfg: Config): set<u64>
    requires PolicyOk(p)
  {
    Survivors(cfg, ByKey(MainFinals(p, cfg)), Overridden(p, cfg).deepEntries)
  }

  ghost function FreezeState(p: Policy, cfg: Config, groups: seq<Group>): Frozen
    requires PolicyOk(p)
  {
    var finals, fine := MainFinals(p, cfg), Overridden(p, cfg);
    var shallow, deep := ShallowParents(p, cfg), DeepParents(p, cfg);
    Frozen(Coarse(finals, shallow, deep)
           + (KeepAll(cfg, ByKey(finals), fine.entries) + KeepAll(cfg, ByKey(finals), fine.deepEntries)),
           Unexcluded(ClampAll(cfg, GroupVerdicts(groups)), Excluded(cfg, fine.frames, shallow + deep)))
  }

  /** Write the groups out one by one. */
  method ListGroups(stats: seq<Stat>, out: map<(u64, u8), (Backend, nat)>) returns (groups: seq<Group>)
    requires forall i :: 0 <= i < |stats| ==> |stats[i].arms| == ARMS
    requires forall frame: u64, c: u8 :: (frame, c) in out ==>
               GroupOk(stats, Group(frame, c, out[(frame, c)].0, Saturated(out[(frame, c)].1)))
    requires forall frame: u64, c: u8, b | frame != 0 && Occupied(stats, frame, c) && Unanimous(stats, frame, c, b) ::
               (frame, c) in out
    ensures Lists(stats, groups)
  {
    hide GroupOk, Occupied, Unanimous;
    groups := [];
    var rest := out.Keys;
    while rest != {}
      invariant rest <= out.Keys && NoRepeats(groups)
      invariant forall i :: 0 <= i < |groups| ==> GroupOk(stats, groups[i])
      invariant forall frame: u64, c: u8 :: (frame, c) in out ==> ((frame, c) in rest <==> !AnyListed(groups, frame, c))
      invariant forall i :: 0 <= i < |groups| ==> (groups[i].frame, groups[i].sizeClass) in out
      decreases rest
    {
      var k :| k in rest;
      var g := Group(k.0, k.1, out[k].0, Saturated(out[k].1));
      ListedMore(groups, g);
      assert k == (g.frame, g.sizeClass);
      groups := groups + [g];
      rest := rest - {k};
    }
  }

  lemma ListedMore(groups: seq<Group>, g: Group)
    ensures forall frame: u64, c: u8 :: AnyListed(groups + [g], frame, c) <==>
              AnyListed(groups, frame, c) || (g.frame == frame && g.sizeClass == c)
  {
    forall frame: u64, c: u8 ensures AnyListed(groups + [g], frame, c) <==>
        AnyListed(groups, frame, c) || (g.frame == frame && g.sizeClass == c)
    {
      var more, n := groups + [g], |groups|;
      assert more[n] == g && forall i :: 0 <= i < n ==> more[i] == groups[i];
      if AnyListed(groups, frame, c) {
        var i :| 0 <= i < n && groups[i].frame == frame && groups[i].sizeClass == c;
        assert more[i].frame == frame;
      }
    }
  }

  /** The whole freeze: both tables' entries, the groups in the order they were distilled. */
  method FreezeLoop(p: Policy, cfg: Config) returns (out: Frozen, groups: seq<Group>)
    requires PolicyOk(p)
    ensures Lists(p.stats, groups) && out == FreezeState(p, cfg, groups)
  {
    hide FreezeFine, ClampAll, KeepAll, Survivors, Excluded, Lists, Occupied, Unanimous, Volume;
    var finals := MainFinals(p, cfg);
    var byKey := ByKey(finals);
    var fine := FreezeFineLoop(p, Backends(byKey), cfg.escalate);
    var keptShallow, shallow := KeepLoop(cfg, byKey, fine.entries);
    var keptDeep, deep := KeepLoop(cfg, byKey, fine.deepEntries);
    var main := Coarse(finals, shallow, deep) + (keptShallow + keptDeep);
    var distilled := Distill(p.stats);
    forall frame: u64, c: u8 | (frame, c) in distilled
      ensures GroupOk(p.stats, Group(frame, c, distilled[(frame, c)].0, Saturated(distilled[(frame, c)].1)))
    {}
    groups := ListGroups(p.stats, distilled);
    out := Frozen(main, Unexcluded(ClampAll(cfg, GroupVerdicts(groups)), Excluded(cfg, fine.frames, shallow + deep)));
  }

  // ---- demotion in the two tables --------------------------------------------------------

  /** Volume the listed groups draw from the signatures, never more than all of it. */
  function GroupVolume(stats: seq<Stat>, groups: seq<Group>): nat {
    if groups == [] then 0
    else
      var g := groups[|groups| - 1];
      GroupVolume(stats, groups[..|groups| - 1]) + Volume(stats, g.frame, g.sizeClass)
  }

  /** One signature adds its pulls to at most one of the groups. */
  lemma {:induction false} GroupVolumeStep(stats: seq<Stat>, s: Stat, groups: seq<Group>)
    requires NoRepeats(groups)
    ensures GroupVolume(stats + [s], groups)
            == GroupVolume(stats, groups)
               + if AnyListed(groups, s.oneFrame, s.sig.sizeClass) then s.totalPulls else 0
  {
    hide Volume;
    if groups != [] {
      var front, g := groups[..|groups| - 1], groups[|groups| - 1];
      assert groups == front + [g];
      GroupVolumeStep(stats, s, front);
      ListedMore(front, g);
      VolumeStep(stats, s, g.frame, g.sizeClass);
      if g.frame == s.oneFrame && g.sizeClass == s.sig.sizeClass {
        NotListed(front, g);
      }
    }
  }

  lemma NotListed(front: seq<Group>, g: Group)
    requires NoRepeats(front + [g])
    ensures !AnyListed(front, g.frame, g.sizeClass)
  {
    var groups, n := front + [g], |front|;
    assert groups[n] == g && forall i :: 0 <= i < n ==> groups[i] == front[i];
  }

  lemma VolumeStep(stats: seq<Stat>, s: Stat, frame: u64, c: u8)
    ensures Volume(stats + [s], frame, c)
            == Volume(stats, frame, c) + if s.oneFrame == frame && s.sig.sizeClass == c then s.totalPulls else 0
  {
    assert (stats + [s])[..|stats|] == stats;
  }

  lemma {:induction false} VolumeShare(stats: seq<Stat>, frame: u64, c: u8, i: nat)
    requires i < |stats| && InGroup(stats[i], frame, c)
    ensures stats[i].totalPulls <= Volume(stats, frame, c)
  {
    if i < |stats| - 1 { VolumeShare(stats[..|stats| - 1], frame, c, i); }
  }

  function StatPulls(stats: seq<Stat>): nat {
    if stats == [] then 0 else StatPulls(stats[..|stats| - 1]) + stats[|stats| - 1].totalPulls
  }

  lemma {:induction false} GroupsWithin(stats: seq<Stat>, groups: seq<Group>)
    requires NoRepeats(groups)
    ensures GroupVolume(stats, groups) <= StatPulls(stats)
  {
    if stats == [] {
      NothingGrouped(groups);
    } else {
      var front, s := stats[..|stats| - 1], stats[|stats| - 1];
      assert stats == front + [s];
      GroupsWithin(front, groups);
      GroupVolumeStep(front, s, groups);
    }
  }

  lemma {:induction false} NothingGrouped(groups: seq<Group>)
    ensures GroupVolume([], groups) == 0
  {
    if groups != [] { NothingGrouped(groups[..|groups| - 1]); }
  }

  lemma {:induction false} MainTotal(stats: seq<Stat>)
    requires forall i :: 0 <= i < |stats| ==> |stats[i].arms| == ARMS
    ensures TotalPulls(MainVerdicts(stats)) == StatPulls(stats)
  {
    hide BestBackend, SiteKey;
    if stats != [] {
      MainTotal(stats[..|stats| - 1]);
      assert MainVerdicts(stats)[..|stats| - 1] == MainVerdicts(stats[..|stats| - 1]);
    }
  }

  lemma {:induction false} GroupTotal(stats: seq<Stat>, groups: seq<Group>)
    requires forall i :: 0 <= i < |groups| ==> groups[i].pulls <= Volume(stats, groups[i].frame, groups[i].sizeClass)
    ensures TotalPulls(GroupVerdicts(groups)) <= GroupVolume(stats, groups)
  {
    hide Volume, SiteKey;
    if groups != [] {
      GroupTotal(stats, groups[..|groups| - 1]);
      assert GroupVerdicts(groups)[..|groups| - 1] == GroupVerdicts(groups[..|groups| - 1]);
    }
  }

  lemma {:induction false} TotalAtLeast(vs: seq<Verdict>, i: nat)
    requires i < |vs|
    ensures vs[i].pulls <= TotalPulls(vs)
  {
    if i < |vs| - 1 { TotalAtLeast(vs[..|vs| - 1], i); }
  }

  lemma ShareGrows(p: real, t: real, p': real, t': real)
    requires 0.0 <= p <= p' && 0.0 < t' <= t
    ensures p / t <= p' / t'
  {
    var q := p' / t';
    assert q * t' == p' && q * t >= q * t';
    assert p / t * t == p;
  }

  /** The distilled table demotes at least what the main table does: a group's share of the distilled
      volume is no less than any of its signatures' share of the whole, saturation included. */
  lemma DemotesAtLeast(cfg: Config, stats: seq<Stat>, groups: seq<Group>, i: nat, j: nat)
    requires StatsOk(stats) && Lists(stats, groups) && i < |stats| && j < |groups|
    requires InGroup(stats[i], groups[j].frame, groups[j].sizeClass)
    requires Heavy(cfg, stats[i].totalPulls, TotalPulls(MainVerdicts(stats)))
    ensures Heavy(cfg, groups[j].pulls, TotalPulls(GroupVerdicts(groups)))
  {
    hide BestBackend, SiteKey, Unanimous, Occupied, Volume, MainVerdicts;
    var g := groups[j];
    assert GroupOk(stats, g);
    VolumeShare(stats, g.frame, g.sizeClass, i);
    MainTotal(stats);
    forall k | 0 <= k < |groups| ensures groups[k].pulls <= Volume(stats, groups[k].frame, groups[k].sizeClass) {
      assert GroupOk(stats, groups[k]);
    }
    GroupTotal(stats, groups);
    GroupsWithin(stats, groups);
    TotalAtLeast(GroupVerdicts(groups), j);
    var p, p' := stats[i].totalPulls, g.pulls;
    ShareGrows(p as real, TotalPulls(MainVerdicts(stats)) as real,
               p' as real, TotalPulls(GroupVerdicts(groups)) as real);
  }

  // ---- flags and their siblings ----------------------------------------------------------

  /** Some override of the coarse key survives. */
  ghost predicate Survives(cfg: Config, byKey: map<u64, Final>, es: seq<Override>, key: u64) {
    exists j :: 0 <= j < |es| && es[j].coarse == key && Keep1(cfg, byKey, es[j]) != []
  }

  lemma SurvivorIff(cfg: Config, byKey: map<u64, Final>, es: seq<Override>, key: u64)
    ensures key in Survivors(cfg, byKey, es) <==> Survives(cfg, byKey, es, key)
    ensures key in Survivors(cfg, byKey, es) ==> key in Parents(es)
  {
    hide Keep1;
  }

  /** A main entry is flagged exactly when an override of it survives at that depth, and never at
      both. */
  lemma FlagIff(p: Policy, cfg: Config, groups: seq<Group>, i: nat)
    requires PolicyOk(p) && i < |p.stats|
    ensures i < |FreezeState(p, cfg, groups).main|
    ensures var e := FreezeState(p, cfg, groups).main[i];
      var byKey, fine := ByKey(MainFinals(p, cfg)), Overridden(p, cfg);
      && e.hash == CoarseKey(p.stats[i].sig) && e.sizeClass == p.stats[i].sig.sizeClass
      && e.backend == MainFinals(p, cfg)[i].backend
      && (e.flags == FLAG_HAS_CONTEXT <==> Survives(cfg, byKey, fine.entries, e.hash))
      && (e.flags == FLAG_DEEP_CONTEXT <==> Survives(cfg, byKey, fine.deepEntries, e.hash))
      && e.flags <= 2
  {
    hide FreezeFine, SiteKey, BestBackend, KeepAll, Keep1, Survivors, Clamp, DemoteFor, Heavy, Survives;
    var byKey, fine, key := ByKey(MainFinals(p, cfg)), Overridden(p, cfg), CoarseKey(p.stats[i].sig);
    SurvivorIff(cfg, byKey, fine.entries, key);
    SurvivorIff(cfg, byKey, fine.deepEntries, key);
    OneDepth(p, Backends(byKey), cfg.escalate);
    FlaggedParents(p, Backends(byKey), cfg.escalate);
  }

  lemma FlaggedParents(p: Policy, coarse: map<u64, Backend>, threshold: real)
    requires PolicyOk(p)
    ensures FreezeFine(p, coarse, threshold).flagged == Parents(FreezeFine(p, coarse, threshold).entries)
    ensures FreezeFine(p, coarse, threshold).deepFlagged == Parents(FreezeFine(p, coarse, threshold).deepEntries)
  {
    hide ShallowEntries, DeepEntries, Frames;
  }

  lemma {:induction false} KeptMember(cfg: Config, byKey: map<u64, Final>, es: seq<Override>, j: nat)
    requires j < |es| && Keep1(cfg, byKey, es[j]) != []
    ensures Keep1(cfg, byKey, es[j])[0] in KeepAll(cfg, byKey, es)
  {
    hide Keep1;
    if j < |es| - 1 { KeptMember(cfg, byKey, es[..|es| - 1], j); }
  }

  lemma KeptDiffers(cfg: Config, byKey: map<u64, Final>, e: Override)
    requires e.coarse in byKey && Keep1(cfg, byKey, e) != []
    ensures Keep1(cfg, byKey, e)[0].hash == e.key && Keep1(cfg, byKey, e)[0].backend != byKey[e.coarse].backend
  {
  }

  lemma {:induction false} ByKeyHas(finals: seq<Final>, key: u64)
    ensures key in ByKey(finals) <==> exists i :: 0 <= i < |finals| && finals[i].key == key
  {
    if finals != [] {
      ByKeyHas(finals[..|finals| - 1], key);
      if key in ByKey(finals[..|finals| - 1]) {
        var i :| 0 <= i < |finals| - 1 && finals[..|finals| - 1][i].key == key;
        assert finals[i].key == key;
      }
    }
  }

  /** Where an override comes from. */
  ghost predicate FromRow(rows: seq<Row>, o: Override, deep: bool) {
    exists r :: r in rows && o.sig == r.sig && o.coarse == CoarseKey(o.sig)
      && o.key == if deep then DeepKey(o.coarse, r.ctx) else ContextKey(o.coarse, r.ctx)
  }

  lemma ShallowFrom(p: Policy, cfg: Config, j: nat)
    requires PolicyOk(p) && j < |Overridden(p, cfg).entries|
    ensures FromRow(p.fine, Overridden(p, cfg).entries[j], false)
  {
    hide SiteKey, ContextKey, Justified, MainFinals, ShallowEntries, DeepEntries, Frames, Parents;
    var coarse, o := Backends(ByKey(MainFinals(p, cfg))), Overridden(p, cfg).entries[j];
    assert o in ShallowEntries(p.fine, coarse);
    ShallowIff(p.fine, coarse, o);
    var i: nat :| ShallowReason(p.fine, coarse, o, i);
    assert p.fine[i] in p.fine;
  }

  lemma DeepFrom(p: Policy, cfg: Config, j: nat)
    requires PolicyOk(p) && j < |Overridden(p, cfg).deepEntries|
    ensures FromRow(p.deep, Overridden(p, cfg).deepEntries[j], true)
  {
    hide SiteKey, DeepKey, Justified, MainFinals, ShallowEntries, DeepEntries, Frames, Margin, Varies, Carries,
         MixedSizes, StatOf, ShallowBest;
    var coarse, fine := Backends(ByKey(MainFinals(p, cfg))), Overridden(p, cfg);
    var o := fine.deepEntries[j];
    assert o in DeepEntries(p, coarse, fine.flagged, cfg.escalate, p.deep);
    DeepIff(p, coarse, fine.flagged, cfg.escalate, p.deep, o);
    var i: nat :| DeepReason(p, coarse, fine.flagged, cfg.escalate, p.deep, o, i);
    assert p.deep[i] in p.deep;
  }

  /** A sibling of the flagged entry under some history, with another verdict than the entry's. */
  ghost predicate HasSibling(main: seq<Entry>, key: u64, verdict: Backend, deep: bool) {
    exists ctx: u8, f :: f in main && f.hash == (if deep then DeepKey(key, ctx) else ContextKey(key, ctx))
      && f.backend != verdict
  }

  /** No flag without a sibling: the extra probe a flag costs can always find something, and what it
      finds differs from the coarse verdict. */
  lemma FlaggedHasSibling(p: Policy, cfg: Config, groups: seq<Group>, i: nat)
    requires PolicyOk(p) && i < |p.stats|
    ensures var main := FreezeState(p, cfg, groups).main;
      var verdict := ByKey(MainFinals(p, cfg));
      && main[i].hash in verdict
      && (main[i].flags == FLAG_HAS_CONTEXT ==> HasSibling(main, main[i].hash, verdict[main[i].hash].backend, false))
      && (main[i].flags == FLAG_DEEP_CONTEXT ==> HasSibling(main, main[i].hash, verdict[main[i].hash].backend, true))
  {
    hide FreezeFine, SiteKey, BestBackend, HasSibling, Survives, Overridden, MainFinals, Survivors, KeepAll, Flag;
    FlagIff(p, cfg, groups, i);
    var main, finals, fine := FreezeState(p, cfg, groups).main, MainFinals(p, cfg), Overridden(p, cfg);
    var byKey, key := ByKey(finals), main[i].hash;
    assert finals[i].key == key;
    ByKeyHas(finals, key);
    if main[i].flags == FLAG_HAS_CONTEXT {
      forall j | 0 <= j < |fine.entries| ensures FromRow(p.fine, fine.entries[j], false) { ShallowFrom(p, cfg, j); }
      SiblingKept(cfg, byKey, fine.entries, p.fine, main, key, false);
    }
    if main[i].flags == FLAG_DEEP_CONTEXT {
      forall j | 0 <= j < |fine.deepEntries| ensures FromRow(p.deep, fine.deepEntries[j], true) { DeepFrom(p, cfg, j); }
      SiblingKept(cfg, byKey, fine.deepEntries, p.deep, main, key, true);
    }
  }

  lemma SiblingKept(cfg: Config, byKey: map<u64, Final>, es: seq<Override>, rows: seq<Row>, main: seq<Entry>, key: u64,
      deep: bool)
    requires key in byKey && Survives(cfg, byKey, es, key)
    requires forall j :: 0 <= j < |es| ==> FromRow(rows, es[j], deep)
    requires forall f :: f in KeepAll(cfg, byKey, es) ==> f in main
    ensures HasSibling(main, key, byKey[key].backend, deep)
  {
    hide Keep1, KeepAll, ContextKey, DeepKey, CoarseKey;
    var j :| 0 <= j < |es| && es[j].coarse == key && Keep1(cfg, byKey, es[j]) != [];
    assert FromRow(rows, es[j], deep);
    KeptMember(cfg, byKey, es, j);
    KeptDiffers(cfg, byKey, es[j]);
    assert Keep1(cfg, byKey, es[j])[0] in main;
  }

  // ---- no frozen verdict is a doomed attempt ---------------------------------------------

  ghost predicate Servable(e: Entry) {
    !Unservable(e.sizeClass, e.backend) && (e.backend == System ==> e.sizeClass > 13)
  }

  lemma {:induction false} KeptServable(cfg: Config, byKey: map<u64, Final>, es: seq<Override>)
    ensures forall e :: e in KeepAll(cfg, byKey, es) ==> Servable(e)
  {
    hide Clamp, DemoteFor, Servable;
    if es != [] {
      var o := es[|es| - 1];
      KeptServable(cfg, byKey, es[..|es| - 1]);
      forall e | e in Keep1(cfg, byKey, o) ensures Servable(e) {
        var heavy := if o.coarse in byKey then byKey[o.coarse].heavy else true;
        EntryServable(e, o.backend, DemoteFor(cfg, heavy, o.sig.sizeClass));
      }
    }
  }

  lemma EntryServable(e: Entry, b: Backend, demote: bool)
    requires e.backend == Clamp(e.sizeClass, b, demote)
    ensures Servable(e)
  {
    ClampServable(e.sizeClass, b, demote);
  }

  /** Every verdict of both tables, at every depth, names a backend that can serve its size class in
      a headerless process, and System only above the Buddy range. */
  lemma FrozenServable(p: Policy, cfg: Config, groups: seq<Group>, e: Entry)
    requires PolicyOk(p)
    requires e in FreezeState(p, cfg, groups).main || e in FreezeState(p, cfg, groups).distilled
    ensures Servable(e)
  {
    var finals, fine, gs := MainFinals(p, cfg), Overridden(p, cfg), ClampAll(cfg, GroupVerdicts(groups));
    var shallow, deep := ShallowParents(p, cfg), DeepParents(p, cfg);
    KeptServable(cfg, ByKey(finals), fine.entries);
    KeptServable(cfg, ByKey(finals), fine.deepEntries);
    if e in Coarse(finals, shallow, deep) {
      FinalServable(cfg, MainVerdicts(p.stats), e);
    }
    if e in FreezeState(p, cfg, groups).distilled {
      UnexcludedIff(gs, Excluded(cfg, fine.frames, shallow + deep), e);
      FinalServable(cfg, GroupVerdicts(groups), e);
    }
    hide KeepAll, ClampAll, Overridden, ShallowParents, DeepParents, Coarse, Servable, Unexcluded;
  }

  lemma FinalServable(cfg: Config, vs: seq<Verdict>, e: Entry)
    requires exists j :: 0 <= j < |vs| && e.sizeClass == ClampAll(cfg, vs)[j].sizeClass
                         && e.backend == ClampAll(cfg, vs)[j].backend
    ensures Servable(e)
  {
    hide Clamp, Heavy, DemoteFor, Servable;
    var j :| 0 <= j < |vs| && e.sizeClass == ClampAll(cfg, vs)[j].sizeClass
      && e.backend == ClampAll(cfg, vs)[j].backend;
    var heavy := Heavy(cfg, vs[j].pulls, TotalPulls(vs));
    EntryServable(e, vs[j].backend, DemoteFor(cfg, heavy, e.sizeClass));
  }

  // ---- a pin never bypasses a context ----------------------------------------------------

  /** No other trained signature shares this one's coarse key. */
  ghost predicate KeyTells(p: Policy, i: nat)
    requires i < |p.stats|
  {
    && (forall j :: 0 <= j < |p.stats| && j != i ==> CoarseKey(p.stats[j].sig) != CoarseKey(p.stats[i].sig))
    && (forall r | r in p.fine || r in p.deep ::
          CoarseKey(r.sig) == CoarseKey(p.stats[i].sig) ==> r.sig == p.stats[i].sig)
  }

  lemma {:induction false} StatAt(stats: seq<Stat>, i: nat)
    requires i < |stats| && forall j :: 0 <= j < |stats| && j != i ==> stats[j].sig != stats[i].sig
    ensures StatOf(stats, stats[i].sig) == Some(stats[i])
  {
    if i < |stats| - 1 { StatAt(stats[..|stats| - 1], i); }
  }

  ghost predicate Marks(stats: seq<Stat>, o: Override, v: (u64, u8)) {
    var s := StatOf(stats, o.sig);
    s.Some? && s.value.oneFrame != 0 && (s.value.oneFrame, o.sig.sizeClass) == v
  }

  lemma {:induction false} FramesAt(start: map<u64, (u64, u8)>, stats: seq<Stat>, es: seq<Override>, key: u64,
      v: (u64, u8))
    requires forall j :: 0 <= j < |es| && es[j].coarse == key ==> Marks(stats, es[j], v)
    requires (key in start && start[key] == v) || key in Parents(es)
    ensures key in Frames(start, stats, es) && Frames(start, stats, es)[key] == v
  {
    hide StatOf;
    if es != [] {
      var n := |es| - 1;
      if es[n].coarse == key {
        assert Marks(stats, es[n], v);
      } else {
        if key in Parents(es) {
          var j :| 0 <= j < |es| && es[j].coarse == key;
          assert es[..n][j].coarse == key;
        }
        FramesAt(start, stats, es[..n], key, v);
      }
    }
  }

  lemma {:induction false} UnexcludedIff(finals: seq<Final>, excluded: set<u64>, e: Entry)
    ensures e in Unexcluded(finals, excluded) <==>
            exists j :: 0 <= j < |finals| && finals[j].key !in excluded
              && e == Entry(finals[j].key, finals[j].backend, finals[j].sizeClass, 0)
  {
    if finals != [] {
      var n := |finals| - 1;
      UnexcludedIff(finals[..n], excluded, e);
      assert forall j :: 0 <= j < n ==> finals[..n][j] == finals[j];
    }
  }

  /** The override of a signature marks the signature's own site. */
  lemma OverrideMarks(p: Policy, o: Override, rows: seq<Row>, deep: bool, i: nat)
    requires i < |p.stats| && KeyTells(p, i) && p.stats[i].oneFrame != 0 && (rows == p.fine || rows == p.deep)
    requires FromRow(rows, o, deep) && o.coarse == CoarseKey(p.stats[i].sig)
    ensures Marks(p.stats, o, (p.stats[i].oneFrame, p.stats[i].sig.sizeClass))
  {
    hide SiteKey, ContextKey, DeepKey, StatOf;
    StatAt(p.stats, i);
  }

  lemma SiteMarked(p: Policy, cfg: Config, i: nat)
    requires PolicyOk(p) && i < |p.stats| && KeyTells(p, i) && p.stats[i].oneFrame != 0
    requires CoarseKey(p.stats[i].sig) in ShallowParents(p, cfg) + DeepParents(p, cfg)
    ensures var (frames, key) := (Overridden(p, cfg).frames, CoarseKey(p.stats[i].sig));
      key in frames && frames[key] == (p.stats[i].oneFrame, p.stats[i].sig.sizeClass)
  {
    hide SiteKey, Overridden, Survivors, Survives, FromRow, KeyTells, Marks, Frames, Parents, MainFinals;
    var fine, byKey, key := Overridden(p, cfg), ByKey(MainFinals(p, cfg)), CoarseKey(p.stats[i].sig);
    var v := (p.stats[i].oneFrame, p.stats[i].sig.sizeClass);
    SurvivorIff(cfg, byKey, fine.entries, key);
    SurvivorIff(cfg, byKey, fine.deepEntries, key);
    forall j | 0 <= j < |fine.entries| && fine.entries[j].coarse == key ensures Marks(p.stats, fine.entries[j], v) {
      ShallowFrom(p, cfg, j);
      OverrideMarks(p, fine.entries[j], p.fine, false, i);
    }
    forall j | 0 <= j < |fine.deepEntries| && fine.deepEntries[j].coarse == key
      ensures Marks(p.stats, fine.deepEntries[j], v)
    {
      DeepFrom(p, cfg, j);
      OverrideMarks(p, fine.deepEntries[j], p.deep, true, i);
    }
    if key in Parents(fine.entries) { FramesAt(map[], p.stats, fine.entries, key, v); }
    FramesAt(Frames(map[], p.stats, fine.entries), p.stats, fine.deepEntries, key, v);
    FramesOf(p, cfg);
  }

  lemma FramesOf(p: Policy, cfg: Config)
    requires PolicyOk(p)
    ensures var fine := Overridden(p, cfg);
      fine.frames == Frames(Frames(map[], p.stats, fine.entries), p.stats, fine.deepEntries)
  {
    hide ShallowEntries, DeepEntries, Frames, MainFinals, Parents;
  }

  /** A site any of whose signatures is routed by context is not in the distilled table: a pin can
      never bypass the context probe. */
  lemma PinNeverContext(p: Policy, cfg: Config, groups: seq<Group>, i: nat)
    requires PolicyOk(p) && i < |p.stats| && KeyTells(p, i) && p.stats[i].oneFrame != 0
    requires FreezeState(p, cfg, groups).main[i].flags != 0
    ensures forall e :: e in FreezeState(p, cfg, groups).distilled ==>
              e.hash != SiteKey(p.stats[i].oneFrame, p.stats[i].sig.sizeClass)
  {
    var shallow, deep := ShallowParents(p, cfg), DeepParents(p, cfg);
    hide FreezeFine, SiteKey, KeepAll, ShallowParents, DeepParents, Overridden, KeyTells, BestBackend, Clamp, Heavy,
         DemoteFor;
    SiteMarked(p, cfg, i);
    var finals := ClampAll(cfg, GroupVerdicts(groups));
    var excluded := Excluded(cfg, Overridden(p, cfg).frames, shallow + deep);
    forall e | e in FreezeState(p, cfg, groups).distilled
      ensures e.hash != SiteKey(p.stats[i].oneFrame, p.stats[i].sig.sizeClass)
    {
      UnexcludedIff(finals, excluded, e);
    }
  }

  // ---- a pin serves what the full route would --------------------------------------------

  lemma {:induction false} LastWinsOnly(es: seq<Entry>, i: nat)
    requires i < |es| && forall j :: 0 <= j < |es| && j != i ==> es[j].hash != es[i].hash
    ensures LastWins(es, es[i].hash) == Some(es[i])
  {
    if i < |es| - 1 { LastWinsOnly(es[..|es| - 1], i); }
  }

  /** An unflagged main entry no other entry collides with is the route of its key, whatever the
      history. */
  lemma UnflaggedEntryRoutes(mix: Chd.Mixer, es: seq<Entry>, i: nat, ctx: Option<(u8, u8)>)
    requires HashTable.FromEntries(mix, es).Some? && i < |es| && es[i].flags == 0
    requires forall j :: 0 <= j < |es| && j != i ==> es[j].hash != es[i].hash
    ensures RouteMain(mix, HashTable.FromEntries(mix, es).value, es[i].hash, ctx) == Some(es[i].backend)
  {
    hide HashTable.FromEntries, RouteMain, LastWins, EntryRoute;
    LastWinsOnly(es, i);
    UnflaggedAlone(es, es[i].hash, ctx);
    RouteMeaning(mix, es, es[i].hash, ctx);
  }

  lemma UnflaggedAlone(es: seq<Entry>, key: u64, ctx: Option<(u8, u8)>)
    requires LastWins(es, key).Some? && LastWins(es, key).value.flags == 0
    ensures EntryRoute(es, key, ctx) == Some(LastWins(es, key).value.backend)
  {
    hide LastWins, ContextKey, DeepKey;
  }

  /** Of the trained groups, only this one has its key. */
  ghost predicate SiteTells(groups: seq<Group>, frame: u64, c: u8) {
    forall j :: 0 <= j < |groups| && SiteKey(groups[j].frame, groups[j].sizeClass) == SiteKey(frame, c) ==>
      groups[j].frame == frame && groups[j].sizeClass == c
  }

  function GroupPulls(groups: seq<Group>): nat {
    TotalPulls(GroupVerdicts(groups))
  }

  /** What the distilled table says of a signature's site. */
  function SiteVerdict(cfg: Config, stats: seq<Stat>, groups: seq<Group>, i: nat): Backend
    requires i < |stats| && |stats[i].arms| == ARMS
  {
    var s := stats[i];
    var heavy := Heavy(cfg, Saturated(Volume(stats, s.oneFrame, s.sig.sizeClass)), GroupPulls(groups));
    Clamp(s.sig.sizeClass, BestBackend(s), DemoteFor(cfg, heavy, s.sig.sizeClass))
  }

  /** What is found distilled under a signature's site: the best arm of every signature of the site,
      clamped under the site's demotion; and no signature of the site is routed by context. */
  lemma DistilledFound(p: Policy, cfg: Config, groups: seq<Group>, i: nat)
    requires PolicyOk(p) && Lists(p.stats, groups) && i < |p.stats|
    requires SiteTells(groups, p.stats[i].oneFrame, p.stats[i].sig.sizeClass)
    requires var key := SiteKey(p.stats[i].oneFrame, p.stats[i].sig.sizeClass);
      LastWins(FreezeState(p, cfg, groups).distilled, key).Some?
    ensures var s := p.stats[i];
      var found := LastWins(FreezeState(p, cfg, groups).distilled, SiteKey(s.oneFrame, s.sig.sizeClass)).value;
      && s.oneFrame != 0 && found.backend == SiteVerdict(cfg, p.stats, groups, i)
      && Unanimous(p.stats, s.oneFrame, s.sig.sizeClass, BestBackend(s))
      && AnyListed(groups, s.oneFrame, s.sig.sizeClass)
      && (KeyTells(p, i) ==> FreezeState(p, cfg, groups).main[i].flags == 0)
  {
    var s, entries := p.stats[i], FreezeState(p, cfg, groups).distilled;
    var key := SiteKey(s.oneFrame, s.sig.sizeClass);
    LastWinsMember(entries, key);
    var e := LastWins(entries, key).value;
    var finals := ClampAll(cfg, GroupVerdicts(groups));
    var excluded := Excluded(cfg, Overridden(p, cfg).frames, ShallowParents(p, cfg) + DeepParents(p, cfg));
    assert entries == Unexcluded(finals, excluded);
    hide FreezeState, SiteKey, LastWins, Overridden, ShallowParents, DeepParents, Excluded, BestBackend, Clamp, Heavy,
         DemoteFor, KeyTells, Volume, Occupied;
    UnexcludedIff(finals, excluded, e);
    var j :| 0 <= j < |finals| && e == Entry(finals[j].key, finals[j].backend, finals[j].sizeClass, 0);
    assert GroupOk(p.stats, groups[j]);
    assert InGroup(s, groups[j].frame, groups[j].sizeClass);
    if KeyTells(p, i) && FreezeState(p, cfg, groups).main[i].flags != 0 {
      PinNeverContext(p, cfg, groups, i);
    }
  }

  /** The one way the two tables part: Arena is the site's best arm and servable, and the site is
      heavy enough to be demoted in the distilled table but the signature is not in the main one. */
  ghost predicate DemotedAlone(cfg: Config, stats: seq<Stat>, groups: seq<Group>, i: nat)
    requires (forall k :: 0 <= k < |stats| ==> |stats[k].arms| == ARMS) && i < |stats|
  {
    var s, c := stats[i], stats[i].sig.sizeClass;
    && BestBackend(s) == Arena && c <= 13
    && !DemoteFor(cfg, Heavy(cfg, s.totalPulls, TotalPulls(MainVerdicts(stats))), c)
    && DemoteFor(cfg, Heavy(cfg, Saturated(Volume(stats, s.oneFrame, c)), GroupPulls(groups)), c)
  }

  /** The two tables' verdicts on one signature of a distilled site. */
  lemma TablesAgreeIff(cfg: Config, p: Policy, groups: seq<Group>, i: nat)
    requires PolicyOk(p) && StatsOk(p.stats) && Lists(p.stats, groups) && i < |p.stats|
    requires AnyListed(groups, p.stats[i].oneFrame, p.stats[i].sig.sizeClass)
    ensures var (main, site) := (MainFinals(p, cfg)[i].backend, SiteVerdict(cfg, p.stats, groups, i));
      && (site != main <==> DemotedAlone(cfg, p.stats, groups, i))
      && (site != main ==> main == Arena && site == DefaultBackend(p.stats[i].sig.sizeClass))
  {
    var s := p.stats[i];
    var c, total := s.sig.sizeClass, TotalPulls(MainVerdicts(p.stats));
    var m := DemoteFor(cfg, Heavy(cfg, s.totalPulls, total), c);
    assert MainFinals(p, cfg)[i].backend == Clamp(c, BestBackend(s), m);
    hide Clamp, Heavy, BestBackend, Volume, Occupied, Unanimous, MainVerdicts, GroupVerdicts, MainFinals;
    var j :| 0 <= j < |groups| && groups[j].frame == s.oneFrame && groups[j].sizeClass == c;
    assert GroupOk(p.stats, groups[j]);
    if Heavy(cfg, s.totalPulls, total) { DemotesAtLeast(cfg, p.stats, groups, i, j); }
    DemotionIff(c, BestBackend(s));
  }

  /** End to end: a verdict pinned at a trained site is the clamped best arm of every signature of the
      site, and is what the full route of each of those signatures answers under every history, except
      exactly where the distilled table alone demoted Arena to the class's default. */
  lemma PinServesRoute(p: Policy, cfg: Config, groups: seq<Group>, i: nat,
      inst: Lanes.Instance, pin: seq<Lanes.PinEntry>, tag: nat, ret0: nat, b: Backend, ctx: Option<(u8, u8)>)
    requires PolicyOk(p) && StatsOk(p.stats) && Lists(p.stats, groups) && i < |p.stats| && KeyTells(p, i)
    requires inst.oneFrame(ret0) == p.stats[i].oneFrame
    requires SiteTells(groups, p.stats[i].oneFrame, p.stats[i].sig.sizeClass)
    requires tag in inst.planes && Lanes.Built(inst, tag)
    requires var f := FreezeState(p, cfg, groups); inst.planes[tag] == (f.main, f.distilled)
    requires var main := FreezeState(p, cfg, groups).main;
      forall j :: 0 <= j < |main| && j != i ==> main[j].hash != main[i].hash
    requires Lanes.PinOk(inst, pin) && |pin| == Lanes.PIN_ENTRIES
    requires |pin[Lanes.PinIndex(ret0)].states| == Lanes.PIN_SC_SLOTS
    requires Lanes.Probe(pin, tag, ret0, p.stats[i].sig.sizeClass) == Lanes.Pinned(b)
    ensures Unanimous(p.stats, p.stats[i].oneFrame, p.stats[i].sig.sizeClass, BestBackend(p.stats[i]))
    ensures b == SiteVerdict(cfg, p.stats, groups, i)
    ensures var routed := RouteMain(inst.mix, Lanes.PlaneAt(inst, tag).main, CoarseKey(p.stats[i].sig), ctx);
      && routed.Some? && (b != routed.value <==> DemotedAlone(cfg, p.stats, groups, i))
      && (b != routed.value ==> routed == Some(Arena) && b == DefaultBackend(p.stats[i].sig.sizeClass))
  {
    hide FreezeState, SiteKey, Lanes.PinOk, Lanes.PinIndex, KeyTells, SiteTells, Lists, Unanimous, DemotedAlone,
         SiteVerdict, BestBackend, RouteMain, LastWins, HashTable.FromEntries, StatsOk, MainFinals, Lanes.Probe,
         Lanes.Built, Lanes.PlaneAt, AnyListed;
    var s, f := p.stats[i], FreezeState(p, cfg, groups);
    PinnedFound(inst, pin, tag, ret0, s.sig.sizeClass, b);
    DistilledFound(p, cfg, groups, i);
    TablesAgreeIff(cfg, p, groups, i);
    FlagIff(p, cfg, groups, i);
    MainRoutes(inst, tag, i, ctx);
  }

  /** A pinned verdict comes from an entry given for the site's key. */
  lemma PinnedFound(inst: Lanes.Instance, pin: seq<Lanes.PinEntry>, tag: nat, ret0: nat, c: u8, b: Backend)
    requires tag in inst.planes && Lanes.Built(inst, tag)
    requires Lanes.PinOk(inst, pin) && |pin| == Lanes.PIN_ENTRIES
    requires |pin[Lanes.PinIndex(ret0)].states| == Lanes.PIN_SC_SLOTS
    requires Lanes.Probe(pin, tag, ret0, c) == Lanes.Pinned(b)
    ensures var found := LastWins(inst.planes[tag].1, SiteKey(inst.oneFrame(ret0), c));
      found.Some? && found.value.backend == b
  {
    hide SiteKey, Lanes.PinOk, Lanes.PinIndex, LastWins, HashTable.FromEntries, HashTable.LookupWithFlags,
         Lanes.PlaneAt;
    Lanes.PinnedIsFresh(inst, pin, tag, ret0, c);
    PlaneHolds(inst, tag);
    TableMeaning.LookupMeaning(inst.mix, inst.planes[tag].1, SiteKey(inst.oneFrame(ret0), c));
  }

  lemma MainRoutes(inst: Lanes.Instance, tag: nat, i: nat, ctx: Option<(u8, u8)>)
    requires tag in inst.planes && Lanes.Built(inst, tag)
    requires i < |inst.planes[tag].0| && inst.planes[tag].0[i].flags == 0
    requires var es := inst.planes[tag].0;
      forall j :: 0 <= j < |es| && j != i ==> es[j].hash != es[i].hash
    ensures var es := inst.planes[tag].0;
      RouteMain(inst.mix, Lanes.PlaneAt(inst, tag).main, es[i].hash, ctx) == Some(es[i].backend)
  {
    hide RouteMain, HashTable.FromEntries, Lanes.PlaneAt;
    PlaneHolds(inst, tag);
    UnflaggedEntryRoutes(inst.mix, inst.planes[tag].0, i, ctx);
  }

  lemma PlaneHolds(inst: Lanes.Instance, tag: nat)
    requires tag in inst.planes && Lanes.Built(inst, tag)
    ensures Lanes.PlaneAt(inst, tag).main == HashTable.FromEntries(inst.mix, inst.planes[tag].0).value
    ensures Lanes.PlaneAt(inst, tag).distilled == HashTable.FromEntries(inst.mix, inst.planes[tag].1).value
  {
    hide HashTable.FromEntries, ScVerdicts, AnyFlag;
  }

  /** It does happen, also where one signature is all there is to the site: its 30 pulls are the whole
      distilled volume, and less than half of the main table's. A pin then says Slab where the full
      route says Arena. */
  lemma DemotedAloneWitness() returns (p: Policy, cfg: Config, groups: seq<Group>)
    ensures PolicyOk(p) && StatsOk(p.stats) && |p.stats| == 2 && Lists(p.stats, groups)
    ensures AnyListed(groups, p.stats[0].oneFrame, p.stats[0].sig.sizeClass)
    ensures DemotedAlone(cfg, p.stats, groups, 0)
    ensures MainFinals(p, cfg)[0].backend == Arena && SiteVerdict(cfg, p.stats, groups, 0) == Slab
  {
    var low := Arm(0.0, 1, 0, 0.0, 0.0);
    var s := Stat(Signature(1, 5), [low, low, low, Arm(27.0, 27, 26, 1.0, 0.0)], 30, 7);
    var other := Stat(Signature(2, 5), [Arm(97.0, 97, 96, 1.0, 0.0), low, low, low], 100, 0);
    cfg, p, groups := Config(true, false, 0.5, 0.0, false), Policy([s, other], [], []), [Group(7, 5, Arena, 30)];
    hide BestBackend, Volume, MainVerdicts, Lists, MainFinals, SiteVerdict, TotalPulls, DemotedAlone;
    ArenaBest(s);
    OneGroup(p.stats, s, other);
    MainTotal(p.stats);
    StatPullsTwo(s, other);
    OnePull(groups[0]);
    SharesPart(cfg, p.stats, groups);
    TablesAgreeIff(cfg, p, groups, 0);
  }

  lemma OnePull(g: Group)
    ensures GroupPulls([g]) == g.pulls
  {
    hide SiteKey;
    var vs := GroupVerdicts([g]);
    assert vs[..|vs| - 1] == [] && TotalPulls(vs) == TotalPulls(vs[..|vs| - 1]) + vs[|vs| - 1].pulls;
  }

  lemma SharesPart(cfg: Config, stats: seq<Stat>, groups: seq<Group>)
    requires |stats| > 0 && forall k :: 0 <= k < |stats| ==> |stats[k].arms| == ARMS
    requires cfg == Config(true, false, 0.5, 0.0, false) && BestBackend(stats[0]) == Arena
    requires stats[0].sig.sizeClass == 5 && stats[0].totalPulls == 30 && GroupPulls(groups) == 30
    requires Volume(stats, stats[0].oneFrame, 5) == 30 && TotalPulls(MainVerdicts(stats)) == 130
    ensures DemotedAlone(cfg, stats, groups, 0)
  {
    hide BestBackend, Volume, MainVerdicts, GroupPulls, TotalPulls;
  }

  lemma ArenaBest(s: Stat)
    requires |s.arms| == ARMS && s.arms[3].sum > 0.0 && forall i :: 0 <= i < ARMS ==> s.arms[i].pulls >= 1
    requires forall i :: 0 <= i < 3 ==> s.arms[i].sum == 0.0
    ensures BestBackend(s) == Arena
  {
    var means := seq(ARMS, i requires 0 <= i < ARMS => Mean(s.arms[i].sum, s.arms[i].pulls));
    LastMaxUnique(means, 3);
    hide Best;
  }

  lemma StatPullsTwo(s: Stat, other: Stat)
    ensures StatPulls([s, other]) == s.totalPulls + other.totalPulls
  {
    var both, one := [s, other], [s];
    assert both[..|both| - 1] == one && one[..|one| - 1] == [];
    assert StatPulls(one) == StatPulls([]) + s.totalPulls;
  }

  lemma OneGroup(stats: seq<Stat>, s: Stat, other: Stat)
    requires stats == [s, other] && |s.arms| == |other.arms| == ARMS && s.oneFrame != 0 && other.oneFrame == 0
    requires BestBackend(s) == Arena
    ensures Volume(stats, s.oneFrame, s.sig.sizeClass) == s.totalPulls
    ensures Lists(stats, [Group(s.oneFrame, s.sig.sizeClass, Arena, s.totalPulls)])
  {
    hide BestBackend;
    var frame, c := s.oneFrame, s.sig.sizeClass;
    assert [] + [s] == [s] && [s] + [other] == stats && Volume([], frame, c) == 0;
    VolumeStep([], s, frame, c);
    VolumeStep([s], other, frame, c);
    hide Volume;
    assert InGroup(stats[0], s.oneFrame, s.sig.sizeClass);
    var groups := [Group(s.oneFrame, s.sig.sizeClass, Arena, s.totalPulls)];
    assert GroupOk(stats, groups[0]);
    forall frame: u64, c: u8 | frame != 0 && Occupied(stats, frame, c) ensures AnyListed(groups, frame, c) {
      assert groups[0].frame == frame;
    }
  }

  /** Frozen distilled entries are found under their own class, so the class shortcut and a pin agree,
      as long as no trained leaf site has this key under another class. */
  lemma FrozenCarriesClass(p: Policy, cfg: Config, groups: seq<Group>, oneFrame: nat -> u64, sites: set<nat>, ret0: nat,
      c: u8)
    requires PolicyOk(p) && Lists(p.stats, groups) && Lanes.OwnKey(oneFrame, sites, ret0, c)
    requires forall i :: 0 <= i < |p.stats| && p.stats[i].oneFrame != 0 ==>
               exists a :: a in sites && oneFrame(a) == p.stats[i].oneFrame
    ensures Lanes.KeyCarriesClass(oneFrame, FreezeState(p, cfg, groups).distilled, ret0, c)
  {
    var entries, finals := FreezeState(p, cfg, groups).distilled, ClampAll(cfg, GroupVerdicts(groups));
    var excluded := Excluded(cfg, Overridden(p, cfg).frames, ShallowParents(p, cfg) + DeepParents(p, cfg));
    assert entries == Unexcluded(finals, excluded);
    hide FreezeState, SiteKey, Overridden, ShallowParents, DeepParents, Excluded, Clamp, Heavy, DemoteFor, Unanimous,
         Volume, BestBackend;
    forall e | e in entries ensures exists a :: a in sites && e.hash == SiteKey(oneFrame(a), e.sizeClass) {
      UnexcludedIff(finals, excluded, e);
      var j :| 0 <= j < |finals| && e == Entry(finals[j].key, finals[j].backend, finals[j].sizeClass, 0);
      assert GroupOk(p.stats, groups[j]);
      var i :| 0 <= i < |p.stats| && InGroup(p.stats[i], groups[j].frame, groups[j].sizeClass);
    }
    Lanes.DistilledCarryClass(oneFrame, sites, entries, ret0, c);
  }
}
