/** Routing entries and their canonical form: sorted by hash, one entry per hash, the last one
    given winning. */
module Entries {
  import opened Wrappers
  import opened Bytes

  datatype Backend = Slab | Buddy | System | Arena

  function Code(b: Backend): u8 {
    match b case Slab => 0 case Buddy => 1 case System => 2 case Arena => 3
  }

  /** Decodes the low two bits. */
  function BackendOf(b: u8): Backend {
    match b % 4 case 0 => Slab case 1 => Buddy case 2 => System case _ => Arena
  }

  datatype Entry = Entry(hash: u64, backend: Backend, sizeClass: u8, flags: u8)

  ghost predicate SortedBy(es: seq<Entry>) {
    forall i, j :: 0 <= i < j < |es| ==> es[i].hash <= es[j].hash
  }

  ghost predicate Strict(es: seq<Entry>) {
    forall i, j :: 0 <= i < j < |es| ==> es[i].hash < es[j].hash
  }

  /** The last entry given for a hash. */
  ghost function LastWins(es: seq<Entry>, h: u64): Option<Entry> {
    if es == [] then None
    else if es[|es| - 1].hash == h then Some(es[|es| - 1])
    else LastWins(es[..|es| - 1], h)
  }

  /** Insert after every entry that does not sort above it. */
  function InsertLast(es: seq<Entry>, e: Entry): seq<Entry> {
    if es == [] || es[|es| - 1].hash <= e.hash then es + [e]
    else InsertLast(es[..|es| - 1], e) + [es[|es| - 1]]
  }

  /** The stable sort by hash. */
  function SortByHash(es: seq<Entry>): seq<Entry> {
    if es == [] then [] else InsertLast(SortByHash(es[..|es| - 1]), es[|es| - 1])
  }

  /** Append, or overwrite the last entry when it has the same hash. */
  function AddLast(kept: seq<Entry>, e: Entry): seq<Entry> {
    if kept != [] && kept[|kept| - 1].hash == e.hash then kept[..|kept| - 1] + [e] else kept + [e]
  }

  /** Of each run of equal hashes, the last entry. */
  function DedupLast(es: seq<Entry>): seq<Entry> {
    if es == [] then [] else AddLast(DedupLast(es[..|es| - 1]), es[|es| - 1])
  }

  function Canonical(es: seq<Entry>): seq<Entry> {
    DedupLast(SortByHash(es))
  }

  // ---- the loop --------------------------------------------------------------------------

  /** The deduplication pass: overwrite the last entry kept while the hash repeats. */
  method Dedup(es: seq<Entry>) returns (deduped: seq<Entry>)
    ensures deduped == DedupLast(es)
  {
    deduped := [];
    for i := 0 to |es|
      invariant deduped == DedupLast(es[..i])
    {
      assert es[..i + 1][..i] == es[..i];
      if |deduped| > 0 && deduped[|deduped| - 1].hash == es[i].hash {
        deduped := deduped[..|deduped| - 1] + [es[i]];
      } else {
        deduped := deduped + [es[i]];
      }
    }
    assert es[..|es|] == es;
  }

  // ---- what canonical form means ---------------------------------------------------------

  lemma {:induction false} InsertMembers(es: seq<Entry>, e: Entry)
    ensures forall x :: x in InsertLast(es, e) <==> x == e || x in es
  {
    if es != [] && es[|es| - 1].hash > e.hash {
      InsertMembers(es[..|es| - 1], e);
      assert es == es[..|es| - 1] + [es[|es| - 1]];
    }
  }

  lemma SortedAppend(es: seq<Entry>, e: Entry)
    requires SortedBy(es) && forall x :: x in es ==> x.hash <= e.hash
    ensures SortedBy(es + [e])
  {
  }

  lemma SortedBelow(es: seq<Entry>)
    requires SortedBy(es) && es != []
    ensures SortedBy(es[..|es| - 1])
    ensures forall x :: x in es ==> x.hash <= es[|es| - 1].hash
  {
    forall x | x in es ensures x.hash <= es[|es| - 1].hash {
      var i :| 0 <= i < |es| && es[i] == x;
      assert i < |es| - 1 ==> es[i].hash <= es[|es| - 1].hash;
    }
  }

  lemma {:induction false} InsertSorted(es: seq<Entry>, e: Entry, h: u64)
    requires SortedBy(es)
    ensures SortedBy(InsertLast(es, e))
    ensures LastWins(InsertLast(es, e), h) == if e.hash == h then Some(e) else LastWins(es, h)
  {
    if es != [] { SortedBelow(es); }
    if es != [] && es[|es| - 1].hash > e.hash {
      var front, l := es[..|es| - 1], es[|es| - 1];
      InsertSorted(front, e, h);
      InsertMembers(front, e);
      forall x | x in InsertLast(front, e) ensures x.hash <= l.hash {
        assert x in front ==> x in es;
      }
      hide SortedBy;
      SortedAppend(InsertLast(front, e), l);
      assert (InsertLast(front, e) + [l])[..|InsertLast(front, e)|] == InsertLast(front, e);
    } else {
      assert forall x :: x in es ==> x.hash <= e.hash;
      hide SortedBy;
      SortedAppend(es, e);
      assert (es + [e])[..|es|] == es;
    }
  }

  lemma {:induction false} SortSorted(es: seq<Entry>, h: u64)
    ensures SortedBy(SortByHash(es))
    ensures LastWins(SortByHash(es), h) == LastWins(es, h)
  {
    if es != [] {
      SortSorted(es[..|es| - 1], h);
      InsertSorted(SortByHash(es[..|es| - 1]), es[|es| - 1], h);
    }
  }

  /** Adding an entry that does not sort below the ones kept. */
  lemma AddLastStrict(kept: seq<Entry>, e: Entry, h: u64)
    requires Strict(kept) && (kept != [] ==> kept[|kept| - 1].hash <= e.hash)
    ensures Strict(AddLast(kept, e)) && AddLast(kept, e) != []
    ensures AddLast(kept, e)[|AddLast(kept, e)| - 1] == e
    ensures LastWins(AddLast(kept, e), h) == if e.hash == h then Some(e) else LastWins(kept, h)
  {
    var r := AddLast(kept, e);
    assert r[..|r| - 1] == if kept != [] && kept[|kept| - 1].hash == e.hash then kept[..|kept| - 1] else kept;
  }

  lemma {:induction false} DedupStrict(es: seq<Entry>, h: u64)
    requires SortedBy(es)
    ensures Strict(DedupLast(es))
    ensures es != [] ==> DedupLast(es) != [] && DedupLast(es)[|DedupLast(es)| - 1] == es[|es| - 1]
    ensures LastWins(DedupLast(es), h) == LastWins(es, h)
  {
    if es != [] {
      hide AddLast, Strict;
      DedupStrict(es[..|es| - 1], h);
      AddLastStrict(DedupLast(es[..|es| - 1]), es[|es| - 1], h);
    }
  }

  lemma CanonicalMeaning(es: seq<Entry>, h: u64)
    ensures Strict(Canonical(es))
    ensures LastWins(Canonical(es), h) == LastWins(es, h)
  {
    SortSorted(es, h);
    DedupStrict(SortByHash(es), h);
  }

  lemma {:induction false} LastWinsAt(es: seq<Entry>, i: nat)
    requires Strict(es) && i < |es|
    ensures LastWins(es, es[i].hash) == Some(es[i])
  {
    if i < |es| - 1 { LastWinsAt(es[..|es| - 1], i); }
  }

  lemma {:induction false} LastWinsMember(es: seq<Entry>, h: u64)
    ensures LastWins(es, h).None? <==> forall e :: e in es ==> e.hash != h
    ensures LastWins(es, h).Some? ==> LastWins(es, h).value in es && LastWins(es, h).value.hash == h
  {
    if es != [] {
      LastWinsMember(es[..|es| - 1], h);
      assert es == es[..|es| - 1] + [es[|es| - 1]];
    }
  }

  lemma LastWinsFront(es: seq<Entry>, h: u64)
    requires Strict(es) && es != []
    ensures LastWins(es[..|es| - 1], h) == if es[|es| - 1].hash == h then None else LastWins(es, h)
  {
    LastWinsMember(es[..|es| - 1], h);
  }

  lemma SameLast(a: seq<Entry>, b: seq<Entry>)
    requires Strict(a) && Strict(b) && a != []
    requires forall h :: LastWins(a, h) == LastWins(b, h)
    ensures b != [] && a[|a| - 1] == b[|b| - 1]
  {
    var m := |a| - 1;
    LastWinsAt(a, m);
    LastWinsMember(b, a[m].hash);
    assert a[m] in b;
    var n := |b| - 1;
    LastWinsAt(b, n);
    LastWinsMember(a, b[n].hash);
    hide LastWins;
    assert a[m].hash <= b[n].hash;
    assert b[n] in a;
  }

  /** Two strictly sorted lists that answer every hash alike are the same list. */
  lemma {:induction false} StrictUnique(a: seq<Entry>, b: seq<Entry>)
    requires Strict(a) && Strict(b)
    requires forall h :: LastWins(a, h) == LastWins(b, h)
    ensures a == b
  {
    hide LastWins;
    if a != [] {
      SameLast(a, b);
      var m, n := |a| - 1, |b| - 1;
      forall h ensures LastWins(a[..m], h) == LastWins(b[..n], h) {
        LastWinsFront(a, h);
        LastWinsFront(b, h);
      }
      StrictUnique(a[..m], b[..n]);
      assert a == a[..m] + [a[m]] && b == b[..n] + [b[n]];
    } else if b != [] {
      SameLast(b, a);
    }
  }

  /** The canonical form depends only on what each hash finally maps to, not on input order. */
  lemma CanonicalUnique(a: seq<Entry>, b: seq<Entry>)
    requires forall h :: LastWins(a, h) == LastWins(b, h)
    ensures Canonical(a) == Canonical(b)
  {
    forall h ensures LastWins(Canonical(a), h) == LastWins(Canonical(b), h) {
      CanonicalMeaning(a, h);
      CanonicalMeaning(b, h);
    }
    CanonicalMeaning(a, 0);
    CanonicalMeaning(b, 0);
    StrictUnique(Canonical(a), Canonical(b));
  }
}
