/** Doubly linked lists threaded through a `prev` and a `next` link table, with 0 as the
    null link. One pair of tables may thread several disjoint lists at once. */
module Links {

  ghost predicate NoDup(list: seq<nat>) {
    forall i, j :: 0 <= i < j < |list| ==> list[i] != list[j]
  }

  ghost predicate Apart(list: seq<nat>, other: seq<nat>) {
    forall n :: n in list ==> n !in other
  }

  ghost function First(list: seq<nat>): nat {
    if list == [] then 0 else list[0]
  }

  ghost function Last(list: seq<nat>): nat {
    if list == [] then 0 else list[|list| - 1]
  }

  ghost function Drop(list: seq<nat>, k: nat): seq<nat>
    requires k < |list|
  {
    list[..k] + list[k + 1..]
  }

  ghost function Before(list: seq<nat>, i: nat): nat
    requires i < |list|
  {
    if i == 0 then 0 else list[i - 1]
  }

  ghost function After(list: seq<nat>, i: nat): nat
    requires i < |list|
  {
    if i + 1 == |list| then 0 else list[i + 1]
  }

  /** `list` is threaded, in order and in both directions, through the tables. */
  ghost predicate Linked(prev: map<nat, nat>, next: map<nat, nat>, list: seq<nat>) {
    && NoDup(list)
    && forall i {:trigger list[i]} :: 0 <= i < |list| ==>
        && list[i] != 0 && list[i] in prev && list[i] in next
        && prev[list[i]] == Before(list, i)
        && next[list[i]] == After(list, i)
  }

  /** Only the links of the list's own nodes matter. */
  lemma LinkedFrame(prev: map<nat, nat>, next: map<nat, nat>,
                    prev': map<nat, nat>, next': map<nat, nat>, list: seq<nat>)
    requires Linked(prev, next, list)
    requires forall n :: n in list ==> n in prev' && n in next' && prev'[n] == prev[n] && next'[n] == next[n]
    ensures Linked(prev', next', list)
  {
    forall i | 0 <= i < |list|
      ensures list[i] != 0 && list[i] in prev' && list[i] in next'
      ensures prev'[list[i]] == Before(list, i)
      ensures next'[list[i]] == After(list, i)
    {
      assert list[i] in list;
    }
  }

  ghost function FrontPrev(prev: map<nat, nat>, list: seq<nat>, n: nat): map<nat, nat> {
    if list == [] then prev[n := 0] else prev[n := 0][list[0] := n]
  }

  ghost function FrontNext(next: map<nat, nat>, list: seq<nat>, n: nat): map<nat, nat> {
    next[n := First(list)]
  }

  ghost function BackPrev(prev: map<nat, nat>, list: seq<nat>, n: nat): map<nat, nat> {
    prev[n := Last(list)]
  }

  ghost function BackNext(next: map<nat, nat>, list: seq<nat>, n: nat): map<nat, nat> {
    if list == [] then next[n := 0] else next[n := 0][list[|list| - 1] := n]
  }

  ghost function CutPrev(prev: map<nat, nat>, list: seq<nat>, k: nat): map<nat, nat>
    requires k < |list|
  {
    if k + 1 == |list| then prev else prev[list[k + 1] := Before(list, k)]
  }

  ghost function CutNext(next: map<nat, nat>, list: seq<nat>, k: nat): map<nat, nat>
    requires k < |list|
  {
    if k == 0 then next else next[list[k - 1] := After(list, k)]
  }

  lemma PushFront(prev: map<nat, nat>, next: map<nat, nat>, list: seq<nat>, n: nat)
    requires Linked(prev, next, list) && n != 0 && n !in list
    ensures Linked(FrontPrev(prev, list, n), FrontNext(next, list, n), [n] + list)
  {
    var list', prev', next' := [n] + list, FrontPrev(prev, list, n), FrontNext(next, list, n);
    forall i | 0 <= i < |list'|
      ensures list'[i] in prev' && list'[i] in next'
      ensures prev'[list'[i]] == Before(list', i)
      ensures next'[list'[i]] == After(list', i)
    {
      if i > 0 {
        assert list'[i] == list[i - 1] && list[i - 1] in list;
        if i < |list| { assert list'[i + 1] == list[i]; }
      }
    }
  }

  lemma PushBack(prev: map<nat, nat>, next: map<nat, nat>, list: seq<nat>, n: nat)
    requires Linked(prev, next, list) && n != 0 && n !in list
    ensures Linked(BackPrev(prev, list, n), BackNext(next, list, n), list + [n])
  {
    var list', prev', next' := list + [n], BackPrev(prev, list, n), BackNext(next, list, n);
    forall i | 0 <= i < |list'|
      ensures list'[i] in prev' && list'[i] in next' && list'[i] != 0
      ensures prev'[list'[i]] == Before(list', i)
      ensures next'[list'[i]] == After(list', i)
    {
      if i < |list| { PushBackAt(prev, next, list, n, i); }
    }
    hide BackPrev, BackNext, Before, After;
    assert NoDup(list');
  }

  lemma PushBackAt(prev: map<nat, nat>, next: map<nat, nat>, list: seq<nat>, n: nat, i: nat)
    requires Linked(prev, next, list) && n !in list && i < |list|
    ensures list[i] in BackPrev(prev, list, n) && list[i] in BackNext(next, list, n) && list[i] != 0
    ensures BackPrev(prev, list, n)[list[i]] == Before(list + [n], i)
    ensures BackNext(next, list, n)[list[i]] == After(list + [n], i)
  {
    Ends(prev, next, list, i);
    Distinct(list, i, |list| - 1);
    assert list[i] in list;
    hide Linked, NoDup;
  }

  lemma Cut(prev: map<nat, nat>, next: map<nat, nat>, list: seq<nat>, k: nat)
    requires Linked(prev, next, list) && k < |list|
    ensures Linked(CutPrev(prev, list, k), CutNext(next, list, k), Drop(list, k))
  {
    var list', prev', next' := Drop(list, k), CutPrev(prev, list, k), CutNext(next, list, k);
    forall i | 0 <= i < |list'|
      ensures list'[i] != 0 && list'[i] in prev' && list'[i] in next'
      ensures prev'[list'[i]] == Before(list', i)
      ensures next'[list'[i]] == After(list', i)
    {
      CutAt(prev, next, list, k, i);
    }
    DropMembers(list, k);
  }

  lemma CutAt(prev: map<nat, nat>, next: map<nat, nat>, list: seq<nat>, k: nat, i: nat)
    requires Linked(prev, next, list) && k < |list| && i + 1 < |list|
    ensures var n := Drop(list, k)[i];
      && n != 0 && n in CutPrev(prev, list, k) && n in CutNext(next, list, k)
      && CutPrev(prev, list, k)[n] == Before(Drop(list, k), i)
      && CutNext(next, list, k)[n] == After(Drop(list, k), i)
  {
    hide Linked, NoDup, CutPrev, CutNext, Before, After;
    var j := if i < k then i else i + 1;
    assert Drop(list, k)[i] == list[j];
    hide Drop;
    DropEnds(list, k, i, j);
    Ends(prev, next, list, j);
    CutPrevAt(prev, list, k, j);
    CutNextAt(next, list, k, j);
  }

  lemma CutPrevAt(prev: map<nat, nat>, list: seq<nat>, k: nat, j: nat)
    requires NoDup(list) && k < |list| && j < |list| && list[j] in prev && prev[list[j]] == Before(list, j)
    ensures list[j] in CutPrev(prev, list, k)
    ensures CutPrev(prev, list, k)[list[j]] == if j == k + 1 then Before(list, k) else Before(list, j)
  {
    Distinct(list, j, k + 1);
  }

  lemma CutNextAt(next: map<nat, nat>, list: seq<nat>, k: nat, j: nat)
    requires NoDup(list) && k < |list| && j < |list| && list[j] in next && next[list[j]] == After(list, j)
    ensures list[j] in CutNext(next, list, k)
    ensures CutNext(next, list, k)[list[j]] == if j + 1 == k then After(list, k) else After(list, j)
  {
    Distinct(list, j, k - 1);
  }

  lemma Distinct(list: seq<nat>, i: nat, j: int)
    requires NoDup(list) && i < |list|
    ensures 0 <= j < |list| ==> (list[i] == list[j] <==> i == j)
  {
  }

  /** Neighbours after a cut: across the gap they are the cut node's own neighbours. */
  lemma DropEnds(list: seq<nat>, k: nat, i: nat, j: nat)
    requires k < |list| && i + 1 < |list| && j == if i < k then i else i + 1
    ensures Before(Drop(list, k), i) == if j == k + 1 then Before(list, k) else Before(list, j)
    ensures After(Drop(list, k), i) == if j + 1 == k then After(list, k) else After(list, j)
  {
  }

  /** The three edits leave every other list threaded through the same tables intact. */
  lemma PushFrontApart(prev: map<nat, nat>, next: map<nat, nat>, list: seq<nat>, n: nat, other: seq<nat>)
    requires Linked(prev, next, other) && Apart(other, list) && n !in other
    ensures Linked(FrontPrev(prev, list, n), FrontNext(next, list, n), other)
  {
    LinkedFrame(prev, next, FrontPrev(prev, list, n), FrontNext(next, list, n), other);
  }

  lemma PushBackApart(prev: map<nat, nat>, next: map<nat, nat>, list: seq<nat>, n: nat, other: seq<nat>)
    requires Linked(prev, next, other) && Apart(other, list) && n !in other
    ensures Linked(BackPrev(prev, list, n), BackNext(next, list, n), other)
  {
    LinkedFrame(prev, next, BackPrev(prev, list, n), BackNext(next, list, n), other);
  }

  lemma CutApart(prev: map<nat, nat>, next: map<nat, nat>, list: seq<nat>, k: nat, other: seq<nat>)
    requires Linked(prev, next, other) && Apart(other, list) && k < |list|
    ensures Linked(CutPrev(prev, list, k), CutNext(next, list, k), other)
  {
    LinkedFrame(prev, next, CutPrev(prev, list, k), CutNext(next, list, k), other);
  }

  lemma CutApartBoth(prev: map<nat, nat>, next: map<nat, nat>, list: seq<nat>, k: nat, other: seq<nat>)
    requires Linked(prev, next, list) && Linked(prev, next, other) && Apart(other, list) && k < |list|
    ensures Linked(CutPrev(prev, list, k), CutNext(next, list, k), other)
    ensures Apart(Drop(list, k), other) && Apart(other, Drop(list, k))
  {
    CutApart(prev, next, list, k, other);
    DropMembers(list, k);
    hide Drop;
  }

  /** A node of a list is its head exactly when its back link is null, its tail exactly when
      its forward link is: how `unlink` and `oob_remove` find out which ends to move. */
  lemma Ends(prev: map<nat, nat>, next: map<nat, nat>, list: seq<nat>, k: nat)
    requires Linked(prev, next, list) && k < |list|
    ensures list[k] != 0 && NoDup(list)
    ensures list[k] in prev && prev[list[k]] == Before(list, k)
    ensures list[k] in next && next[list[k]] == After(list, k)
    ensures prev[list[k]] == 0 <==> k == 0
    ensures next[list[k]] == 0 <==> k + 1 == |list|
  {
    assert k > 0 ==> list[k - 1] != 0;
    assert k + 1 < |list| ==> list[k + 1] != 0;
  }

  /** Where the ends of a list move when its `k`-th node is cut out. */
  lemma CutEnds(list: seq<nat>, k: nat)
    requires k < |list|
    ensures First(Drop(list, k)) == if k == 0 then After(list, 0) else First(list)
    ensures Last(Drop(list, k)) == if k + 1 == |list| then Before(list, k) else Last(list)
  {
  }

  lemma CutNull(prev: map<nat, nat>, next: map<nat, nat>, list: seq<nat>, k: nat)
    requires Linked(prev, next, list) && k < |list|
    ensures First(Drop(list, k)) == 0 <==> Drop(list, k) == []
  {
    assert |list| > 1 ==> list[0] != 0 && list[1] != 0;
  }

  lemma HeadNull(prev: map<nat, nat>, next: map<nat, nat>, list: seq<nat>)
    requires Linked(prev, next, list)
    ensures First(list) == 0 <==> list == []
    ensures Last(list) == 0 <==> list == []
  {
  }

  lemma DropMembers(list: seq<nat>, k: nat)
    requires NoDup(list) && k < |list|
    ensures NoDup(Drop(list, k))
    ensures forall n :: n in Drop(list, k) <==> n in list && n != list[k]
  {
    var cut := Drop(list, k);
    forall n | n in list && n != list[k] ensures n in cut {
      var i :| 0 <= i < |list| && list[i] == n;
      if i < k { assert cut[i] == n; } else { assert cut[i - 1] == n; }
    }
    forall n | n in cut ensures n in list && n != list[k] {
      var i :| 0 <= i < |cut| && cut[i] == n;
      assert n == if i < k then list[i] else list[i + 1];
    }
  }
}
