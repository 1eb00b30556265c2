/** Per-thread magazines: per row a bounded stack of ready blocks, valid for one owner at a time. */
module Magazines {
  import opened Wrappers

  /** Slab classes 0..=11. */
  const CLASS_CAPS: seq<nat> := [32, 32, 32, 32, 32, 32, 16, 16, 8, 8, 4, 4]
  /** Buddy orders 10..=14. */
  const ORDER_CAPS: seq<nat> := [32, 16, 8, 4, 2]
  const MIN_MAGAZINE_ORDER: nat := 10
  const MAX_MAGAZINE_ORDER: nat := 14
  const MAX_CAP: nat := 32

  function IndexFor(order: nat): (r: Option<nat>)
    ensures r.Some? <==> 10 <= order <= 14
    ensures r.Some? ==> r.value < |ORDER_CAPS| && order == 10 + r.value
  {
    if MIN_MAGAZINE_ORDER <= order <= MAX_MAGAZINE_ORDER then Some(order - MIN_MAGAZINE_ORDER) else None
  }

  /** Half the capacity, at least one: the size of a refill, and of a flush. */
  function RefillCount(caps: seq<nat>, idx: nat): nat
    requires idx < |caps|
  {
    if caps[idx] / 2 < 1 then 1 else caps[idx] / 2
  }

  /** A refill always fits an empty row, and a flush plus the block that triggered it always fits
      the 33-slot transfer buffer. */
  lemma RefillFits(idx: nat)
    requires idx < |ORDER_CAPS|
    ensures 1 <= RefillCount(ORDER_CAPS, idx) <= ORDER_CAPS[idx]
    ensures RefillCount(ORDER_CAPS, idx) <= 16
  {
    assert idx == 0 || idx == 1 || idx == 2 || idx == 3 || idx == 4;
  }

  /** The most recent `n` of a stack, top first. */
  function TopFirst(row: seq<nat>, n: nat): (r: seq<nat>)
    requires n <= |row|
    ensures |r| == n
  {
    seq(n, i requires 0 <= i < n => row[|row| - 1 - i])
  }

  class Magazine {
    const caps: seq<nat>
    var owner: nat
    const counts: array<nat>
    const slots: array2<nat>

    ghost predicate Valid()
      reads this, counts
    {
      && counts.Length == |caps| == slots.Length0 && slots.Length1 == MAX_CAP
      && forall i :: 0 <= i < |caps| ==> counts[i] <= caps[i] <= MAX_CAP
    }

    /** The stack of row `i`, bottom first. */
    ghost function Stack(i: nat): (r: seq<nat>)
      requires Valid() && i < |caps|
      reads this, counts, slots
      ensures |r| == counts[i]
    {
      seq(counts[i], k requires Valid() && 0 <= k < counts[i] reads this, counts, slots => slots[i, k])
    }

    /** What `o` sees: nothing once the magazine belongs to someone else. */
    ghost function Row(o: nat, i: nat): seq<nat>
      requires Valid() && i < |caps|
      reads this, counts, slots
    {
      if owner == o then Stack(i) else []
    }

    constructor (caps: seq<nat>)
      requires forall i :: 0 <= i < |caps| ==> caps[i] <= MAX_CAP
      ensures Valid() && this.caps == caps && owner == 0 && fresh(counts) && fresh(slots)
      ensures forall i :: 0 <= i < |caps| ==> Stack(i) == []
    {
      this.caps := caps;
      owner := 0;
      counts := new nat[|caps|](i => 0);
      slots := new nat[|caps|, MAX_CAP]((i, j) => 0);
    }

    /** Adopt a new owner by discarding everything; a magazine already owned is left alone. */
    method EnsureOwner(o: nat)
      requires Valid()
      modifies `owner, counts
      ensures Valid() && owner == o
      ensures forall i :: 0 <= i < |caps| ==> Stack(i) == old(Row(o, i))
    {
      if owner != o {
        for i := 0 to counts.Length
          invariant Valid() && owner == old(owner)
          invariant forall k :: 0 <= k < i ==> counts[k] == 0
        {
          counts[i] := 0;
        }
        owner := o;
      }
    }

    /** Pop the newest block of the row; None only when this owner's row is empty. */
    method Pop(o: nat, idx: nat) returns (r: Option<nat>)
      requires Valid() && idx < |caps|
      modifies `owner, counts
      ensures Valid() && owner == o
      ensures r.None? <==> old(Row(o, idx)) == []
      ensures old(Row(o, idx)) == if r.Some? then Row(o, idx) + [r.value] else Row(o, idx)
      ensures forall i :: 0 <= i < |caps| && i != idx ==> Row(o, i) == old(Row(o, i))
    {
      EnsureOwner(o);
      label owned:
      var n := counts[idx];
      if n == 0 {
        return None;
      }
      counts[idx] := n - 1;
      r := Some(slots[idx, n - 1]);
      assert old@owned(Stack(idx)) == Stack(idx) + [r.value];
      forall i | 0 <= i < |caps| && i != idx ensures Stack(i) == old@owned(Stack(i)) {}
    }

    /** Push a block; false, storing nothing, exactly when the row is at its capacity. */
    method Push(o: nat, idx: nat, block: nat) returns (ok: bool)
      requires Valid() && idx < |caps|
      modifies `owner, counts, slots
      ensures Valid() && owner == o
      ensures ok <==> |old(Row(o, idx))| < caps[idx]
      ensures Row(o, idx) == if ok then old(Row(o, idx)) + [block] else old(Row(o, idx))
      ensures forall i :: 0 <= i < |caps| && i != idx ==> Row(o, i) == old(Row(o, i))
    {
      EnsureOwner(o);
      label owned:
      var n := counts[idx];
      if n >= caps[idx] {
        return false;
      }
      slots[idx, n] := block;
      counts[idx] := n + 1;
      assert Stack(idx) == old@owned(Stack(idx)) + [block];
      forall i | 0 <= i < |caps| && i != idx ensures Stack(i) == old@owned(Stack(i)) {}
      return true;
    }

    /** Take up to `|out|` of the newest blocks, newest first, into `out`. */
    method Take(o: nat, idx: nat, out: array<nat>, limit: nat) returns (n: nat)
      requires Valid() && idx < |caps| && limit <= out.Length && out != counts
      modifies `owner, counts, out
      ensures Valid() && owner == o
      ensures n == if |old(Row(o, idx))| < limit then |old(Row(o, idx))| else limit
      ensures n <= |old(Row(o, idx))| && Row(o, idx) == old(Row(o, idx))[..|old(Row(o, idx))| - n]
      ensures out[..n] == TopFirst(old(Row(o, idx)), n) && out[n..] == old(out[n..])
      ensures forall i :: 0 <= i < |caps| && i != idx ==> Row(o, i) == old(Row(o, i))
    {
      EnsureOwner(o);
      label owned:
      var have := counts[idx];
      n := if have < limit then have else limit;
      for i := 0 to n
        invariant Valid() && owner == o && counts[idx] == have
        invariant forall k :: 0 <= k < |caps| ==> Stack(k) == old@owned(Stack(k))
        invariant forall k :: 0 <= k < i ==> out[k] == old@owned(Stack(idx))[have - 1 - k]
        invariant forall k :: i <= k < out.Length ==> out[k] == old(out[k])
      {
        assert Stack(idx)[have - 1 - i] == slots[idx, have - 1 - i];
        out[i] := slots[idx, have - 1 - i];
        forall k | 0 <= k < |caps| ensures Stack(k) == old@owned(Stack(k)) {}
      }
      counts[idx] := have - n;
      assert Stack(idx) == old@owned(Stack(idx))[..have - n];
      forall i | 0 <= i < |caps| && i != idx ensures Stack(i) == old@owned(Stack(i)) {}
    }
  }
}
