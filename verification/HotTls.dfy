/** The per-thread hot block as the code updates it, cell by cell. */
module HotBlock {
  import opened Wrappers
  import opened Bytes
  import opened Entries
  import opened Routing
  import opened Lanes
  import Magazines

  class HotTls {
    var inAlloc: nat
    var ahr: u64
    var segBase: nat
    var segClass: nat
    var segOwner: nat
    const mag: Magazines.Magazine
    const pin: array<PinEntry>

    ghost predicate Valid()
      reads this, mag, mag.counts, pin
    {
      && mag.Valid() && mag.caps == Magazines.CLASS_CAPS && pin.Length == PIN_ENTRIES
      && segClass < MAG_CLASSES
      && forall i :: 0 <= i < PIN_ENTRIES ==> |pin[i].states| == PIN_SC_SLOTS
    }

    ghost function Rows(): (r: seq<seq<nat>>)
      requires Valid()
      reads this, mag, mag.counts, mag.slots, pin
      ensures |r| == MAG_CLASSES && forall i :: 0 <= i < MAG_CLASSES ==> r[i] == mag.Stack(i)
    {
      seq(MAG_CLASSES, i requires Valid()
          && 0 <= i < MAG_CLASSES reads this, mag, mag.counts, mag.slots, pin => mag.Stack(i))
    }

    ghost function State(): (t: Tls)
      requires Valid()
      reads this, mag, mag.counts, mag.slots, pin
      ensures TlsOk(t)
    {
      Tls(inAlloc, ahr, mag.owner, Rows(), segBase, segClass, segOwner, pin[..])
    }

    constructor ()
      ensures Valid() && fresh(mag) && fresh(pin) && fresh(mag.counts) && fresh(mag.slots)
      ensures State() == Tls(0, 0, 0, seq(MAG_CLASSES, i => []), 0, 0, 0,
                             seq(PIN_ENTRIES, i => PinEntry(0, 0, seq(PIN_SC_SLOTS, j => PIN_UNKNOWN))))
    {
      inAlloc, ahr, segBase, segClass, segOwner := 0, 0, 0, 0, 0;
      mag := new Magazines.Magazine(Magazines.CLASS_CAPS);
      pin := new PinEntry[PIN_ENTRIES](i => PinEntry(0, 0, seq(PIN_SC_SLOTS, j => PIN_UNKNOWN)));
    }

    /** An answer under a published table is the fresh distilled lookup, whatever else was published
        since; a site never answers for another site or another table. */
    method ProbePin(table: nat, ret0: nat, sizeClass: u8) returns (r: PinProbe)
      requires Valid()
      ensures r == Probe(pin[..], table, ret0, sizeClass)
      ensures forall inst: Instance | PinOk(inst, pin[..]) && table in inst.planes && Built(inst, table) ::
                && (r.Pinned? ==> Distilled(inst, table, ret0, sizeClass) == Some(r.backend))
                && (r.NotPinned? && sizeClass < PIN_SC_SLOTS ==> Distilled(inst, table, ret0, sizeClass) == None)
    {
      hide PinIndex, PinOk, Built, Distilled;
      if sizeClass >= PIN_SC_SLOTS {
        return NotPinned;
      }
      var e := pin[PinIndex(ret0)];
      if e.ret0 != ret0 || e.table != table {
        return Miss;
      }
      var state := e.states[sizeClass];
      if state == PIN_UNKNOWN {
        return Miss;
      }
      r := if state == PIN_NOT_PINNED then NotPinned else Pinned(if state > 3 then Arena else BackendOf(state));
      forall inst: Instance | PinOk(inst, pin[..]) && table in inst.planes && Built(inst, table)
        ensures match r case Pinned(b) => Distilled(inst, table, ret0, sizeClass) == Some(b)
                case _ => Distilled(inst, table, ret0, sizeClass) == None
      {
        PinnedIsFresh(inst, pin[..], table, ret0, sizeClass);
      }
    }

    /** Record a verdict, claiming the slot from another site or another table. */
    method StorePin(table: nat, ret0: nat, sizeClass: u8, verdict: Option<Backend>)
      requires Valid()
      modifies pin
      ensures Valid() && State() == old(State()).(pin := Store(old(pin[..]), table, ret0, sizeClass, verdict))
    {
      hide PinIndex, PinByte;
      if sizeClass >= PIN_SC_SLOTS {
        return;
      }
      var i := PinIndex(ret0);
      ghost var was := pin[i];
      if pin[i].ret0 != ret0 || pin[i].table != table {
        pin[i] := PinEntry(table, ret0, seq(PIN_SC_SLOTS, j => PIN_UNKNOWN));
      }
      pin[i] := pin[i].(states := pin[i].states[sizeClass := PinByte(verdict)]);
      assert Rows() == old(Rows());
    }

    /** The allocation lane: serves exactly when its specification does, and otherwise touches
        nothing. */
    method SlabFastAlloc(inst: Instance, ret0: Option<nat>, size: nat) returns (r: Option<nat>)
      requires Valid()
      modifies `ahr, mag.counts
      ensures Valid()
      ensures match FastAlloc(inst, old(State()), ret0, size)
        case None => r.None? && State() == old(State())
        case Some(hit) => r == Some(hit.0) && State() == hit.1
    {
      hide PinIndex, PushEvent, SlabClass, SizeClassFor;
      if size > SLAB_MAX || inst.published == 0 || ret0.None? || inAlloc > 0 {
        return None;
      }
      var cls, c := SlabClass(size, 0, 8), SizeClassFor(size);
      var e := pin[PinIndex(ret0.value)];
      if e.ret0 != ret0.value || e.table != inst.published || e.states[c] != Code(Slab) {
        return None;
      }
      if mag.owner != inst.owner {
        return None;
      }
      var n := mag.counts[cls];
      if n == 0 {
        return None;
      }
      ghost var rows := Rows();
      mag.counts[cls] := n - 1;
      r := Some(mag.slots[cls, n - 1]);
      if inst.ahrOn {
        ahr := PushEvent(ahr, AllocCode(c));
      }
      forall i | 0 <= i < MAG_CLASSES ensures mag.Stack(i) == if i == cls then rows[i][..n - 1] else rows[i] {}
      assert Rows() == rows[cls := rows[cls][..n - 1]];
    }

    /** The free lane. */
    method SlabFastDealloc(inst: Instance, ptr: nat) returns (ok: bool)
      requires Valid()
      modifies mag.counts, mag.slots
      ensures Valid()
      ensures match FastDealloc(inst, old(State()), ptr)
        case None => !ok && State() == old(State())
        case Some(t) => ok && State() == t
    {
      hide SegmentBase;
      if segBase != SegmentBase(ptr) || segOwner != inst.owner || mag.owner != inst.owner {
        return false;
      }
      var cls := segClass;
      var n := mag.counts[cls];
      if n >= Magazines.CLASS_CAPS[cls] {
        return false;
      }
      ghost var rows := Rows();
      mag.slots[cls, n] := ptr;
      mag.counts[cls] := n + 1;
      forall i | 0 <= i < MAG_CLASSES ensures mag.Stack(i) == if i == cls then rows[i] + [ptr] else rows[i] {}
      assert Rows() == rows[cls := rows[cls] + [ptr]];
      return true;
    }

    /** The classic headerless slab free up to its first overflow: fill the segment cache from the
        registry hit, then push. */
    method SlabDealloc(inst: Instance, ptr: nat) returns (ok: bool)
      requires Valid() && forall base :: base in inst.segments ==> inst.segments[base] < MAG_CLASSES
      modifies `segBase, `segClass, `segOwner, mag`owner, mag.counts, mag.slots
      ensures Valid()
      ensures ok <==> ClassicDealloc(inst, old(State()), ptr).Some?
      ensures ok ==> State() == ClassicDealloc(inst, old(State()), ptr).value
    {
      hide SegmentBase;
      if !inst.slabHeaderless || SegmentBase(ptr) !in inst.segments {
        return false;
      }
      var cls := inst.segments[SegmentBase(ptr)];
      ghost var t := State();
      if inst.fastLaneOn {
        segBase, segClass, segOwner := SegmentBase(ptr), cls, inst.owner;
      }
      forall i | 0 <= i < MAG_CLASSES ensures mag.Row(inst.owner, i) == OwnRow(t, inst.owner, i) {}
      ok := mag.Push(inst.owner, cls, ptr);
      forall i | 0 <= i < MAG_CLASSES ensures mag.Stack(i) == mag.Row(inst.owner, i) {}
      assert ok ==> Rows() == WithRow(t, inst.owner, cls, OwnRow(t, inst.owner, cls) + [ptr]).rows;
    }
  }
}
