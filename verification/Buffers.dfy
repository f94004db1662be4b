/** The fixed pool of write buffers (src/buffers.rs). */
module Buffers {
  import opened Basics

  const MAX_BUFFER_SLOTS: nat := 8

  type Slots = s: seq<Option<seq<byte>>> | |s| == MAX_BUFFER_SLOTS
    witness [None, None, None, None, None, None, None, None]

  /** Slots are numbered from 1, so that a number fits a non-zero tag. */
  type SlotId = x: u32 | 1 <= x <= MAX_BUFFER_SLOTS witness 1

  const ALL_FREE: Slots := [None, None, None, None, None, None, None, None]

  predicate HasFree(slots: Slots) {
    exists i :: 0 <= i < |slots| && slots[i].None?
  }

  /** The lowest free index from i on. */
  function FirstFreeFrom(slots: Slots, i: nat): (r: nat)
    requires i <= |slots| && exists j :: i <= j < |slots| && slots[j].None?
    ensures i <= r < |slots| && slots[r].None?
    ensures forall j :: i <= j < r ==> slots[j].Some?
    decreases |slots| - i
  {
    if slots[i].None? then i else FirstFreeFrom(slots, i + 1)
  }

  function FirstFree(slots: Slots): (r: SlotId)
    requires HasFree(slots)
    ensures slots[r - 1].None? && forall j :: 0 <= j < r - 1 ==> slots[j].Some?
  {
    FirstFreeFrom(slots, 0) + 1
  }

  class BufferManager {
    const slots: array<Option<seq<byte>>>

    ghost predicate Valid() {
      slots.Length == MAX_BUFFER_SLOTS
    }

    ghost function View(): Slots
      requires Valid()
      reads slots
    {
      slots[..]
    }

    constructor ()
      ensures Valid() && fresh(slots) && View() == ALL_FREE
    {
      slots := new Option<seq<byte>>[MAX_BUFFER_SLOTS](_ => None);
      new;
      assert slots[..] == ALL_FREE;
    }

    /** Takes the first free slot for a new, empty buffer. With all slots in use the daemon panics. */
    method Alloc() returns (slot: SlotId)
      requires Valid() && HasFree(View())
      modifies slots
      ensures slot == FirstFree(old(View())) && View() == old(View())[slot - 1 := Some([])]
    {
      var i: nat := 0;
      while slots[i].Some?
        invariant i < slots.Length
        invariant forall j :: 0 <= j < i ==> slots[j].Some?
        decreases slots.Length - i
      {
        i := i + 1;
      }
      FirstFreeIs(View(), i);
      slots[i] := Some([]);
      slot := i + 1;
    }

    /** `extend_from_slice` on a slot's buffer. */
    method Extend(slot: SlotId, data: seq<byte>)
      requires Valid() && View()[slot - 1].Some?
      modifies slots
      ensures View() == old(View())[slot - 1 := Some(old(View())[slot - 1].value + data)]
    {
      slots[slot - 1] := Some(slots[slot - 1].value + data);
    }

    method Free(slot: SlotId)
      requires Valid()
      modifies slots
      ensures View() == old(View())[slot - 1 := None]
    {
      slots[slot - 1] := None;
    }
  }

  lemma FirstFreeIs(slots: Slots, i: nat)
    requires i < |slots| && slots[i].None? && forall j :: 0 <= j < i ==> slots[j].Some?
    ensures HasFree(slots) && FirstFree(slots) == i + 1
  {
  }

  // ----- Counting -----

  function CountFree(slots: seq<Option<seq<byte>>>): nat {
    if slots == [] then 0 else (if slots[0].None? then 1 else 0) + CountFree(slots[1..])
  }

  lemma {:induction false} CountFreeUpdate(slots: seq<Option<seq<byte>>>, i: nat, v: Option<seq<byte>>)
    requires i < |slots|
    ensures CountFree(slots[i := v])
            == CountFree(slots) - (if slots[i].None? then 1 else 0) + (if v.None? then 1 else 0)
  {
    if i == 0 {
      assert slots[i := v][1..] == slots[1..];
    } else {
      assert slots[i := v][1..] == slots[1..][i - 1 := v];
      CountFreeUpdate(slots[1..], i - 1, v);
    }
  }

  lemma {:induction false} AllFree(slots: seq<Option<seq<byte>>>)
    requires forall i :: 0 <= i < |slots| ==> slots[i].None?
    ensures CountFree(slots) == |slots|
  {
    if slots != [] {
      AllFree(slots[1..]);
    }
  }

  lemma {:induction false} CountFreeZero(slots: seq<Option<seq<byte>>>)
    ensures CountFree(slots) == 0 <==> forall i :: 0 <= i < |slots| ==> slots[i].Some?
  {
    if slots != [] {
      CountFreeZero(slots[1..]);
      assert forall i :: 1 <= i < |slots| ==> slots[i] == slots[1..][i - 1];
      assert forall i :: 0 <= i < |slots[1..]| ==> slots[1..][i] == slots[i + 1];
    }
  }
}
