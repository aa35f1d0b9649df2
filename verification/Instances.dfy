/** Choosing the cloud instance type that realises a planned slot. */
module Instances {
  import opened Capacity
  import opened Search
  import opened Plan
  import opened Protocol
  import opened PackedRuns

  datatype InstanceType = InstanceType(name: string, capacity: Slot)

  /** The slot sizes offered to the planner, in catalogue order. */
  function PossibleSlots(types: seq<InstanceType>): seq<Slot> {
    seq(|types|, i requires 0 <= i < |types| => types[i].capacity)
  }

  function NotBelow(types: seq<InstanceType>, slot: Slot): (ok: seq<bool>)
    ensures |ok| == |types| && forall i :: 0 <= i < |ok| ==> ok[i] == !types[i].capacity.Less(slot)
  {
    seq(|types|, i requires 0 <= i < |types| => !types[i].capacity.Less(slot))
  }

  /** The type that realises a slot: where the search stops, or the last one. */
  function TypeFor(types: seq<InstanceType>, slot: Slot): InstanceType
    requires |types| > 0
  {
    var i := Halving(NotBelow(types, slot), 0, |types|);
    if i < |types| then types[i] else types[|types| - 1]
  }

  /** It is a type of least capacity not lexicographically below the slot, and the last type if all are below;
      a slot of a size that some type has gets a type of exactly that size. */
  lemma {:induction false} TypeForIsLeast(types: seq<InstanceType>, slot: Slot)
    requires |types| > 0 && Sorted(PossibleSlots(types))
    ensures TypeFor(types, slot) in types
    ensures slot in PossibleSlots(types) ==> TypeFor(types, slot).capacity == slot
    ensures forall u :: u in types && !u.capacity.Less(slot) ==>
              !TypeFor(types, slot).capacity.Less(slot) && !u.capacity.Less(TypeFor(types, slot).capacity)
    ensures (forall u :: u in types ==> u.capacity.Less(slot)) ==> TypeFor(types, slot) == types[|types| - 1]
  {
    var ok, slots := NotBelow(types, slot), PossibleSlots(types);
    var i := Halving(ok, 0, |types|);
    HalvingBoundary(ok);
    assert Partitioned(ok) by {
      forall a, b | 0 <= a < b < |ok| && ok[a] ensures ok[b] { assert !slots[b].Less(slots[a]); }
    }
    forall k | 0 <= k < |types| && !types[k].capacity.Less(slot)
      ensures i <= k && !slots[k].Less(slots[i])
    {
      HalvingIsLeast(ok, k);
      assert i == k || !slots[k].Less(slots[i]);
    }
  }

  /** The search over the instance types. */
  method InstanceTypeForSlot(types: seq<InstanceType>, slot: Slot) returns (t: InstanceType)
    requires |types| > 0
    ensures t == TypeFor(types, slot)
    ensures Sorted(PossibleSlots(types)) && slot in PossibleSlots(types) ==> t.capacity == slot
    ensures Sorted(PossibleSlots(types)) ==> forall u :: u in types && !u.capacity.Less(slot) ==>
              !t.capacity.Less(slot) && !u.capacity.Less(t.capacity)
  {
    if Sorted(PossibleSlots(types)) {
      TypeForIsLeast(types, slot);
    }
    var ok := NotBelow(types, slot);
    var i := LowerBound(ok);
    t := if i == |types| then types[|types| - 1] else types[i];
  }

  /** Planner and cloud client fit together: when the planner is offered the sizes of the types, every VM of every run
      is allocated as an instance of exactly its size. */
  lemma {:induction false} RowsGetTheirSize(
    types: seq<InstanceType>, c: Config, states: seq<System>, steps: seq<Step>, i: nat, v: VmId)
    requires |types| > 0 && Sorted(PossibleSlots(types)) && c.catalogue == PossibleSlots(types)
    requires PackedRun(c, states, steps) && i < |states| && v in states[i].db.vms
    ensures TypeFor(types, states[i].db.vms[v].total) in types
    ensures TypeFor(types, states[i].db.vms[v].total).capacity == states[i].db.vms[v].total
  {
    SizesAt(c, states, steps, i);
    TypeForIsLeast(types, states[i].db.vms[v].total);
  }
}
