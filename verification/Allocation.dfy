/** Placing jobs on active VMs by first, best or worst fit. */
module Allocation {
  import opened Capacity
  import opened Search
  import opened Plan
  import opened Ordering

  datatype Strategy = FirstFit | BestFit | WorstFit

  function Idles(vms: seq<ActiveVm>): (r: seq<Slot>)
    ensures |r| == |vms| && forall i :: 0 <= i < |r| ==> r[i] == vms[i].idle
  {
    seq(|vms|, i requires 0 <= i < |vms| => vms[i].idle)
  }

  function FirstFitIndex(vms: seq<ActiveVm>, req: Slot): (i: nat)
    ensures i <= |vms|
    ensures i < |vms| ==> req.Fits(vms[i].idle)
    ensures forall k :: 0 <= k < i ==> !req.Fits(vms[k].idle)
  {
    if |vms| == 0 || req.Fits(vms[0].idle) then 0 else 1 + FirstFitIndex(vms[1..], req)
  }

  /** The position a strategy chooses, |vms| when it gives up. */
  function Chosen(strategy: Strategy, vms: seq<ActiveVm>, req: Slot): nat {
    match strategy
    case FirstFit => FirstFitIndex(vms, req)
    case BestFit => Halving(FitFlags(Idles(vms), req), 0, |vms|)
    case WorstFit =>
      if |vms| > 0 && req.Fits(vms[|vms| - 1].idle) then |vms| - 1 else |vms|
  }

  /** Whatever is chosen holds the job; first fit gives up only when nothing does. */
  lemma {:induction false} ChosenFits(strategy: Strategy, vms: seq<ActiveVm>, req: Slot)
    ensures var i := Chosen(strategy, vms, req); i <= |vms| && (i < |vms| ==> req.Fits(vms[i].idle))
    ensures strategy == FirstFit && Chosen(strategy, vms, req) == |vms| ==>
              forall k :: 0 <= k < |vms| ==> !req.Fits(vms[k].idle)
  {
    HalvingBoundary(FitFlags(Idles(vms), req));
  }

  /** Worst fit places on a VM of lexicographically greatest idle capacity or gives up. */
  lemma {:induction false} WorstFitGreatest(vms: seq<ActiveVm>, req: Slot, k: nat)
    requires SortedBy(vms, IdleOf, false) && k < |vms|
    ensures var i := Chosen(WorstFit, vms, req);
            (i < |vms| ==> !vms[i].idle.Less(vms[k].idle)) &&
            (i < |vms| <==> req.Fits(vms[|vms| - 1].idle))
  {
    if k < |vms| - 1 {
      assert !Before(IdleOf(vms[|vms| - 1]), IdleOf(vms[k]), false);
    }
  }

  lemma {:induction false} IdlesSorted(vms: seq<ActiveVm>)
    requires SortedBy(vms, IdleOf, false)
    ensures Sorted(Idles(vms))
  {
    forall i, j | 0 <= i < j < |vms|
      ensures !vms[j].idle.Less(vms[i].idle)
    {
      assert !Before(IdleOf(vms[j]), IdleOf(vms[i]), false);
    }
  }

  /** Best fit gives up exactly when no VM it probes on its way to the end holds the job; the last VM is one of them. */
  lemma {:induction false} BestFitGivesUp(vms: seq<ActiveVm>, req: Slot)
    ensures Chosen(BestFit, vms, req) == |vms| <==> !Caught(Idles(vms), req, 0, |vms|)
    ensures |vms| > 0 && Chosen(BestFit, vms, req) == |vms| ==> !req.Fits(vms[|vms| - 1].idle)
  {
    CaughtExactly(Idles(vms), req, 0, |vms|);
    HalvingBoundary(FitFlags(Idles(vms), req));
  }

  /** Best fit takes the first VM that holds the job, for every job, exactly when the idle capacities have pivots. */
  lemma {:induction false} BestFitFirstExactly(vms: seq<ActiveVm>)
    requires SortedBy(vms, IdleOf, false)
    ensures (forall req: Slot, k :: 0 <= k < |vms| && req.Fits(vms[k].idle) ==> Chosen(BestFit, vms, req) <= k)
            <==> Pivots(Idles(vms), 0, |vms|)
  {
    var idles := Idles(vms);
    IdlesSorted(vms);
    FindsFirstExactly(idles);
    if !Pivots(idles, 0, |vms|) {
      var req: Slot, k :| 0 <= k < |idles| && req.Fits(idles[k]) &&
                          Halving(FitFlags(idles, req), 0, |idles|) > k;
      assert req.Fits(vms[k].idle) && Chosen(BestFit, vms, req) > k;
    }
  }

  /** With pivots no VM that holds the job has lexicographically less idle capacity than the chosen one;
      on a chain none has less in any component. */
  lemma {:induction false} BestFitLeast(vms: seq<ActiveVm>, req: Slot, k: nat)
    requires SortedBy(vms, IdleOf, false) && k < |vms| && req.Fits(vms[k].idle)
    requires Pivots(Idles(vms), 0, |vms|) || Chain(Idles(vms))
    ensures var i := Chosen(BestFit, vms, req);
            i <= k && !vms[k].idle.Less(vms[i].idle) && (Chain(Idles(vms)) ==> vms[i].idle.Fits(vms[k].idle))
  {
    var idles, i := Idles(vms), Chosen(BestFit, vms, req);
    IdlesSorted(vms);
    if Chain(idles) {
      SortedChainPivots(idles, 0, |vms|);
    }
    PivotsFind(idles, 0, |vms|, req, k);
    if i < k {
      assert !idles[k].Less(idles[i]);
    }
  }

  /** Off a chain best fit may give up although a VM holds the job. */
  lemma {:induction false} BestFitCanMiss()
    ensures var vms := [ActiveVm(1, Slot(9, 9), Slot(1, 9)), ActiveVm(2, Slot(9, 9), Slot(2, 5))];
            var req := Slot(1, 7);
            SortedBy(vms, IdleOf, false) && req.Fits(vms[0].idle) && Chosen(BestFit, vms, req) == |vms|
  {
    var vms := [ActiveVm(1, Slot(9, 9), Slot(1, 9)), ActiveVm(2, Slot(9, 9), Slot(2, 5))];
    var ok := FitFlags(Idles(vms), Slot(1, 7));
    assert ok == [true, false];
    assert Mid(0, 2) == 1 && Halving(ok, 0, 2) == Halving(ok, 2, 2) == 2;
  }

  /** The map of VMs after one of them gives `req` away. */
  ghost function Charged(m: map<VmId, ActiveVm>, v: VmId, req: Slot): map<VmId, ActiveVm>
    requires v in m
  {
    m[v := m[v].(idle := m[v].idle.Minus(req))]
  }

  /** The VMs as the strategy keeps them: as given for first fit, ordered by idle capacity otherwise. */
  ghost predicate Kept(strategy: Strategy, vms: seq<ActiveVm>) {
    DistinctVms(vms) && (strategy != FirstFit ==> SortedBy(vms, IdleOf, false))
  }

  /** The first VM with more idle capacity, |vms| when there is none. */
  ghost function MoreIdleAt(vms: seq<ActiveVm>, idle: Slot): (k: nat)
    ensures k <= |vms| && (k < |vms| ==> idle.Less(vms[k].idle))
    ensures forall i :: 0 <= i < k ==> !idle.Less(vms[i].idle)
  {
    if vms == [] || idle.Less(vms[0].idle) then 0 else 1 + MoreIdleAt(vms[1..], idle)
  }

  /** Insertion behind all VMs that have no more idle capacity. */
  ghost function BehindEquals(vms: seq<ActiveVm>, vm: ActiveVm): seq<ActiveVm> {
    var k := MoreIdleAt(vms, vm.idle);
    vms[..k] + [vm] + vms[k..]
  }

  /** The container after the VM at `i` changed: in place for first fit, otherwise erased and inserted behind its
      equals. */
  ghost function Moved(strategy: Strategy, vms: seq<ActiveVm>, i: nat, vm: ActiveVm): seq<ActiveVm>
    requires i < |vms|
  {
    if strategy == FirstFit then vms[i := vm] else BehindEquals(vms[..i] + vms[i + 1..], vm)
  }

  /** One offer: the VM at the strategy's position, if any, loses the requirement; all others stay as they are. */
  ghost predicate OfferStep(strategy: Strategy, before: seq<ActiveVm>, job: QueuedJob, after: seq<ActiveVm>) {
    && Kept(strategy, before) && Kept(strategy, after)
    && var i := Chosen(strategy, before, job.req);
       if i >= |before| then after == before
       else
         && before[i].id in VmMap(before)
         && VmMap(after) == Charged(VmMap(before), before[i].id, job.req)
         && after == Moved(strategy, before, i, before[i].(idle := before[i].idle.Minus(job.req)))
  }

  lemma {:induction false} ErasedElement(vms: seq<ActiveVm>, i: nat, vm: ActiveVm)
    requires DistinctVms(vms) && i < |vms|
    ensures vm in vms[..i] + vms[i + 1..] <==> vm in vms && vm.id != vms[i].id
  {
    var rest := vms[..i] + vms[i + 1..];
    if vm in vms && vm.id != vms[i].id {
      var n :| 0 <= n < |vms| && vms[n] == vm;
      assert vm == rest[if n < i then n else n - 1];
    }
  }

  lemma {:induction false} ErasedVm(vms: seq<ActiveVm>, i: nat)
    requires DistinctVms(vms) && i < |vms|
    ensures var rest := vms[..i] + vms[i + 1..];
            DistinctVms(rest) && VmMap(rest) == VmMap(vms) - {vms[i].id}
  {
    var rest := vms[..i] + vms[i + 1..];
    assert DistinctVms(rest);
    forall vm ensures vm in rest <==> vm in vms && vm.id != vms[i].id { ErasedElement(vms, i, vm); }
    assert vms[i] in vms;
  }

  lemma {:induction false} InsertedVm(rest: seq<ActiveVm>, vm: ActiveVm, k: nat)
    requires DistinctVms(rest) && vm.id !in VmMap(rest) && k <= |rest|
    ensures var vms := rest[..k] + [vm] + rest[k..];
            DistinctVms(vms) && VmMap(vms) == VmMap(rest)[vm.id := vm]
  {
    var vms := rest[..k] + [vm] + rest[k..];
    forall n | 0 <= n < |rest|
      ensures rest[n] in vms && rest[n].id != vm.id
    {
      assert rest[n] == vms[if n < k then n else n + 1];
      assert rest[n].id in VmMap(rest);
    }
    assert vms[k] == vm;
  }

  lemma {:induction false} ReplacedVm(vms: seq<ActiveVm>, i: nat, vm: ActiveVm)
    requires DistinctVms(vms) && i < |vms| && vm.id == vms[i].id
    ensures DistinctVms(vms[i := vm]) && VmMap(vms[i := vm]) == VmMap(vms)[vm.id := vm]
  {
    var r := vms[i := vm];
    assert r[i] == vm;
    forall n | 0 <= n < |vms| && n != i
      ensures vms[n] in r && vms[n].id != vm.id
    {
      assert r[n] == vms[n];
    }
  }

  method ReplaceInPlace(vms: seq<ActiveVm>, i: nat, vm: ActiveVm) returns (r: seq<ActiveVm>)
    requires DistinctVms(vms) && i < |vms| && vm.id == vms[i].id
    ensures r == vms[i := vm] && DistinctVms(r) && VmMap(r) == VmMap(vms)[vm.id := vm]
  {
    r := vms[i := vm];
    ReplacedVm(vms, i, vm);
  }

  lemma {:induction false} InsertedBehind(rest: seq<ActiveVm>, vm: ActiveVm, k: nat)
    requires k <= |rest| && (forall i :: 0 <= i < k ==> !Before(IdleOf(vm), IdleOf(rest[i]), false))
    requires k < |rest| ==> Before(IdleOf(vm), IdleOf(rest[k]), false)
    ensures k == MoreIdleAt(rest, vm.idle)
  {
    var m := MoreIdleAt(rest, vm.idle);
    assert k < |rest| ==> vm.idle.Less(rest[k].idle);
    assert forall i :: 0 <= i < k ==> !vm.idle.Less(rest[i].idle);
  }

  /** Moving a VM to its new place in a container ordered by idle capacity. */
  method EraseAndInsert(vms: seq<ActiveVm>, i: nat, vm: ActiveVm) returns (r: seq<ActiveVm>)
    requires DistinctVms(vms) && SortedBy(vms, IdleOf, false) && i < |vms| && vm.id == vms[i].id
    ensures DistinctVms(r) && SortedBy(r, IdleOf, false)
    ensures VmMap(r) == VmMap(vms)[vm.id := vm] && r == BehindEquals(vms[..i] + vms[i + 1..], vm)
  {
    var rest, k := vms[..i] + vms[i + 1..], 0;
    r, k := InsertSorted(rest, vm, IdleOf, false);
    assert k == MoreIdleAt(rest, vm.idle) by { InsertedBehind(rest, vm, k); }
    ErasedVm(vms, i);
    InsertedVm(rest, vm, k);
  }

  /** The VM at a position gives the requirement away and moves to its new place. */
  method ChargeVm(strategy: Strategy, vms: seq<ActiveVm>, i: nat, req: Slot) returns (r: seq<ActiveVm>)
    requires Kept(strategy, vms) && i < |vms|
    ensures vms[i].id in VmMap(vms)
    ensures Kept(strategy, r) && VmMap(r) == Charged(VmMap(vms), vms[i].id, req)
    ensures r == Moved(strategy, vms, i, vms[i].(idle := vms[i].idle.Minus(req)))
  {
    var vm := vms[i].(idle := vms[i].idle.Minus(req));
    r := MoveVm(strategy, vms, i, vm);
    assert vms[i] in vms;
  }

  method MoveVm(strategy: Strategy, vms: seq<ActiveVm>, i: nat, vm: ActiveVm) returns (r: seq<ActiveVm>)
    requires Kept(strategy, vms) && i < |vms| && vm.id == vms[i].id
    ensures Kept(strategy, r) && VmMap(r) == VmMap(vms)[vm.id := vm] && r == Moved(strategy, vms, i, vm)
  {
    if strategy == FirstFit {
      r := ReplaceInPlace(vms, i, vm);
    } else {
      r := EraseAndInsert(vms, i, vm);
    }
  }

  class JobAllocator {
    const strategy: Strategy
    var vms: seq<ActiveVm>
    var updatedIds: set<VmId>

    ghost predicate Valid()
      reads this
    {
      Kept(strategy, vms) && updatedIds <= VmMap(vms).Keys
    }

    constructor (strategy: Strategy, vms: seq<ActiveVm>)
      requires DistinctVms(vms)
      ensures Valid() && this.strategy == strategy && updatedIds == {}
      ensures VmMap(this.vms) == VmMap(vms) && (strategy == FirstFit ==> this.vms == vms)
    {
      this.strategy := strategy;
      this.vms := vms;
      updatedIds := {};
      new;
      if strategy != FirstFit {
        this.vms := Sort(vms, IdleOf, false);
        PermutedVms(vms, this.vms);
      }
    }

    /** Places one job: the chosen VM, if any, loses exactly the requirement and nothing else changes. */
    method Allocate(job: QueuedJob) returns (r: Option<VmId>)
      requires Valid()
      modifies this
      ensures Valid()
      ensures var i := Chosen(strategy, old(vms), job.req);
              r == if i < |old(vms)| then Some(old(vms)[i].id) else None
      ensures OfferStep(strategy, old(vms), job, vms)
      ensures r == None ==> vms == old(vms) && updatedIds == old(updatedIds)
      ensures r.Some? ==>
                && r.value in old(VmMap(vms))
                && job.req.Fits(old(VmMap(vms))[r.value].idle)
                && VmMap(vms) == Charged(old(VmMap(vms)), r.value, job.req)
                && updatedIds == old(updatedIds) + {r.value}
    {
      ChosenFits(strategy, vms, job.req);
      var i := Choose(job.req);
      if i == |vms| {
        return None;
      }
      var id := vms[i].id;
      vms := ChargeVm(strategy, vms, i, job.req);
      updatedIds := updatedIds + {id};
      return Some(id);
    }

    method Choose(req: Slot) returns (i: nat)
      ensures i == Chosen(strategy, vms, req)
    {
      match strategy
      case FirstFit =>
        i := 0;
        while i < |vms| && !req.Fits(vms[i].idle)
          invariant i <= |vms|
          invariant FirstFitIndex(vms, req) == i + FirstFitIndex(vms[i..], req)
        {
          assert vms[i..][1..] == vms[i + 1..];
          i := i + 1;
        }
      case BestFit =>
        i := LowerBound(FitFlags(Idles(vms), req));
      case WorstFit =>
        i := if |vms| > 0 && req.Fits(vms[|vms| - 1].idle) then |vms| - 1 else |vms|;
    }

    method GetVmsWithUpdatedCapacities() returns (r: map<VmId, Slot>)
      requires Valid()
      ensures r.Keys == updatedIds
      ensures forall v :: v in updatedIds ==> r[v] == VmMap(vms)[v].idle
    {
      r := map[];
      for i := 0 to |vms|
        invariant forall v :: v in r ==> v in updatedIds
        invariant forall k :: 0 <= k < i && vms[k].id in updatedIds ==> vms[k].id in r && r[vms[k].id] == vms[k].idle
      {
        if vms[i].id in updatedIds {
          r := r[vms[i].id := vms[i].idle];
        }
      }
      forall v | v in updatedIds
        ensures v in r && r[v] == VmMap(vms)[v].idle
      {
        var k :| 0 <= k < |vms| && vms[k].id == v;
        assert vms[k] in vms;
      }
      assert forall v :: v in r.Keys <==> v in updatedIds;
    }

    method GetIdleVms() returns (r: seq<VmId>)
      requires Valid()
      ensures forall v :: v in r <==> v in VmMap(vms) && VmMap(vms)[v].total == VmMap(vms)[v].idle
    {
      r := [];
      for i := 0 to |vms|
        invariant forall v :: v in r <==> exists k :: 0 <= k < i && vms[k].id == v && vms[k].total == vms[k].idle
      {
        if vms[i].total == vms[i].idle {
          r := r + [vms[i].id];
        }
      }
    }
  }

  /** A permutation keeps ids distinct and stands for the same map. */
  lemma {:induction false} PermutedVms(a: seq<ActiveVm>, b: seq<ActiveVm>)
    requires multiset(a) == multiset(b) && DistinctVms(a)
    ensures DistinctVms(b) && VmMap(b) == VmMap(a)
  {
    forall i, j | 0 <= i < j < |b|
      ensures b[i].id != b[j].id
    {
      assert b[i] in multiset(a) && b[j] in multiset(a);
      if b[i] == b[j] {
        TwiceInMultiset(a, b, i, j);
      }
    }
    forall q | q in a ensures q in b { assert q in multiset(a); }
    forall q | q in b ensures q in a { assert q in multiset(b); }
  }
}
