/** The two planners: packing onto active VMs and new slots, and one new VM per job. */
module Assigner {
  import opened Capacity
  import opened Plan
  import opened Ordering
  import opened Allocation
  import opened SlotSelection

  /** Existing VMs part way through the queue: each has lost exactly the requirements placed on it. */
  ghost predicate Spent(
    req: map<JobId, Slot>, start: map<VmId, ActiveVm>, now: map<VmId, ActiveVm>, placed: map<JobId, VmId>)
  {
    && now.Keys == start.Keys
    && placed.Keys <= req.Keys
    && (forall v :: v in now ==>
          && now[v].total == start[v].total
          && start[v].idle.IsSum(now[v].idle, Total(Preimage(placed, v), req)))
  }

  lemma {:induction false} SpentStart(req: map<JobId, Slot>, start: map<VmId, ActiveVm>)
    ensures Spent(req, start, start, map[])
  {
    var none: map<JobId, VmId> := map[];
    forall v | v in start ensures Preimage(none, v) == {} {}
  }

  /** Charging a VM for one more job keeps the account. */
  lemma {:induction false} SpentStep(
    req: map<JobId, Slot>, start: map<VmId, ActiveVm>, now: map<VmId, ActiveVm>, placed: map<JobId, VmId>, j: JobId, v: VmId)
    requires Spent(req, start, now, placed) && j in req && j !in placed && v in now && req[j].Fits(now[v].idle)
    ensures Spent(req, start, Charged(now, v, req[j]), placed[j := v])
  {
    var placed' := placed[j := v];
    forall u | u in now
      ensures start[u].idle.IsSum(Charged(now, v, req[j])[u].idle, Total(Preimage(placed', u), req))
    {
      if u == v {
        assert Preimage(placed', v) - {j} == Preimage(placed, v);
        TotalTake(Preimage(placed', v), j, req);
      } else {
        assert Preimage(placed', u) == Preimage(placed, u);
      }
    }
  }

  /** The queue split into jobs placed on VMs and jobs left over. */
  ghost predicate SplitQueue(jobs: seq<QueuedJob>, i: nat, placed: map<JobId, VmId>, left: seq<QueuedJob>) {
    && |left| <= i <= |jobs| && DistinctJobs(left)
    && (forall q :: q in left ==> q in jobs[..i] && q.id !in placed)
    && (forall q :: q in jobs[..i] ==> q in left || q.id in placed)
    && (forall j :: j in placed ==> exists q :: q in jobs[..i] && q.id == j)
  }

  lemma {:induction false} SplitStep(jobs: seq<QueuedJob>, i: nat, placed: map<JobId, VmId>, left: seq<QueuedJob>, v: VmId)
    requires DistinctJobs(jobs) && i < |jobs| && SplitQueue(jobs, i, placed, left)
    ensures jobs[i].id !in placed
    ensures SplitQueue(jobs, i + 1, placed[jobs[i].id := v], left)
    ensures SplitQueue(jobs, i + 1, placed, left + [jobs[i]])
  {
    assert jobs[..i + 1] == jobs[..i] + [jobs[i]];
    forall q | q in jobs[..i]
      ensures q.id != jobs[i].id
    {
      var n :| 0 <= n < i && jobs[n] == q;
    }
    forall j | j in placed
      ensures exists q :: q in jobs[..i + 1] && q.id == j
    {
      var q :| q in jobs[..i] && q.id == j;
      assert q in jobs[..i + 1];
    }
    assert jobs[i] in jobs[..i + 1];
  }

  /** The state of the offering loop after `i` jobs. */
  ghost predicate Offered(
    jobs: seq<QueuedJob>, i: nat, start: map<VmId, ActiveVm>, now: map<VmId, ActiveVm>, updated: set<VmId>,
    placed: map<JobId, VmId>, left: seq<QueuedJob>)
    requires DistinctJobs(jobs)
  {
    && Spent(ReqMap(jobs), start, now, placed)
    && SplitQueue(jobs, i, placed, left)
    && updated == placed.Values
  }

  lemma {:induction false} OfferedPlaced(
    jobs: seq<QueuedJob>, i: nat, start: map<VmId, ActiveVm>, now: map<VmId, ActiveVm>, updated: set<VmId>,
    placed: map<JobId, VmId>, left: seq<QueuedJob>, v: VmId)
    requires DistinctJobs(jobs) && i < |jobs| && Offered(jobs, i, start, now, updated, placed, left)
    requires v in now && jobs[i].req.Fits(now[v].idle)
    ensures Offered(jobs, i + 1, start, Charged(now, v, jobs[i].req), updated + {v}, placed[jobs[i].id := v], left)
  {
    assert jobs[i] in jobs;
    SplitStep(jobs, i, placed, left, v);
    SpentStep(ReqMap(jobs), start, now, placed, jobs[i].id, v);
    ValuesGrow(placed, jobs[i].id, v);
  }

  lemma {:induction false} ValuesGrow(placed: map<JobId, VmId>, j: JobId, v: VmId)
    requires j !in placed
    ensures placed[j := v].Values == placed.Values + {v}
  {
    var placed' := placed[j := v];
    assert forall k :: k in placed ==> k in placed' && placed'[k] == placed[k];
    assert j in placed' && placed'[j] == v;
  }

  /** An offering: the allocator's VMs at first, then after each job offered. */
  datatype Offering = Begin(vms: seq<ActiveVm>) | Offer(before: Offering, job: QueuedJob, vms: seq<ActiveVm>)

  ghost function OfferedInOrder(run: Offering): seq<QueuedJob> {
    match run
    case Begin(vms) => []
    case Offer(before, job, vms) => OfferedInOrder(before) + [job]
  }

  /** Where the strategy sends the jobs of an offering. */
  ghost function SentTo(strategy: Strategy, run: Offering): map<JobId, VmId> {
    match run
    case Begin(vms) => map[]
    case Offer(before, job, vms) =>
      var i := Chosen(strategy, before.vms, job.req);
      if i < |before.vms| then SentTo(strategy, before)[job.id := before.vms[i].id] else SentTo(strategy, before)
  }

  /** An offering that begins with the given VMs and follows the strategy at every job. */
  ghost predicate OfferRun(strategy: Strategy, start: seq<ActiveVm>, run: Offering)
    requires DistinctVms(start)
  {
    match run
    case Begin(vms) =>
      Kept(strategy, vms) && VmMap(vms) == VmMap(start) && (strategy == FirstFit ==> vms == start)
    case Offer(before, job, vms) =>
      OfferRun(strategy, start, before) && OfferStep(strategy, before.vms, job, vms)
  }

  /** With first fit, a job left over fits no VM, neither at its turn nor later. */
  ghost predicate LeftOut(strategy: Strategy, left: seq<QueuedJob>, now: map<VmId, ActiveVm>) {
    strategy == FirstFit ==> forall q, v :: q in left && v in now ==> !q.req.Fits(now[v].idle)
  }

  lemma {:induction false} LeftOutStep(
    strategy: Strategy, left: seq<QueuedJob>, vms: seq<ActiveVm>, job: QueuedJob)
    requires DistinctVms(vms) && LeftOut(strategy, left, VmMap(vms)) && Chosen(strategy, vms, job.req) >= |vms|
    ensures LeftOut(strategy, left + [job], VmMap(vms))
  {
    ChosenFits(strategy, vms, job.req);
  }

  /** The loop that offers every job, in order, to the allocator. */
  method OfferJobs(allocator: JobAllocator, jobs: seq<QueuedJob>)
    returns (placed: map<JobId, VmId>, left: seq<QueuedJob>, ghost run: Offering)
    requires DistinctJobs(jobs) && allocator.Valid() && allocator.updatedIds == {}
    modifies allocator
    ensures allocator.Valid()
    ensures Offered(jobs, |jobs|, old(VmMap(allocator.vms)), VmMap(allocator.vms), allocator.updatedIds, placed, left)
    ensures OfferRun(allocator.strategy, old(allocator.vms), run) && run.vms == allocator.vms
    ensures OfferedInOrder(run) == jobs && placed == SentTo(allocator.strategy, run)
    ensures LeftOut(allocator.strategy, left, VmMap(allocator.vms))
  {
    placed, left, run := map[], [], Begin(allocator.vms);
    ghost var start := VmMap(allocator.vms);
    SpentStart(ReqMap(jobs), start);
    for i := 0 to |jobs|
      invariant allocator.Valid()
      invariant Offered(jobs, i, start, VmMap(allocator.vms), allocator.updatedIds, placed, left)
      invariant OfferRun(allocator.strategy, old(allocator.vms), run) && run.vms == allocator.vms
      invariant OfferedInOrder(run) == jobs[..i] && placed == SentTo(allocator.strategy, run)
      invariant LeftOut(allocator.strategy, left, VmMap(allocator.vms))
    {
      placed, left, run := OfferNext(allocator, jobs, i, start, placed, left, run, old(allocator.vms));
    }
  }

  /** One round of that loop. */
  method OfferNext(
    allocator: JobAllocator, jobs: seq<QueuedJob>, i: nat, ghost start: map<VmId, ActiveVm>,
    placed: map<JobId, VmId>, left: seq<QueuedJob>, ghost run: Offering, ghost first: seq<ActiveVm>)
    returns (placed': map<JobId, VmId>, left': seq<QueuedJob>, ghost run': Offering)
    requires DistinctJobs(jobs) && i < |jobs| && allocator.Valid() && DistinctVms(first)
    requires Offered(jobs, i, start, VmMap(allocator.vms), allocator.updatedIds, placed, left)
    requires OfferRun(allocator.strategy, first, run) && run.vms == allocator.vms
    requires OfferedInOrder(run) == jobs[..i] && placed == SentTo(allocator.strategy, run)
    requires LeftOut(allocator.strategy, left, VmMap(allocator.vms))
    modifies allocator
    ensures allocator.Valid()
    ensures Offered(jobs, i + 1, start, VmMap(allocator.vms), allocator.updatedIds, placed', left')
    ensures OfferRun(allocator.strategy, first, run') && run'.vms == allocator.vms
    ensures OfferedInOrder(run') == jobs[..i + 1] && placed' == SentTo(allocator.strategy, run')
    ensures LeftOut(allocator.strategy, left', VmMap(allocator.vms))
  {
    ghost var vms, updated := allocator.vms, allocator.updatedIds;
    var vm := allocator.Allocate(jobs[i]);
    run' := Offer(run, jobs[i], allocator.vms);
    RunGrows(allocator.strategy, first, run, jobs, i, allocator.vms);
    SentGrows(allocator.strategy, run, jobs, i, allocator.vms);
    if vm.Some? {
      OfferedPlaced(jobs, i, start, VmMap(vms), updated, placed, left, vm.value);
      placed', left' := placed[jobs[i].id := vm.value], left;
    } else {
      SplitStep(jobs, i, placed, left, 0);
      LeftOutStep(allocator.strategy, left, vms, jobs[i]);
      placed', left' := placed, left + [jobs[i]];
    }
  }

  lemma {:induction false} RunGrows(
    strategy: Strategy, first: seq<ActiveVm>, run: Offering, jobs: seq<QueuedJob>, i: nat, after: seq<ActiveVm>)
    requires DistinctVms(first) && OfferRun(strategy, first, run) && i < |jobs|
    requires OfferStep(strategy, run.vms, jobs[i], after)
    ensures OfferRun(strategy, first, Offer(run, jobs[i], after))
  {
  }

  lemma {:induction false} SentGrows(strategy: Strategy, run: Offering, jobs: seq<QueuedJob>, i: nat, after: seq<ActiveVm>)
    requires i < |jobs| && OfferedInOrder(run) == jobs[..i]
    ensures var run' := Offer(run, jobs[i], after);
            && OfferedInOrder(run') == jobs[..i + 1]
            && var k := Chosen(strategy, run.vms, jobs[i].req);
               SentTo(strategy, run') ==
               if k < |run.vms| then SentTo(strategy, run)[jobs[i].id := run.vms[k].id] else SentTo(strategy, run)
  {
    PrefixGrows(jobs, i);
  }

  /** The plan assembled from what was placed on VMs and what was selected as new slots. */
  ghost predicate Assembled(
    placed: map<JobId, VmId>, selected: map<JobId, SlotId>, desired: map<SlotId, DesiredSlot>,
    now: map<VmId, ActiveVm>, updated: set<VmId>, ch: StateChange)
  {
    && (forall j :: j in ch.jobToVm <==> j in placed || j in selected)
    && (forall j :: j in placed ==> j !in selected && ch.jobToVm[j] == Existing(placed[j]))
    && (forall j :: j in selected ==> ch.jobToVm[j] == New(selected[j]))
    && ch.desired == desired
    && ch.updatedIdle.Keys == updated
    && (forall v :: v in updated ==> v in now && ch.updatedIdle[v] == now[v].idle)
    && (forall v :: v in ch.terminate <==> v in now && now[v].total == now[v].idle)
  }

  lemma {:induction false} AssembledPreimages(
    placed: map<JobId, VmId>, selected: map<JobId, SlotId>, desired: map<SlotId, DesiredSlot>,
    now: map<VmId, ActiveVm>, updated: set<VmId>, ch: StateChange)
    requires Assembled(placed, selected, desired, now, updated, ch)
    ensures forall v :: Preimage(ch.jobToVm, Existing(v)) == Preimage(placed, v)
    ensures forall s :: Preimage(ch.jobToVm, New(s)) == Preimage(selected, s)
  {
    forall v
      ensures Preimage(ch.jobToVm, Existing(v)) == Preimage(placed, v)
    {
      assert forall j :: j in Preimage(ch.jobToVm, Existing(v)) <==> j in Preimage(placed, v);
    }
    forall s
      ensures Preimage(ch.jobToVm, New(s)) == Preimage(selected, s)
    {
      assert forall j :: j in Preimage(ch.jobToVm, New(s)) <==> j in Preimage(selected, s);
    }
  }

  /** Jobs left over keep their requirements. */
  lemma {:induction false} LeftRequirements(jobs: seq<QueuedJob>, placed: map<JobId, VmId>, left: seq<QueuedJob>)
    requires DistinctJobs(jobs) && SplitQueue(jobs, |jobs|, placed, left)
    ensures ReqMap(left).Keys <= ReqMap(jobs).Keys
    ensures forall j :: j in ReqMap(left) ==> ReqMap(jobs)[j] == ReqMap(left)[j] && j !in placed
    ensures forall j :: j in ReqMap(jobs) ==> j in ReqMap(left) || j in placed
    ensures placed.Keys <= ReqMap(jobs).Keys
  {
    assert jobs[..|jobs|] == jobs;
    forall j | j in placed.Keys
      ensures j in ReqMap(jobs).Keys
    {
      var q :| q in jobs && q.id == j;
    }
  }

  lemma {:induction false} SlotsSound(
    catalogue: seq<Slot>, req: map<JobId, Slot>, leftReq: map<JobId, Slot>, selected: map<JobId, SlotId>, s: SlotId, slot: DesiredSlot)
    requires SlotSound(catalogue, leftReq, selected, s, slot)
    requires leftReq.Keys <= req.Keys && forall j :: j in leftReq ==> req[j] == leftReq[j]
    ensures Preimage(selected, s) <= req.Keys
    ensures slot.total.Within(slot.idle, Total(Preimage(selected, s), req))
    ensures PlaceableJobs(catalogue, req, Preimage(selected, s)) ==>
              slot.total.IsSum(slot.idle, Total(Preimage(selected, s), req))
    ensures slot.total.IsSum(slot.idle, Total(Preimage(selected, s), req)) ==>
              && FittingJobs(catalogue, req, Preimage(selected, s))
              && (|Preimage(selected, s)| == 1 ==> PlaceableJobs(catalogue, req, Preimage(selected, s)))
  {
    forall j | j in Preimage(selected, s) ensures j in leftReq && req[j] == leftReq[j] { assert j in leftReq.Keys; }
    TotalAgree(Preimage(selected, s), leftReq, req);
  }

  /** Everything the assembled plan was made from. */
  ghost predicate Planned(
    catalogue: seq<Slot>, jobs: seq<QueuedJob>, start: map<VmId, ActiveVm>, now: map<VmId, ActiveVm>, updated: set<VmId>,
    placed: map<JobId, VmId>, left: seq<QueuedJob>, selected: map<JobId, SlotId>, desired: map<SlotId, DesiredSlot>)
  {
    && DistinctJobs(jobs)
    && Offered(jobs, |jobs|, start, now, updated, placed, left)
    && selected.Keys == ReqMap(left).Keys
    && (forall j :: j in selected ==> selected[j] in desired)
    && (forall s :: s in desired ==> SlotSound(catalogue, ReqMap(left), selected, s, desired[s]))
  }

  lemma {:induction false} PlannedAssignsAll(
    req: map<JobId, Slot>, now: map<VmId, ActiveVm>, updated: set<VmId>,
    placed: map<JobId, VmId>, selected: map<JobId, SlotId>, desired: map<SlotId, DesiredSlot>, ch: StateChange)
    requires Assembled(placed, selected, desired, now, updated, ch)
    requires req.Keys == placed.Keys + selected.Keys && updated == placed.Values
    requires forall j :: j in selected ==> selected[j] in desired
    ensures AssignsAll(req, ch)
  {
    assert forall j :: j in ch.jobToVm.Keys <==> j in req.Keys;
    assert forall j :: j in placed ==> placed[j] in placed.Values;
  }

  lemma {:induction false} PlannedCharges(
    catalogue: seq<Slot>, jobs: seq<QueuedJob>, start: map<VmId, ActiveVm>, now: map<VmId, ActiveVm>, updated: set<VmId>,
    placed: map<JobId, VmId>, left: seq<QueuedJob>, selected: map<JobId, SlotId>, desired: map<SlotId, DesiredSlot>,
    ch: StateChange)
    requires Planned(catalogue, jobs, start, now, updated, placed, left, selected, desired)
    requires Assembled(placed, selected, desired, now, updated, ch) && AssignsAll(ReqMap(jobs), ch)
    ensures ChargesVms(ReqMap(jobs), start, ch)
  {
    AssembledPreimages(placed, selected, desired, now, updated, ch);
    forall v | v in ch.updatedIdle
      ensures v in start && Preimage(placed, v) != {}
      ensures start[v].idle.IsSum(ch.updatedIdle[v], Total(Preimage(placed, v), ReqMap(jobs)))
    {
      assert v in ch.updatedIdle.Keys;
      var j :| j in placed && placed[j] == v;
      assert j in Preimage(placed, v);
    }
  }

  lemma {:induction false} PlannedFills(
    catalogue: seq<Slot>, jobs: seq<QueuedJob>, start: map<VmId, ActiveVm>, now: map<VmId, ActiveVm>, updated: set<VmId>,
    placed: map<JobId, VmId>, left: seq<QueuedJob>, selected: map<JobId, SlotId>, desired: map<SlotId, DesiredSlot>,
    ch: StateChange)
    requires Planned(catalogue, jobs, start, now, updated, placed, left, selected, desired)
    requires Assembled(placed, selected, desired, now, updated, ch) && AssignsAll(ReqMap(jobs), ch)
    ensures FillsSlots(catalogue, ReqMap(jobs), ch) && OversizedLose(catalogue, ReqMap(jobs), ch)
  {
    AssembledPreimages(placed, selected, desired, now, updated, ch);
    LeftRequirements(jobs, placed, left);
    forall s | s in desired
      ensures desired[s].total.Within(desired[s].idle, Load(ch, ReqMap(jobs), New(s)))
      ensures PlaceableJobs(catalogue, ReqMap(jobs), Preimage(selected, s)) ==>
                desired[s].total.IsSum(desired[s].idle, Load(ch, ReqMap(jobs), New(s)))
      ensures desired[s].total.IsSum(desired[s].idle, Load(ch, ReqMap(jobs), New(s))) ==>
                && FittingJobs(catalogue, ReqMap(jobs), Preimage(selected, s))
                && (|Preimage(selected, s)| == 1 ==> PlaceableJobs(catalogue, ReqMap(jobs), Preimage(selected, s)))
    {
      SlotsSound(catalogue, ReqMap(jobs), ReqMap(left), selected, s, desired[s]);
    }
  }

  lemma {:induction false} PlannedSound(
    catalogue: seq<Slot>, jobs: seq<QueuedJob>, start: map<VmId, ActiveVm>, now: map<VmId, ActiveVm>, updated: set<VmId>,
    placed: map<JobId, VmId>, left: seq<QueuedJob>, selected: map<JobId, SlotId>, desired: map<SlotId, DesiredSlot>,
    ch: StateChange)
    requires Planned(catalogue, jobs, start, now, updated, placed, left, selected, desired)
    requires Assembled(placed, selected, desired, now, updated, ch)
    ensures PlanSound(catalogue, ReqMap(jobs), start, ch) && OversizedLose(catalogue, ReqMap(jobs), ch)
  {
    LeftRequirements(jobs, placed, left);
    PlannedAssignsAll(ReqMap(jobs), now, updated, placed, selected, desired, ch);
    PlannedCharges(catalogue, jobs, start, now, updated, placed, left, selected, desired, ch);
    PlannedFills(catalogue, jobs, start, now, updated, placed, left, selected, desired, ch);
    PlannedDrops(ReqMap(jobs), start, now, updated, placed, ch);
  }

  lemma {:induction false} PlannedDrops(
    req: map<JobId, Slot>, start: map<VmId, ActiveVm>, now: map<VmId, ActiveVm>, updated: set<VmId>,
    placed: map<JobId, VmId>, ch: StateChange)
    requires Spent(req, start, now, placed) && updated == placed.Values && ch.updatedIdle.Keys == updated
    requires forall v :: v in updated ==> v in now && ch.updatedIdle[v] == now[v].idle
    requires forall v :: v in ch.terminate <==> v in now && now[v].total == now[v].idle
    ensures DropsIdle(start, ch)
  {
    forall v | v in start
      ensures v in now && IdleAfter(ch, start, v) == now[v].idle
    {
      IdleIsNow(req, start, now, updated, placed, ch, v);
    }
  }

  method MergeAssignments(placed: map<JobId, VmId>, selected: map<JobId, SlotId>) returns (r: map<JobId, Target>)
    requires placed.Keys !! selected.Keys
    ensures forall j :: j in r <==> j in placed || j in selected
    ensures forall j :: j in placed ==> r[j] == Existing(placed[j])
    ensures forall j :: j in selected ==> r[j] == New(selected[j])
  {
    r := (map j | j in selected :: New(selected[j])) + (map j | j in placed :: Existing(placed[j]));
  }

  /** The part of the plan that uses active VMs. */
  method PlaceOnVms(strategy: Strategy, jobs: seq<QueuedJob>, vms: seq<ActiveVm>)
    returns (placed: map<JobId, VmId>, left: seq<QueuedJob>, updatedIdle: map<VmId, Slot>, terminate: seq<VmId>,
             ghost now: map<VmId, ActiveVm>, ghost updated: set<VmId>, ghost run: Offering)
    requires DistinctJobs(jobs) && DistinctVms(vms)
    ensures Offered(jobs, |jobs|, VmMap(vms), now, updated, placed, left)
    ensures updatedIdle.Keys == updated && forall v :: v in updated ==> v in now && updatedIdle[v] == now[v].idle
    ensures forall v :: v in terminate <==> v in now && now[v].total == now[v].idle
    ensures OfferRun(strategy, vms, run) && OfferedInOrder(run) == jobs && placed == SentTo(strategy, run)
    ensures DistinctVms(run.vms) && now == VmMap(run.vms) && LeftOut(strategy, left, now)
    ensures SplitQueue(jobs, |jobs|, placed, left) && updatedIdle.Keys == placed.Values
  {
    var allocator := new JobAllocator(strategy, vms);
    ghost var first := allocator.vms;
    placed, left, run := OfferJobs(allocator, jobs);
    SameStart(strategy, first, vms, run);
    updatedIdle := allocator.GetVmsWithUpdatedCapacities();
    terminate := allocator.GetIdleVms();
    now, updated := VmMap(allocator.vms), allocator.updatedIds;
  }

  /** An offering from the container built of some VMs is one from these VMs. */
  lemma {:induction false} SameStart(strategy: Strategy, first: seq<ActiveVm>, vms: seq<ActiveVm>, run: Offering)
    requires DistinctVms(first) && DistinctVms(vms) && OfferRun(strategy, first, run)
    requires VmMap(first) == VmMap(vms) && (strategy == FirstFit ==> first == vms)
    ensures OfferRun(strategy, vms, run)
  {
    match run
    case Begin(_) =>
    case Offer(before, job, after) => SameStart(strategy, first, vms, before);
  }

  /** The history behind a plan of the packing planner. */
  datatype Planning = Planning(
    offering: Offering, sorted: seq<QueuedJob>, slots: seq<Entry>, selected: map<JobId, SlotId>)

  /** The plan is what its history says: the jobs offered in the configured order, each sent to the VM the strategy
      picks among the VMs as the earlier jobs left them, and the others packed. */
  ghost predicate PlannedBy(
    ordering: JobOrdering, strategy: Strategy, catalogue: seq<Slot>, jobs: seq<QueuedJob>, vms: seq<ActiveVm>,
    ch: StateChange, h: Planning)
    requires |catalogue| > 0 && DistinctVms(vms)
  {
    var sent := SentTo(strategy, h.offering);
    && OrderedBy(ordering, jobs, OfferedInOrder(h.offering)) && OfferRun(strategy, vms, h.offering)
    && DistinctJobs(h.sorted) && (forall q :: q in h.sorted <==> q in jobs && q.id !in sent)
    && PackedPlan(catalogue, h.sorted, h.slots, h.selected, ch.desired)
    && (forall j :: j in ch.jobToVm <==> j in sent || j in h.selected)
    && (forall j :: j in sent ==> ch.jobToVm[j] == Existing(sent[j]))
    && (forall j :: j in h.selected ==> ch.jobToVm[j] == New(h.selected[j]))
    && LeavesVms(h.offering.vms, sent.Values, ch)
  }

  /** The container an offering begins with. */
  ghost function FirstVms(run: Offering): seq<ActiveVm> {
    match run
    case Begin(vms) => vms
    case Offer(before, job, vms) => FirstVms(before)
  }

  /** The strategy leaves nothing open: the same container and the same jobs in the same order give the same offering. */
  lemma {:induction false} OfferingDetermined(strategy: Strategy, start: seq<ActiveVm>, run: Offering, run': Offering)
    requires DistinctVms(start) && OfferRun(strategy, start, run) && OfferRun(strategy, start, run')
    requires FirstVms(run) == FirstVms(run') && OfferedInOrder(run) == OfferedInOrder(run')
    ensures run == run'
  {
    if run.Offer? && run'.Offer? {
      var jobs, n := OfferedInOrder(run), |OfferedInOrder(run)| - 1;
      assert jobs[..n] == OfferedInOrder(run.before) && jobs[n] == run.job;
      assert jobs[..n] == OfferedInOrder(run'.before) && jobs[n] == run'.job;
      OfferingDetermined(strategy, start, run.before, run'.before);
    }
  }

  /** The packing planner is deterministic once its sorts have decided the order of equal elements: the same container,
      the same queue order and the same order of packing give the same plan. */
  lemma {:induction false} PlanDetermined(
    ordering: JobOrdering, strategy: Strategy, catalogue: seq<Slot>, jobs: seq<QueuedJob>, vms: seq<ActiveVm>,
    ch: StateChange, h: Planning, ch': StateChange, h': Planning)
    requires |catalogue| > 0 && DistinctVms(vms)
    requires PlannedBy(ordering, strategy, catalogue, jobs, vms, ch, h)
    requires PlannedBy(ordering, strategy, catalogue, jobs, vms, ch', h')
    requires FirstVms(h.offering) == FirstVms(h'.offering) && OfferedInOrder(h.offering) == OfferedInOrder(h'.offering)
    requires h.sorted == h'.sorted
    ensures ch.jobToVm == ch'.jobToVm && ch.desired == ch'.desired && ch.updatedIdle == ch'.updatedIdle
    ensures forall v :: v in ch.terminate <==> v in ch'.terminate
  {
    OfferingDetermined(strategy, vms, h.offering, h'.offering);
    SelectionDetermined(catalogue, h.sorted, h.slots, h'.slots, h.selected, h'.selected, ch.desired, ch'.desired);
    SameTargets(SentTo(strategy, h.offering), h.selected, ch.jobToVm, ch'.jobToVm);
    SameVms(h.offering.vms, SentTo(strategy, h.offering).Values, ch, ch');
  }

  lemma {:induction false} SameTargets(
    sent: map<JobId, VmId>, selected: map<JobId, SlotId>, m: map<JobId, Target>, m': map<JobId, Target>)
    requires forall j :: j in m <==> j in sent || j in selected
    requires forall j :: j in m' <==> j in sent || j in selected
    requires forall j :: j in sent ==> m[j] == m'[j] == Existing(sent[j])
    requires forall j :: j in selected ==> m[j] == m'[j] == New(selected[j])
    ensures m == m'
  {
    forall j ensures j in m.Keys <==> j in m'.Keys {
      assert j in m <==> j in m';
    }
    forall j | j in m ensures m[j] == m'[j] {
      assert j in sent || j in selected;
    }
  }

  lemma {:induction false} SameVms(last: seq<ActiveVm>, updated: set<VmId>, ch: StateChange, ch': StateChange)
    requires LeavesVms(last, updated, ch) && LeavesVms(last, updated, ch')
    ensures ch.updatedIdle == ch'.updatedIdle && forall v :: v in ch.terminate <==> v in ch'.terminate
  {
    assert ch.updatedIdle.Keys == ch'.updatedIdle.Keys;
    forall v | v in ch.updatedIdle.Keys ensures ch.updatedIdle[v] == ch'.updatedIdle[v] {}
  }

  /** The plan updates exactly the VMs that were sent jobs, to the idle capacity the offering leaves them. */
  ghost predicate LeavesVms(last: seq<ActiveVm>, updated: set<VmId>, ch: StateChange) {
    && DistinctVms(last) && ch.updatedIdle.Keys == updated
    && (forall v :: v in updated ==> v in VmMap(last) && ch.updatedIdle[v] == VmMap(last)[v].idle)
    && (forall v :: v in ch.terminate <==> v in VmMap(last) && VmMap(last)[v].total == VmMap(last)[v].idle)
  }

  /** A first-fit plan opens no slot for a job that some VM could still take after it. */
  ghost predicate Maximal(strategy: Strategy, req: map<JobId, Slot>, snap: map<VmId, ActiveVm>, ch: StateChange)
    requires ch.jobToVm.Keys <= req.Keys
  {
    strategy == FirstFit ==>
      forall j, v :: j in NewJobs(ch) && v in snap ==> !req[j].Fits(IdleAfter(ch, snap, v))
  }

  /** A job that requires nothing and one fully idle VM: the first-fit plan puts the job on the VM and gives it up. */
  lemma {:induction false} ReceiverGivenUp(catalogue: seq<Slot>, vm: ActiveVm, ch: StateChange)
    requires vm.idle == vm.total && PlanSound(catalogue, map[5 := ZERO], map[7 := vm], ch)
    requires Maximal(FirstFit, map[5 := ZERO], map[7 := vm], ch)
    ensures 5 in ch.jobToVm && ch.jobToVm[5] == Existing(7) && 7 in ch.terminate
  {
    var req: map<JobId, Slot>, snap: map<VmId, ActiveVm> := map[5 := ZERO], map[7 := vm];
    assert 5 in ch.jobToVm.Keys;
    assert 5 !in NewJobs(ch) by { assert 7 in snap && ZERO.Fits(IdleAfter(ch, snap, 7)); }
    assert ch.jobToVm[5].vm in snap;
    GivenUpExactly(catalogue, req, snap, ch, 7);
  }

  lemma {:induction false} PlannedMaximal(
    strategy: Strategy, jobs: seq<QueuedJob>, start: map<VmId, ActiveVm>, now: map<VmId, ActiveVm>, updated: set<VmId>,
    placed: map<JobId, VmId>, left: seq<QueuedJob>, ch: StateChange)
    requires DistinctJobs(jobs) && Offered(jobs, |jobs|, start, now, updated, placed, left)
    requires LeftOut(strategy, left, now) && AssignsAll(ReqMap(jobs), ch)
    requires ch.updatedIdle.Keys == updated && forall v :: v in updated ==> v in now && ch.updatedIdle[v] == now[v].idle
    requires forall j :: j in placed ==> j in ch.jobToVm && ch.jobToVm[j].Existing?
    ensures Maximal(strategy, ReqMap(jobs), start, ch)
  {
    LeftRequirements(jobs, placed, left);
    forall j, v | j in NewJobs(ch) && v in start && strategy == FirstFit
      ensures !ReqMap(jobs)[j].Fits(IdleAfter(ch, start, v))
    {
      assert j in ReqMap(left).Keys;
      IdleIsNow(ReqMap(jobs), start, now, updated, placed, ch, v);
    }
  }

  lemma {:induction false} IdleIsNow(
    req: map<JobId, Slot>, start: map<VmId, ActiveVm>, now: map<VmId, ActiveVm>, updated: set<VmId>,
    placed: map<JobId, VmId>, ch: StateChange, v: VmId)
    requires Spent(req, start, now, placed) && updated == placed.Values && ch.updatedIdle.Keys == updated
    requires (forall u :: u in updated ==> u in now && ch.updatedIdle[u] == now[u].idle) && v in start
    ensures v in now && IdleAfter(ch, start, v) == now[v].idle
  {
    if v !in updated {
      assert forall j :: j in placed ==> placed[j] in placed.Values;
      assert Preimage(placed, v) == {};
    }
  }

  lemma {:induction false} LeftIsRest(
    jobs: seq<QueuedJob>, ordered: seq<QueuedJob>, placed: map<JobId, VmId>, left: seq<QueuedJob>, sorted: seq<QueuedJob>)
    requires multiset(ordered) == multiset(jobs) && multiset(sorted) == multiset(left)
    requires SplitQueue(ordered, |ordered|, placed, left)
    ensures forall q :: q in sorted <==> q in jobs && q.id !in placed
  {
    assert ordered[..|ordered|] == ordered;
    forall q
      ensures q in sorted <==> q in left
      ensures q in ordered <==> q in jobs
    {
      assert q in sorted <==> q in multiset(sorted);
      assert q in left <==> q in multiset(left);
      assert q in ordered <==> q in multiset(ordered);
      assert q in jobs <==> q in multiset(jobs);
    }
  }

  /** The packing planner: the plan is sound, new sizes come from the catalogue and cannot be merged further. */
  method Assign(
    ordering: JobOrdering, strategy: Strategy, catalogue: seq<Slot>, jobs: seq<QueuedJob>, vms: seq<ActiveVm>)
    returns (ch: StateChange, ghost h: Planning)
    requires |catalogue| > 0 && DistinctJobs(jobs) && DistinctVms(vms)
    ensures PlanSound(catalogue, ReqMap(jobs), VmMap(vms), ch)
    ensures OversizedLose(catalogue, ReqMap(jobs), ch)
    ensures forall s :: s in ch.desired ==> ch.desired[s].total in catalogue
    ensures FullyMerged(catalogue, ch.desired)
    ensures |ch.desired| <= |jobs|
    ensures Maximal(strategy, ReqMap(jobs), VmMap(vms), ch)
    ensures PlannedBy(ordering, strategy, catalogue, jobs, vms, ch, h)
  {
    var ordered := OrderJobs(ordering, jobs);
    PermutedJobs(jobs, ordered);
    var placed, left, updatedIdle, terminate;
    ghost var now, updated, offering;
    placed, left, updatedIdle, terminate, now, updated, offering := PlaceOnVms(strategy, ordered, vms);
    LeftRequirements(ordered, placed, left);
    var selected, desired;
    ghost var sorted, slots;
    selected, desired, sorted, slots := Select(catalogue, left);
    var jobToVm := MergeAssignments(placed, selected);
    ch := StateChange(jobToVm, desired, updatedIdle, terminate);
    PlannedSound(catalogue, ordered, VmMap(vms), now, updated, placed, left, selected, desired, ch);
    PlannedMaximal(strategy, ordered, VmMap(vms), now, updated, placed, left, ch);
    LeftIsRest(jobs, ordered, placed, left, sorted);
    PermutedJobs(left, sorted);
    h := Planning(offering, sorted, slots, selected);
  }

  /** One new VM per job, numbered in queue order. */
  ghost predicate OnePerJob(jobs: seq<QueuedJob>, n: nat, ch: StateChange) {
    && n <= |jobs| && ch.updatedIdle == map[]
    && (forall s :: s in ch.desired <==> 0 <= s < n)
    && (forall s :: s in ch.desired ==> ch.desired[s] == DesiredSlot(jobs[s].req, ZERO))
    && (forall s :: 0 <= s < n ==> jobs[s].id in ch.jobToVm && ch.jobToVm[jobs[s].id] == New(s))
    && (forall j :: j in ch.jobToVm ==>
          ch.jobToVm[j].New? && 0 <= ch.jobToVm[j].slot < n && jobs[ch.jobToVm[j].slot].id == j)
  }

  lemma {:induction false} OnePerJobKeys(jobs: seq<QueuedJob>, ch: StateChange)
    requires DistinctJobs(jobs) && OnePerJob(jobs, |jobs|, ch)
    ensures AssignsAll(ReqMap(jobs), ch)
  {
    var req := ReqMap(jobs);
    forall j | j in req.Keys
      ensures j in ch.jobToVm.Keys
    {
      var s :| 0 <= s < |jobs| && jobs[s].id == j;
    }
    forall j | j in ch.jobToVm.Keys
      ensures j in req.Keys && ch.jobToVm[j].New? && ch.jobToVm[j].slot in ch.desired
    {
      assert jobs[ch.jobToVm[j].slot] in jobs;
    }
  }

  lemma {:induction false} OnePerJobLoad(jobs: seq<QueuedJob>, ch: StateChange, s: nat)
    requires DistinctJobs(jobs) && OnePerJob(jobs, |jobs|, ch) && s < |jobs| && ch.jobToVm.Keys <= ReqMap(jobs).Keys
    ensures Preimage(ch.jobToVm, New(s)) == {jobs[s].id}
    ensures ch.desired[s].total == Load(ch, ReqMap(jobs), New(s)) && ch.desired[s].idle == ZERO
  {
    assert jobs[s] in jobs;
    forall j | j in Preimage(ch.jobToVm, New(s))
      ensures j == jobs[s].id
    {
    }
    assert Preimage(ch.jobToVm, New(s)) == {jobs[s].id};
    TotalSingle(jobs[s].id, ReqMap(jobs));
  }

  lemma {:induction false} ExactlyFilled(catalogue: seq<Slot>, req: map<JobId, Slot>, ch: StateChange)
    requires ch.jobToVm.Keys <= req.Keys
    requires forall s :: s in ch.desired ==>
      && Preimage(ch.jobToVm, New(s)) != {}
      && ch.desired[s].total == Load(ch, req, New(s)) && ch.desired[s].idle == ZERO
    ensures FillsSlots(catalogue, req, ch)
  {
  }

  lemma {:induction false} OnePerJobSound(
    catalogue: seq<Slot>, jobs: seq<QueuedJob>, vms: seq<ActiveVm>, ch: StateChange)
    requires DistinctJobs(jobs) && DistinctVms(vms) && OnePerJob(jobs, |jobs|, ch) && DropsIdle(VmMap(vms), ch)
    ensures PlanSound(catalogue, ReqMap(jobs), VmMap(vms), ch)
  {
    OnePerJobKeys(jobs, ch);
    var req := ReqMap(jobs);
    forall s | s in ch.desired
      ensures Preimage(ch.jobToVm, New(s)) != {}
      ensures ch.desired[s].total == Load(ch, req, New(s)) && ch.desired[s].idle == ZERO
    {
      OnePerJobLoad(jobs, ch, s);
    }
    ExactlyFilled(catalogue, req, ch);
  }

  /** One VM per job loses nothing, whatever the jobs' sizes. */
  lemma {:induction false} OnePerJobConserves(jobs: seq<QueuedJob>, vms: seq<ActiveVm>, ch: StateChange)
    requires DistinctJobs(jobs) && DistinctVms(vms) && OnePerJob(jobs, |jobs|, ch)
    requires PlanSound([], ReqMap(jobs), VmMap(vms), ch)
    ensures Conserved(ReqMap(jobs), VmMap(vms), ch)
  {
    forall s | s in ch.desired
      ensures ch.desired[s].total.IsSum(ch.desired[s].idle, Load(ch, ReqMap(jobs), New(s)))
    {
      OnePerJobLoad(jobs, ch, s);
    }
    ConservedExactly([], ReqMap(jobs), VmMap(vms), ch);
  }

  method NumberJobs(jobs: seq<QueuedJob>) returns (ch: StateChange)
    requires DistinctJobs(jobs)
    ensures OnePerJob(jobs, |jobs|, ch) && ch.terminate == []
  {
    ch := StateChange(map[], map[], map[], []);
    for i := 0 to |jobs|
      invariant OnePerJob(jobs, i, ch) && ch.terminate == []
    {
      ch := ch.(jobToVm := ch.jobToVm[jobs[i].id := New(i)],
                desired := ch.desired[i := DesiredSlot(jobs[i].req, ZERO)]);
    }
  }

  method FullyIdle(vms: seq<ActiveVm>) returns (r: seq<VmId>)
    ensures forall v :: v in r <==> exists k :: 0 <= k < |vms| && vms[k].id == v && vms[k].total == vms[k].idle
  {
    r := [];
    for i := 0 to |vms|
      invariant forall v :: v in r <==> exists k :: 0 <= k < i && vms[k].id == v && vms[k].total == vms[k].idle
    {
      if vms[i].total == vms[i].idle {
        r := r + [vms[i].id];
      }
    }
  }

  /** The baseline planner, sound for jobs of any size and whatever the catalogue. */
  method AssignSimple(jobs: seq<QueuedJob>, vms: seq<ActiveVm>) returns (ch: StateChange)
    requires DistinctJobs(jobs) && DistinctVms(vms)
    ensures forall catalogue :: PlanSound(catalogue, ReqMap(jobs), VmMap(vms), ch)
    ensures OnePerJob(jobs, |jobs|, ch) && Conserved(ReqMap(jobs), VmMap(vms), ch)
  {
    ch := NumberJobs(jobs);
    var terminate := FullyIdle(vms);
    ch := ch.(terminate := terminate);
    IdleDropped(vms, ch);
    forall catalogue ensures PlanSound(catalogue, ReqMap(jobs), VmMap(vms), ch) {
      OnePerJobSound(catalogue, jobs, vms, ch);
    }
    OnePerJobConserves(jobs, vms, ch);
  }

  lemma {:induction false} IdleDropped(vms: seq<ActiveVm>, ch: StateChange)
    requires DistinctVms(vms) && ch.updatedIdle == map[]
    requires forall v :: v in ch.terminate <==> exists k :: 0 <= k < |vms| && vms[k].id == v && vms[k].total == vms[k].idle
    ensures DropsIdle(VmMap(vms), ch)
  {
    var snap := VmMap(vms);
    forall k | 0 <= k < |vms| ensures vms[k].id in snap && snap[vms[k].id] == vms[k] { assert vms[k] in vms; }
    forall v | v in snap && snap[v].idle == snap[v].total
      ensures v in ch.terminate
    {
      var k :| 0 <= k < |vms| && vms[k] == snap[v];
    }
  }
}
