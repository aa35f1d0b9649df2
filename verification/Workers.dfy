/** The components that drive the store when nobody interleaves: the allocator's two loops and one scheduling round. */
module Workers {
  import opened Capacity
  import opened Plan
  import opened Ordering
  import opened Allocation
  import opened Store
  import opened TaskStorage
  import opened Assigner

  /** The fetched VMs that are given up. */
  function GivenUp(vms: map<VmId, Vm>, fetched: set<VmId>, cloud: set<VmId>, vmLimit: nat): set<VmId> {
    set v | v in vms && v in fetched && v !in cloud && vms[v].restarts >= vmLimit
  }

  /** The VM table while the allocator works through what it fetched. */
  ghost predicate InAllocation(
    before: map<VmId, Vm>, fetched: set<VmId>, todo: set<VmId>, cloud: set<VmId>, now: map<VmId, Vm>)
  {
    && now.Keys == before.Keys
    && (forall v :: v in before ==>
          now[v] == if v !in fetched then before[v]
                    else if v in todo || v !in cloud then before[v].(status := Allocating)
                    else before[v].(status := Allocated))
  }

  /** What is left in allocation among the refused VMs is what is given up. */
  lemma {:induction false} RefusedHits(
    before: map<VmId, Vm>, fetched: set<VmId>, failed: set<VmId>, cloud: set<VmId>, now: map<VmId, Vm>, vmLimit: nat)
    requires InAllocation(before, fetched, {}, cloud, now) && failed == fetched - cloud
    ensures InStatus(now, failed, Allocating, vmLimit) == GivenUp(before, fetched, cloud, vmLimit)
  {
    forall v
      ensures v in InStatus(now, failed, Allocating, vmLimit) <==> v in GivenUp(before, fetched, cloud, vmLimit)
    {
      assert v in now.Keys <==> v in before.Keys;
    }
  }

  /** Scheduled or running jobs on the given VMs are all requeued or failed; no other row changes. */
  lemma {:induction false} RestartClears(jobs: map<JobId, Job>, vms: set<VmId>, initial: JobStatus, limit: nat, j: JobId)
    requires j in jobs && initial in {Scheduled, Running}
    ensures var after := RestartedJobs(jobs, vms, initial, limit);
            && j in after && !(after[j].status == initial && after[j].vm.Some? && after[j].vm.value in vms)
            && (after[j] == jobs[j] || (after[j].status == Queued && after[j].restarts == jobs[j].restarts + 1 <= limit)
                || (after[j].status == InternalError && after[j].restarts == jobs[j].restarts >= limit))
  {
  }

  /** One round of the allocator. `cloud` are the VMs the cloud is able to provide. */
  method Allocate(storage: PgTaskStorage, maxCount: nat, cloud: set<VmId>, vmLimit: nat, jobLimit: nat)
    returns (fetched: set<VmId>)
    modifies storage
    ensures |fetched| <= maxCount
    ensures forall v :: v in fetched ==> v in old(storage.vms) && old(storage.vms)[v].status == PendingAllocation
    ensures storage.vms.Keys == old(storage.vms).Keys && storage.plans == old(storage.plans)
    ensures forall v :: v in storage.vms ==>
              storage.vms[v] == if v in fetched then AllocationOutcome(old(storage.vms)[v], v in cloud, vmLimit)
                                else old(storage.vms)[v]
    ensures storage.jobs ==
            RestartedJobs(old(storage.jobs), GivenUp(old(storage.vms), fetched, cloud, vmLimit), Scheduled, jobLimit)
    ensures forall j, v :: j in storage.jobs && v in fetched && storage.vms[v].status == Terminated ==>
              !(storage.jobs[j].status == Scheduled && storage.jobs[j].vm == Some(v))
  {
    ghost var vms, jobs := storage.vms, storage.jobs;
    fetched := storage.GetVmsToAllocate(maxCount);
    var failed := AllocateEach(storage, fetched, cloud, vms);
    ghost var now := storage.vms;
    RefusedHits(vms, fetched, failed, cloud, now, vmLimit);
    if failed != {} {
      storage.RollbackUnallocatedVms(failed, vmLimit, jobLimit);
    } else {
      NothingHit(now, jobs, Terminated, Scheduled, jobLimit);
    }
    GivenUpCleared(vms, jobs, fetched, cloud, vmLimit, jobLimit, storage.vms);
  }

  /** No job stays scheduled on a fetched VM that ends terminated. */
  lemma {:induction false} GivenUpCleared(
    vms: map<VmId, Vm>, jobs: map<JobId, Job>, fetched: set<VmId>, cloud: set<VmId>, vmLimit: nat, jobLimit: nat,
    after: map<VmId, Vm>)
    requires forall v :: v in fetched ==>
               v in vms && v in after && after[v] == AllocationOutcome(vms[v], v in cloud, vmLimit)
    ensures var restarted := RestartedJobs(jobs, GivenUp(vms, fetched, cloud, vmLimit), Scheduled, jobLimit);
            forall j, v :: j in restarted && v in fetched && after[v].status == Terminated ==>
              !(restarted[j].status == Scheduled && restarted[j].vm == Some(v))
  {
    var hit := GivenUp(vms, fetched, cloud, vmLimit);
    assert forall v :: v in fetched && after[v].status == Terminated ==> v in hit;
    forall j | j in jobs { RestartClears(jobs, hit, Scheduled, jobLimit, j); }
  }

  /** The loop over the fetched VMs: allocated ones are recorded, the others collected. */
  method AllocateEach(storage: PgTaskStorage, fetched: set<VmId>, cloud: set<VmId>, ghost before: map<VmId, Vm>)
    returns (failed: set<VmId>)
    requires InAllocation(before, fetched, fetched, cloud, storage.vms)
    modifies storage`vms
    ensures failed == fetched - cloud && InAllocation(before, fetched, {}, cloud, storage.vms)
  {
    var todo := fetched;
    failed := {};
    while todo != {}
      invariant todo <= fetched && failed == fetched - todo - cloud
      invariant InAllocation(before, fetched, todo, cloud, storage.vms)
      decreases todo
    {
      var v := TakeOne(todo);
      if v in cloud {
        storage.SaveVmAllocationResult(v);
      } else {
        failed := failed + {v};
      }
      todo := todo - {v};
    }
    assert todo == {};
  }

  /** One round of termination: every fetched VM ends terminated or waits again. */
  method Terminate(storage: PgTaskStorage, maxCount: nat, cloud: set<VmId>) returns (fetched: set<VmId>)
    modifies storage
    ensures |fetched| <= maxCount
    ensures forall v :: v in fetched ==> v in old(storage.vms) && old(storage.vms)[v].status == PendingTermination
    ensures storage.vms.Keys == old(storage.vms).Keys
    ensures forall v :: v in storage.vms ==>
              storage.vms[v] == if v in fetched && v in cloud then old(storage.vms)[v].(status := Terminated)
                                else old(storage.vms)[v]
    ensures storage.jobs == old(storage.jobs) && storage.plans == old(storage.plans)
  {
    ghost var vms := storage.vms;
    fetched := storage.GetVmsToTerminate(maxCount);
    var failed := TerminateEach(storage, fetched, cloud, vms);
    ghost var now := storage.vms;
    if failed != {} {
      storage.SetVmStatus(failed, PendingTermination);
    }
    forall v | v in vms { TerminationOutcome(vms, fetched, failed, cloud, now, v); }
  }

  /** The fetched VMs not yet asked for, and those the cloud kept, are in termination; the others are gone. */
  ghost predicate InTermination(
    vms: map<VmId, Vm>, fetched: set<VmId>, todo: set<VmId>, cloud: set<VmId>, now: map<VmId, Vm>)
  {
    && now.Keys == vms.Keys
    && forall v :: v in vms ==>
         now[v] == if v !in fetched then vms[v]
                   else if v in todo || v !in cloud then vms[v].(status := Terminating)
                   else vms[v].(status := Terminated)
  }

  lemma {:induction false} TerminationOutcome(
    vms: map<VmId, Vm>, fetched: set<VmId>, failed: set<VmId>, cloud: set<VmId>, now: map<VmId, Vm>, v: VmId)
    requires InTermination(vms, fetched, {}, cloud, now) && failed == fetched - cloud && v in vms
    requires forall w :: w in fetched ==> w in vms && vms[w].status == PendingTermination
    ensures WithStatus(now, failed, PendingTermination)[v] ==
            if v in fetched && v in cloud then vms[v].(status := Terminated) else vms[v]
  {
  }

  /** The loop over the fetched VMs: terminated ones are recorded, the others collected. */
  method TerminateEach(storage: PgTaskStorage, fetched: set<VmId>, cloud: set<VmId>, ghost before: map<VmId, Vm>)
    returns (failed: set<VmId>)
    requires InTermination(before, fetched, fetched, cloud, storage.vms)
    modifies storage`vms
    ensures failed == fetched - cloud && InTermination(before, fetched, {}, cloud, storage.vms)
  {
    var todo := fetched;
    failed := {};
    while todo != {}
      invariant todo <= fetched && failed == fetched - todo - cloud
      invariant InTermination(before, fetched, todo, cloud, storage.vms)
      decreases todo
    {
      var v := TakeOne(todo);
      if v in cloud {
        storage.SetVmStatus({v}, Terminated);
      } else {
        failed := failed + {v};
      }
      todo := todo - {v};
    }
    assert todo == {};
  }

  datatype AssignerType = Simple | Complex(ordering: JobOrdering, strategy: Strategy)

  /** The assigner the configuration names. */
  method RunAssigner(kind: AssignerType, catalogue: seq<Slot>, jobs: seq<QueuedJob>, vms: seq<ActiveVm>)
    returns (ch: StateChange)
    requires |catalogue| > 0 && DistinctJobs(jobs) && DistinctVms(vms)
    ensures PlanSound(catalogue, ReqMap(jobs), VmMap(vms), ch)
  {
    match kind
    case Simple => ch := AssignSimple(jobs, vms);
    case Complex(ordering, strategy) =>
      ghost var h;
      ch, h := Assign(ordering, strategy, catalogue, jobs, vms);
  }

  /** All plans were last updated before a time. */
  ghost predicate UpdatedBefore(plans: map<PlanId, PlanRow>, now: Time) {
    forall p :: p in plans ==> plans[p].updated < now
  }

  /** A plan row just inserted is the relevant one exactly when the clock moved since the last update of every other
      plan; waiting out a positive interval is enough. */
  lemma {:induction false} StartedIsRelevant(db: Db, interval: nat, plan: PlanId, now: Time)
    requires MayStart(db, interval, now) && plan !in db.plans
    ensures Relevant(db.(plans := db.plans[plan := PlanRow(now, now)]), plan) <==> UpdatedBefore(db.plans, now)
    ensures interval > 0 ==> UpdatedBefore(db.plans, now)
  {
    var plans := db.plans[plan := PlanRow(now, now)];
    forall p | p in db.plans ensures p != plan && p in plans && plans[p] == db.plans[p] {}
  }

  lemma {:induction false} FreshPlanNoConflicts(catalogue: seq<Slot>, db: Db, ch: StateChange)
    requires PlanSound(catalogue, QueuedJobs(db), ActiveVms(db), ch)
    ensures NoConflicts(db, ch) && TargetsExist(ch)
  {
    forall j | j in ch.jobToVm
      ensures j in QueuedJobs(db)
    {
      assert j in ch.jobToVm.Keys;
    }
    forall j | j in ch.jobToVm && ch.jobToVm[j].New?
      ensures ch.jobToVm[j].slot in ch.desired
    {
      match ch.jobToVm[j]
      case New(t) =>
    }
  }

  /** A committed plan for the whole queue leaves nothing queued. */
  lemma {:induction false} NothingQueued(
    catalogue: seq<Slot>, db: Db, ch: StateChange, rows: NewRows, plan: PlanId, now: Time)
    requires PlanSound(catalogue, QueuedJobs(db), ActiveVms(db), ch)
    requires FreshRows(db, ch, rows) && TargetsExist(ch) && plan in db.plans
    ensures forall j :: j in Committed(db, ch, rows, plan, now).jobs ==>
              Committed(db, ch, rows, plan, now).jobs[j].status != Queued
  {
    forall j | j in db.jobs && db.jobs[j].status == Queued
      ensures j in ch.jobToVm
    {
      assert j in QueuedJobs(db).Keys;
    }
  }

  /** The outcome of a round that started from `db` with the given plan row in place. */
  ghost predicate RoundCommitted(
    catalogue: seq<Slot>, db: Db, ch: StateChange, rows: NewRows, plan: PlanId, now: Time, after: Db)
  {
    && plan in db.plans
    && PlanSound(catalogue, QueuedJobs(db), ActiveVms(db), ch)
    && FreshRows(db, ch, rows) && TargetsExist(ch)
    && after == Committed(db, ch, rows, plan, now)
  }

  /** Reading, planning and committing. */
  method PlanAndCommit(storage: PgTaskStorage, kind: AssignerType, catalogue: seq<Slot>, plan: PlanId, now: Time)
    returns (done: bool, ch: StateChange, rows: NewRows)
    requires storage.Valid() && |catalogue| > 0
    modifies storage
    ensures storage.Valid()
    ensures done <==> old(Relevant(storage.Contents(), plan))
    ensures done ==> RoundCommitted(catalogue, old(storage.Contents()), ch, rows, plan, now, storage.Contents())
    ensures !done ==> storage.Contents() == old(storage.Contents())
  {
    rows := NewRows(map[], map[]);
    var jobs := storage.GetQueuedJobs();
    var vms := storage.GetActiveVms();
    ch := RunAssigner(kind, catalogue, jobs, vms);
    FreshPlanNoConflicts(catalogue, storage.Contents(), ch);
    var commit := storage.CommitPlanChange(ch, plan, now);
    done := commit.Success?;
    if done {
      rows := commit.value;
    }
  }

  /** One scheduling round, start to commit. It commits exactly when it may start and the clock has moved since the
      last update of any plan, as it has after a positive interval; then no job is left in the queue. */
  method Schedule(
    storage: PgTaskStorage, kind: AssignerType, catalogue: seq<Slot>, interval: nat, lockFree: bool, now: Time, later: Time)
    returns (done: bool, plan: PlanId, ch: StateChange, rows: NewRows)
    requires storage.Valid() && |catalogue| > 0
    modifies storage
    ensures storage.Valid()
    ensures done <==> lockFree && old(MayStart(storage.Contents(), interval, now)) && old(UpdatedBefore(storage.plans, now))
    ensures lockFree && old(MayStart(storage.Contents(), interval, now)) && interval > 0 ==> done
    ensures done ==>
              RoundCommitted(catalogue, old(storage.Contents()).(plans := old(storage.plans)[plan := PlanRow(now, now)]),
                         ch, rows, plan, later, storage.Contents())
    ensures done ==> forall j :: j in storage.jobs ==> storage.jobs[j].status != Queued
    ensures !done ==> storage.jobs == old(storage.jobs) && storage.vms == old(storage.vms)
  {
    done, plan, ch, rows := false, 0, StateChange(map[], map[], map[], []), NewRows(map[], map[]);
    var start := storage.StartScheduling(interval, now, lockFree);
    if start.Failure? {
      return;
    }
    plan := start.value;
    ghost var started := storage.Contents();
    StartedIsRelevant(old(storage.Contents()), interval, plan, now);
    done, ch, rows := PlanAndCommit(storage, kind, catalogue, plan, later);
    if done {
      NothingQueued(catalogue, started, ch, rows, plan, later);
    }
  }

  /** Without an interval, a plan updated at the very time of the start: the round may start, and its plan is never the
      relevant one, so the round does not commit. */
  lemma {:induction false} StartedNotRelevant(db: Db, earlier: PlanId, plan: PlanId, now: Time)
    requires now >= 0 && db.plans == map[earlier := PlanRow(now, now)] && plan != earlier
    ensures MayStart(db, 0, now) && !Relevant(db.(plans := db.plans[plan := PlanRow(now, now)]), plan)
  {
    StartedIsRelevant(db, 0, plan, now);
    assert earlier in db.plans && db.plans[earlier].updated == now;
  }
}
