/** Runs that show where safety fails: a job reported complete twice, and a task larger than every size. */
module Witnesses {
  import opened Capacity
  import opened Plan
  import opened SlotSelection
  import opened Store
  import opened Protocol
  import opened Budgets
  import opened Overcommit
  import opened PackedRuns

  /** Some run from the empty store ends in this state. */
  ghost predicate Reachable(c: Config, s: System) {
    exists states, steps :: IsRun(c, states, steps) && states[|steps|] == s
  }

  lemma {:induction false} ReachableInit(c: Config, s: System)
    requires Init(s)
    ensures Reachable(c, s)
  {
    var states, steps: seq<Step> := [s], [];
    assert IsRun(c, states, steps) && states[|steps|] == s;
  }

  lemma {:induction false} RunGrows(c: Config, states: seq<System>, steps: seq<Step>, step: Step, after: System)
    requires IsRun(c, states, steps) && Enabled(c, states[|steps|], step) && after == Apply(c, states[|steps|], step)
    ensures IsRun(c, states + [after], steps + [step])
  {
    var longer, more := states + [after], steps + [step];
    forall i | 0 <= i < |more|
      ensures Enabled(c, longer[i], more[i]) && longer[i + 1] == Apply(c, longer[i], more[i])
    {
      if i < |steps| {
        assert longer[i] == states[i] && longer[i + 1] == states[i + 1] && more[i] == steps[i];
      }
    }
  }

  lemma {:induction false} ReachableStep(c: Config, s: System, step: Step)
    requires Reachable(c, s) && Enabled(c, s, step)
    ensures Reachable(c, Apply(c, s, step))
  {
    var states, steps :| IsRun(c, states, steps) && states[|steps|] == s;
    var after := Apply(c, s, step);
    RunGrows(c, states, steps, step, after);
    assert (states + [after])[|steps + [step]|] == after;
  }

  lemma {:induction false} ReachableSane(c: Config, s: System)
    requires Reachable(c, s)
    ensures Sane(c, s)
  {
    var states, steps :| IsRun(c, states, steps) && states[|steps|] == s;
    SaneAt(c, states, steps, |steps|);
  }

  function QueuedRows(req: Slot, ids: set<JobId>): map<JobId, Job> {
    map j | j in ids :: Job(0, req, Queued, None, 0)
  }

  function Requirements(req: Slot, ids: set<JobId>): map<JobId, Slot> {
    map j | j in ids :: req
  }

  /** One task came in and plan 1 is at some phase. */
  function Planning(c: Config, req: Slot, ids: set<JobId>, phase: Phase): System {
    System(Db(QueuedRows(req, ids), map[], map[1 := PlanRow(c.interval, c.interval)]), c.interval, map[1 := phase], {},
           map j | j in ids :: 0, map[])
  }

  lemma {:induction false} TaskComesIn(c: Config, req: Slot, ids: set<JobId>)
    requires ids != {}
    ensures Reachable(c, Planning(c, req, ids, Started(c.interval)))
  {
    var empty := System(Db(map[], map[], map[]), c.interval, map[], {}, map[], map[]);
    ReachableInit(c, empty);
    var add := AddTask(0, req, ids);
    ReachableStep(c, empty, add);
    var added := Apply(c, empty, add);
    assert added.db.jobs == QueuedRows(req, ids) && added.commits == map j | j in ids :: 0;
    ReachableStep(c, added, StartScheduling(1, c.interval));
    assert Apply(c, added, StartScheduling(1, c.interval)) == Planning(c, req, ids, Started(c.interval));
  }

  lemma {:induction false} TaskIsRead(c: Config, req: Slot, ids: set<JobId>)
    requires ids != {}
    ensures Reachable(c, Planning(c, req, ids, SawVms(c.interval, Requirements(req, ids), map[])))
  {
    TaskComesIn(c, req, ids);
    var start := Planning(c, req, ids, Started(c.interval));
    var jobs := Planning(c, req, ids, SawJobs(c.interval, Requirements(req, ids)));
    var vms := Planning(c, req, ids, SawVms(c.interval, Requirements(req, ids), map[]));
    ReachableStep(c, start, ReadJobs(1));
    assert QueuedJobs(start.db) == Requirements(req, ids);
    assert Apply(c, start, ReadJobs(1)) == jobs;
    ReachableStep(c, jobs, ReadVms(1));
    assert ActiveVms(jobs.db) == map[];
    assert Apply(c, jobs, ReadVms(1)) == vms;
  }

  /** All jobs go into one new slot, which becomes VM 7. */
  function OneSlot(ids: set<JobId>, slot: DesiredSlot): StateChange {
    StateChange(map j | j in ids :: New(0), map[0 := slot], map[], [])
  }

  const Row7 := NewRows(map[0 := 7], map[7 := 0])

  /** The state after the plan is committed. */
  function OnVm7(c: Config, req: Slot, ids: set<JobId>, slot: DesiredSlot): System {
    System(Db(map j | j in ids :: Job(0, req, Scheduled, Some(7), 0), map[7 := NewVm(slot)],
              map[1 := PlanRow(c.interval, c.interval)]),
           c.interval, map[], {}, map j | j in ids :: 1, map[7 := 0])
  }

  lemma {:induction false} OneSlotLoad(req: Slot, ids: set<JobId>, slot: DesiredSlot)
    ensures Preimage(OneSlot(ids, slot).jobToVm, New(0)) == ids
    ensures Load(OneSlot(ids, slot), Requirements(req, ids), New(0)) == Total(ids, Requirements(req, ids))
  {
    assert Preimage(OneSlot(ids, slot).jobToVm, New(0)) == ids;
  }

  lemma {:induction false} OneSlotSound(catalogue: seq<Slot>, req: Slot, ids: set<JobId>, slot: DesiredSlot)
    requires ids != {} && slot.idle.Fits(slot.total)
    requires slot.total.Within(slot.idle, Total(ids, Requirements(req, ids)))
    requires slot.total.IsSum(slot.idle, Total(ids, Requirements(req, ids))) || (|catalogue| > 0 && !Placeable(catalogue, req))
    ensures PlanSound(catalogue, Requirements(req, ids), map[], OneSlot(ids, slot))
  {
    var ch := OneSlot(ids, slot);
    OneSlotLoad(req, ids, slot);
    assert AssignsAll(Requirements(req, ids), ch);
    var j := Pick(ids);
    assert Requirements(req, ids)[j] == req;
  }

  lemma {:induction false} CommitPossible(c: Config, req: Slot, ids: set<JobId>, slot: DesiredSlot, s: System)
    requires PlanSound(c.catalogue, Requirements(req, ids), map[], OneSlot(ids, slot))
    requires s == Planning(c, req, ids, SawVms(c.interval, Requirements(req, ids), map[]))
    ensures Enabled(c, s, CommitPlan(1, OneSlot(ids, slot), Row7, c.interval))
  {
    assert Relevant(s.db, 1);
    assert NoConflicts(s.db, OneSlot(ids, slot));
    assert FreshRows(s.db, OneSlot(ids, slot), Row7);
  }

  lemma {:induction false} CommitCounts(ids: set<JobId>, slot: DesiredSlot, commits: map<JobId, nat>)
    requires commits == map j | j in ids :: 0
    ensures (map j | j in commits :: if j in OneSlot(ids, slot).jobToVm then commits[j] + 1 else commits[j]) ==
            map j | j in ids :: 1
  {
  }

  lemma {:induction false} PlanIsCommitted(c: Config, req: Slot, ids: set<JobId>, slot: DesiredSlot)
    requires ids != {} && PlanSound(c.catalogue, Requirements(req, ids), map[], OneSlot(ids, slot))
    ensures Reachable(c, OnVm7(c, req, ids, slot))
  {
    var s := Planning(c, req, ids, SawVms(c.interval, Requirements(req, ids), map[]));
    var step := CommitPlan(1, OneSlot(ids, slot), Row7, c.interval);
    assert Reachable(c, s) by { TaskIsRead(c, req, ids); }
    CommitPossible(c, req, ids, slot, s);
    assert Reachable(c, Apply(c, s, step)) by { ReachableStep(c, s, step); }
    CommitApplied(c, req, ids, slot, s);
  }

  lemma {:induction false} CommitApplied(c: Config, req: Slot, ids: set<JobId>, slot: DesiredSlot, s: System)
    requires s == Planning(c, req, ids, SawVms(c.interval, Requirements(req, ids), map[]))
    requires Enabled(c, s, CommitPlan(1, OneSlot(ids, slot), Row7, c.interval))
    ensures Apply(c, s, CommitPlan(1, OneSlot(ids, slot), Row7, c.interval)) == OnVm7(c, req, ids, slot)
  {
    var after, goal := Apply(c, s, CommitPlan(1, OneSlot(ids, slot), Row7, c.interval)), OnVm7(c, req, ids, slot);
    CommittedRows(req, ids, slot);
    CommitCounts(ids, slot, s.commits);
    assert after.db.jobs == goal.db.jobs && after.db.vms == goal.db.vms && after.db.plans == goal.db.plans;
    assert after.attempts == map[7 := 0] && after.runs == map[];
  }

  lemma {:induction false} CommittedRows(req: Slot, ids: set<JobId>, slot: DesiredSlot)
    ensures CommittedJobs(QueuedRows(req, ids), OneSlot(ids, slot), Row7) ==
            map j | j in ids :: Job(0, req, Scheduled, Some(7), 0)
    ensures CommittedVms(map[], OneSlot(ids, slot), Row7) == map[7 := NewVm(slot)]
  {
    var jobs := CommittedJobs(QueuedRows(req, ids), OneSlot(ids, slot), Row7);
    assert RowOf(New(0), Row7) == 7;
    forall j | j in ids ensures j in jobs && jobs[j] == Job(0, req, Scheduled, Some(7), 0) {
      assert j in OneSlot(ids, slot).jobToVm;
    }
  }

  lemma {:induction false} OnlySize(catalogue: seq<Slot>, size: Slot, req: Slot)
    requires catalogue == [size]
    ensures MinFitSlot(catalogue, req) == size && (Placeable(catalogue, req) <==> req.Fits(size))
  {
    PlaceableExactly(catalogue, req);
  }

  lemma {:induction false} TooLarge(catalogue: seq<Slot>, size: Slot, req: Slot, j: JobId)
    requires catalogue == [size] && size.Fits(req) && size != req
    ensures PackAll(catalogue, [QueuedJob(j, req)]) == [Open(DesiredSlot(size, ZERO), multiset{j})]
    ensures PlanSound(catalogue, Requirements(req, {j}), map[], OneSlot({j}, DesiredSlot(size, ZERO)))
    ensures PackingPlan(catalogue, Requirements(req, {j}), OneSlot({j}, DesiredSlot(size, ZERO)))
  {
    assert size.Minus(req) == ZERO;
    assert PackAll(catalogue, [QueuedJob(j, req)]) == [Open(DesiredSlot(size, ZERO), multiset{j})] by {
      FirstOpens(catalogue, QueuedJob(j, req), size, ZERO);
    }
    assert !Placeable(catalogue, req) by { OnlySize(catalogue, size, req); }
    TooLargePlan(catalogue, DesiredSlot(size, ZERO), req, j);
  }

  lemma {:induction false} TooLargePlan(catalogue: seq<Slot>, slot: DesiredSlot, req: Slot, j: JobId)
    requires slot.total in catalogue && slot.idle == ZERO && slot.total.Fits(req) && slot.total != req
    requires !Placeable(catalogue, req)
    ensures PlanSound(catalogue, Requirements(req, {j}), map[], OneSlot({j}, slot))
    ensures PackingPlan(catalogue, Requirements(req, {j}), OneSlot({j}, slot))
  {
    TotalSingle(j, Requirements(req, {j}));
    assert PlanSound(catalogue, Requirements(req, {j}), map[], OneSlot({j}, slot)) by {
      OneSlotSound(catalogue, req, {j}, slot);
    }
    LosingSlot(catalogue, req, {j}, slot);
  }

  /** A single slot that loses capacity is a plan of the packing planner as far as its size is offered. */
  lemma {:induction false} LosingSlot(catalogue: seq<Slot>, req: Slot, ids: set<JobId>, slot: DesiredSlot)
    requires slot.total in catalogue && !slot.total.IsSum(slot.idle, Total(ids, Requirements(req, ids)))
    ensures PackingPlan(catalogue, Requirements(req, ids), OneSlot(ids, slot))
  {
    OneSlotLoad(req, ids, slot);
  }

  /** A task of (2, 2) and the size (1, 1): the packing planner's plan commits and the new VM is overcommitted. */
  lemma {:induction false} OversizedTask(c: Config)
    requires c.catalogue == [Slot(1, 1)]
    ensures PackingPlan(c.catalogue, Requirements(Slot(2, 2), {1}), OneSlot({1}, DesiredSlot(Slot(1, 1), ZERO)))
    ensures PackAll(c.catalogue, [QueuedJob(1, Slot(2, 2))]) == [Open(DesiredSlot(Slot(1, 1), ZERO), multiset{1})]
    ensures var s := OnVm7(c, Slot(2, 2), {1}, DesiredSlot(Slot(1, 1), ZERO)); Reachable(c, s) && !VmLedgers(s)
  {
    var slot := DesiredSlot(Slot(1, 1), ZERO);
    TooLarge(c.catalogue, Slot(1, 1), Slot(2, 2), 1);
    PlanIsCommitted(c, Slot(2, 2), {1}, slot);
    NoRoom(OnVm7(c, Slot(2, 2), {1}, slot));
  }

  lemma {:induction false} NoRoom(s: System)
    requires s.db.jobs == map[1 := Job(0, Slot(2, 2), Scheduled, Some(7), 0)] && s.released == {}
    requires 7 in s.db.vms && s.db.vms[7].total == Slot(1, 1)
    ensures !VmLedgers(s)
  {
    assert HeldJobs(s.db.jobs, {}, 7) == {1};
    TotalSingle(1, Reqs(s.db.jobs));
    assert !VmLedger(s, 7);
  }

  /** Two jobs of (1, 1) on VM 7, of which job 1 has a status and was perhaps released. */
  function TwoJobs(c: Config, vm: Vm, status: JobStatus, released: set<JobId>, attempts: nat): System {
    System(Db(map[1 := Job(0, Slot(1, 1), status, Some(7), 0), 2 := Job(0, Slot(1, 1), Scheduled, Some(7), 0)],
              map[7 := vm], map[1 := PlanRow(c.interval, c.interval)]),
           c.interval, map[], released, map[1 := 1, 2 := 1], map[7 := attempts])
  }

  lemma {:induction false} TwoJobsLoad()
    ensures Total({1, 2}, Requirements(Slot(1, 1), {1, 2})).IsSum(Slot(1, 1), Slot(1, 1))
  {
    var reqs: map<JobId, Slot> := Requirements(Slot(1, 1), {1, 2});
    TotalTake({1, 2}, 1, reqs);
    assert {1, 2} - {1} == {2};
    TotalSingle(2, reqs);
  }

  /** With (2, 2) on offer the plan is one of the packing planner. */
  lemma {:induction false} TwoJobsPacked(catalogue: seq<Slot>, slot: DesiredSlot)
    requires Slot(2, 2) in catalogue && slot == DesiredSlot(Slot(2, 2), ZERO)
    ensures PlanSound(catalogue, Requirements(Slot(1, 1), {1, 2}), map[], OneSlot({1, 2}, slot))
    ensures PackingPlan(catalogue, Requirements(Slot(1, 1), {1, 2}), OneSlot({1, 2}, slot))
  {
    TwoJobsLoad();
    OneSlotLoad(Slot(1, 1), {1, 2}, slot);
    OneSlotSound(catalogue, Slot(1, 1), {1, 2}, slot);
    assert FitsSome(catalogue, Slot(1, 1)) by { assert Slot(1, 1).Fits(Slot(2, 2)); }
    assert {1, 2} - {1} == {2};
  }

  /** Indeed, when (2, 2) is the one size offered, packing the two jobs by the book ends with that slot. */
  lemma {:induction false} TwoJobsByTheBook(catalogue: seq<Slot>)
    requires catalogue == [Slot(2, 2)]
    ensures PackAll(catalogue, [QueuedJob(1, Slot(1, 1)), QueuedJob(2, Slot(1, 1))]) ==
            [Open(DesiredSlot(Slot(2, 2), ZERO), multiset{1, 2})]
  {
    var one, two := QueuedJob(1, Slot(1, 1)), QueuedJob(2, Slot(1, 1));
    var half := [Open(DesiredSlot(Slot(2, 2), Slot(1, 1)), multiset{1})];
    FirstOpens(catalogue, one, Slot(2, 2), Slot(1, 1));
    assert [one, two][..1] == [one];
    assert BestOf(half, two.req, 0);
    forall i: nat | BestOf(half, two.req, i) ensures i == 0 { BestUnique(half, two.req, i, 0); }
    assert WithJob(half[0], two) == Open(DesiredSlot(Slot(2, 2), ZERO), multiset{1, 2});
  }

  /** The first job packed opens a slot of the size the search chooses. */
  lemma {:induction false} FirstOpens(catalogue: seq<Slot>, job: QueuedJob, size: Slot, idle: Slot)
    requires catalogue == [size] && idle == size.Minus(job.req)
    ensures PackAll(catalogue, [job]) == [Open(DesiredSlot(size, idle), multiset{job.id})]
  {
    assert MinFitSlot(catalogue, job.req) == size by { OnlySize(catalogue, size, job.req); }
    assert [job][..0] == [];
    assert PackAll(catalogue, []) == [];
    assert multiset([job.id]) == multiset{job.id};
    assert MergeInto(catalogue, [], View(OpenSlot(catalogue, 0, job))) == [View(OpenSlot(catalogue, 0, job))];
  }

  lemma {:induction false} TwoJobsScheduled(c: Config)
    requires Slot(2, 2) in c.catalogue
    ensures Reachable(c, TwoJobs(c, Vm(PendingAllocation, Slot(2, 2), ZERO, 0), Scheduled, {}, 0))
  {
    var slot := DesiredSlot(Slot(2, 2), ZERO);
    TwoJobsPacked(c.catalogue, slot);
    PlanIsCommitted(c, Slot(1, 1), {1, 2}, slot);
    TwoJobsOnVm7(c, slot);
  }

  lemma {:induction false} TwoJobsOnVm7(c: Config, slot: DesiredSlot)
    requires slot == DesiredSlot(Slot(2, 2), ZERO)
    ensures OnVm7(c, Slot(1, 1), {1, 2}, slot) == TwoJobs(c, Vm(PendingAllocation, Slot(2, 2), ZERO, 0), Scheduled, {}, 0)
  {
    var s, t := OnVm7(c, Slot(1, 1), {1, 2}, slot), TwoJobs(c, Vm(PendingAllocation, Slot(2, 2), ZERO, 0), Scheduled, {}, 0);
    assert s.db.jobs == t.db.jobs;
    assert s.commits == t.commits;
  }

  /** A step that only moves VM 7 on. */
  lemma {:induction false} VmMoves(c: Config, vm: Vm, attempts: nat, step: Step, vm': Vm, attempts': nat)
    requires Reachable(c, TwoJobs(c, vm, Scheduled, {}, attempts))
    requires vm' == vm.(status := vm'.status)
    requires match step
             case TakeToAllocate(ids) =>
               ids == {7} && vm.status == PendingAllocation && vm'.status == Allocating && attempts' == attempts + 1
             case SaveAllocated(v) => v == 7 && vm'.status == Allocated && attempts' == attempts
             case AgentPoll(v) => v == 7 && vm.status == Allocated && vm'.status == AgentStarted && attempts' == attempts
             case _ => false
    ensures Reachable(c, TwoJobs(c, vm', Scheduled, {}, attempts'))
  {
    var s, t := TwoJobs(c, vm, Scheduled, {}, attempts), TwoJobs(c, vm', Scheduled, {}, attempts');
    ReachableStep(c, s, step);
    assert Apply(c, s, step).db.vms == t.db.vms;
    assert Apply(c, s, step).attempts == t.attempts;
    assert Apply(c, s, step) == t;
  }

  /** The VM is allocated, its agent starts and reports job 1 running. */
  lemma {:induction false} JobRuns(c: Config)
    requires Slot(2, 2) in c.catalogue
    ensures Reachable(c, TwoJobs(c, Vm(AgentStarted, Slot(2, 2), ZERO, 0), Running, {}, 1))
  {
    TwoJobsScheduled(c);
    VmMoves(c, Vm(PendingAllocation, Slot(2, 2), ZERO, 0), 0, TakeToAllocate({7}), Vm(Allocating, Slot(2, 2), ZERO, 0), 1);
    VmMoves(c, Vm(Allocating, Slot(2, 2), ZERO, 0), 1, SaveAllocated(7), Vm(Allocated, Slot(2, 2), ZERO, 0), 1);
    VmMoves(c, Vm(Allocated, Slot(2, 2), ZERO, 0), 1, AgentPoll(7), Vm(AgentStarted, Slot(2, 2), ZERO, 0), 1);
    JobStarts(c, Vm(AgentStarted, Slot(2, 2), ZERO, 0));
  }

  lemma {:induction false} JobStarts(c: Config, vm: Vm)
    requires Reachable(c, TwoJobs(c, vm, Scheduled, {}, 1))
    ensures Reachable(c, TwoJobs(c, vm, Running, {}, 1))
  {
    var s, t := TwoJobs(c, vm, Scheduled, {}, 1), TwoJobs(c, vm, Running, {}, 1);
    ReachableStep(c, s, Report(7, 1, Running));
    assert Apply(c, s, Report(7, 1, Running)).db.jobs == t.db.jobs;
    assert Apply(c, s, Report(7, 1, Running)) == t;
  }

  lemma {:induction false} JobCompletes(c: Config)
    requires Slot(2, 2) in c.catalogue
    ensures Reachable(c, TwoJobs(c, Vm(AgentStarted, Slot(2, 2), Slot(1, 1), 0), Completed, {1}, 1))
  {
    JobRuns(c);
    var s := TwoJobs(c, Vm(AgentStarted, Slot(2, 2), ZERO, 0), Running, {}, 1);
    var done := TwoJobs(c, Vm(AgentStarted, Slot(2, 2), Slot(1, 1), 0), Completed, {1}, 1);
    var step := Report(7, 1, Completed);
    assert Reachable(c, Apply(c, s, step)) by { ReachableStep(c, s, step); }
    assert ReportedJobs(s.db.jobs, 1, Completed) == done.db.jobs;
    ReleasedOnce(done.db.jobs, s.db.vms);
    assert Apply(c, s, step) == done;
  }

  lemma {:induction false} ReleasedOnce(jobs: map<JobId, Job>, vms: map<VmId, Vm>)
    requires 1 in jobs && jobs[1].vm == Some(7) && jobs[1].req == Slot(1, 1)
    requires vms == map[7 := Vm(AgentStarted, Slot(2, 2), ZERO, 0)]
    ensures Released(jobs, vms, {1}) == map[7 := Vm(AgentStarted, Slot(2, 2), Slot(1, 1), 0)]
  {
    assert OnVm(jobs, {1}, 7) == {1};
    TotalSingle(1, Reqs(jobs));
  }

  /** Where a second report of job 1 leads from: one job complete and released, the other still scheduled. */
  function HalfFree(c: Config): System {
    TwoJobs(c, Vm(AgentStarted, Slot(2, 2), Slot(1, 1), 0), Completed, {1}, 1)
  }

  /** The VM counts as fully idle although job 2 is scheduled on it. */
  function AllFree(c: Config): System {
    TwoJobs(c, Vm(AgentStarted, Slot(2, 2), Slot(2, 2), 0), Completed, {1}, 1)
  }

  lemma {:induction false} ReleasedTwice(c: Config, s: System)
    requires s == HalfFree(c)
    ensures Apply(c, s, Report(7, 1, Completed)) == AllFree(c)
  {
    assert OnVm(s.db.jobs, {1}, 7) == {1};
    TotalSingle(1, Reqs(s.db.jobs));
    assert Released(s.db.jobs, s.db.vms, {1}) == AllFree(c).db.vms;
    assert s.released + {1} == {1};
  }

  /** Two jobs of (1, 1) packed into (2, 2). Job 1 is reported complete twice while job 2 still waits on the VM: both
      now count as free. */
  lemma {:induction false} ReportedTwice(c: Config)
    requires Slot(2, 2) in c.catalogue
    ensures PackingPlan(c.catalogue, Requirements(Slot(1, 1), {1, 2}), OneSlot({1, 2}, DesiredSlot(Slot(2, 2), ZERO)))
    ensures Reachable(c, HalfFree(c)) && VmLedgers(HalfFree(c)) && Enabled(c, HalfFree(c), Report(7, 1, Completed))
    ensures Apply(c, HalfFree(c), Report(7, 1, Completed)) == AllFree(c)
    ensures Reachable(c, AllFree(c)) && !VmLedgers(AllFree(c))
  {
    TwoJobsPacked(c.catalogue, DesiredSlot(Slot(2, 2), ZERO));
    JobCompletes(c);
    var s := HalfFree(c);
    ReachableSane(c, s);
    assert HeldJobs(s.db.jobs, {1}, 7) == {2};
    TotalSingle(2, Reqs(s.db.jobs));
    assert VmLedger(s, 7);
    FinalReportExactly(c, s, 7, 1, Completed);
    ReachableStep(c, s, Report(7, 1, Completed));
    ReleasedTwice(c, s);
  }

  /** The interval is all that is waited for: right after it a next plan may start, so the distance between commits and
      starts is tight. */
  lemma {:induction false} StartsAtOnce(c: Config) returns (s: System)
    requires Slot(2, 2) in c.catalogue
    ensures Reachable(c, s) && 1 in s.db.plans && s.runs == map[]
    ensures Enabled(c, s, StartScheduling(2, s.db.plans[1].updated + c.interval))
    ensures forall now :: now < s.db.plans[1].updated + c.interval ==> !Enabled(c, s, StartScheduling(2, now))
  {
    var t := AllFree(c);
    assert Reachable(c, t) by { ReportedTwice(c); }
    ReachableStep(c, t, Tick(2 * c.interval));
    s := Apply(c, t, Tick(2 * c.interval));
  }

  /** The second plan's time: after the interval, and after the first plan's update. */
  function Later(c: Config): Time {
    2 * c.interval + 1
  }

  /** From there, the second plan at some phase. */
  function SecondPlan(c: Config, phase: Phase): System {
    var s := AllFree(c);
    s.(db := s.db.(plans := map[1 := PlanRow(c.interval, c.interval), 2 := PlanRow(Later(c), Later(c))]),
       clock := Later(c), runs := map[2 := phase])
  }

  /** What the second plan reads: no queued job and a VM that seems fully idle. */
  function Seen(): map<VmId, ActiveVm> {
    map[7 := ActiveVm(7, Slot(2, 2), Slot(2, 2))]
  }

  lemma {:induction false} SecondStarts(c: Config)
    requires Slot(2, 2) in c.catalogue
    ensures Reachable(c, SecondPlan(c, Started(Later(c))))
  {
    var s := AllFree(c);
    assert Reachable(c, s) by { ReportedTwice(c); }
    ReachableStep(c, s, Tick(Later(c)));
    var late := Apply(c, s, Tick(Later(c)));
    ReachableStep(c, late, StartScheduling(2, Later(c)));
    assert Apply(c, late, StartScheduling(2, Later(c))) == SecondPlan(c, Started(Later(c)));
  }

  lemma {:induction false} SecondReads(c: Config)
    requires Slot(2, 2) in c.catalogue
    ensures Reachable(c, SecondPlan(c, SawVms(Later(c), map[], Seen())))
  {
    SecondStarts(c);
    var s := SecondPlan(c, Started(Later(c)));
    var t := SecondPlan(c, SawJobs(Later(c), map[]));
    assert QueuedJobs(s.db) == map[];
    ReachableStep(c, s, ReadJobs(2));
    assert Apply(c, s, ReadJobs(2)) == t;
    assert ActiveVms(t.db) == Seen();
    ReachableStep(c, t, ReadVms(2));
    assert Apply(c, t, ReadVms(2)) == SecondPlan(c, SawVms(Later(c), map[], Seen()));
  }

  /** The only sound plan for that: give the VM up. */
  function GiveUp7(): StateChange {
    StateChange(map[], map[], map[], [7])
  }

  lemma {:induction false} GiveUpSound(catalogue: seq<Slot>)
    ensures PlanSound(catalogue, map[], Seen(), GiveUp7()) && PackingPlan(catalogue, map[], GiveUp7())
  {
  }

  lemma {:induction false} GiveUpCommits(c: Config, s: System)
    requires s == SecondPlan(c, SawVms(Later(c), map[], Seen()))
    ensures var step := CommitPlan(2, GiveUp7(), NewRows(map[], map[]), Later(c));
            && Enabled(c, s, step)
            && var db := Apply(c, s, step).db;
               db.jobs == s.db.jobs && 7 in db.vms && db.vms[7].status == PendingTermination
  {
    GiveUpSound(c.catalogue);
    assert Relevant(s.db, 2) && NoConflicts(s.db, GiveUp7()) && FreshRows(s.db, GiveUp7(), NewRows(map[], map[]));
    var step := CommitPlan(2, GiveUp7(), NewRows(map[], map[]), Later(c));
    assert Apply(c, s, step).db.jobs == s.db.jobs;
  }

  /** Termination safety fails off safe runs: after the second report a plan of the packing planner gives up the VM, and
      job 2 stays scheduled on it. */
  lemma {:induction false} GivenUpInUse(c: Config) returns (s: System)
    requires Slot(2, 2) in c.catalogue
    ensures Reachable(c, s) && 7 in s.db.vms && s.db.vms[7].status == PendingTermination
    ensures Unfinished(s.db, 7, 2) && !s.db.jobs[2].req.Fits(ZERO)
  {
    SecondReads(c);
    var t := SecondPlan(c, SawVms(Later(c), map[], Seen()));
    GiveUpCommits(c, t);
    var step := CommitPlan(2, GiveUp7(), NewRows(map[], map[]), Later(c));
    ReachableStep(c, t, step);
    s := Apply(c, t, step);
  }
}
