/** Restart budgets, the number of assignments and allocation attempts, and bounds that hold whatever the agents send. */
module Budgets {
  import opened Capacity
  import opened Plan
  import opened Store
  import opened Protocol
  import opened Histories

  /** A job was committed at most once more than it was restarted, and a queued one not even that. */
  ghost predicate JobOk(c: Config, job: Job, commits: nat) {
    job.restarts <= c.jobLimit && commits <= job.restarts + 1 && (job.status == Queued ==> commits <= job.restarts)
  }

  ghost predicate JobsOk(c: Config, s: System) {
    s.commits.Keys == s.db.jobs.Keys && forall j :: j in s.db.jobs ==> JobOk(c, s.db.jobs[j], s.commits[j])
  }

  /** Idle capacity is at most the total; attempts at allocation follow the restarts. */
  ghost predicate VmOk(c: Config, vm: Vm, attempts: nat) {
    && vm.idle.Fits(vm.total) && vm.restarts <= c.vmLimit && attempts <= vm.restarts + 1
    && (vm.status == PendingAllocation ==> attempts <= vm.restarts)
  }

  ghost predicate VmsOk(c: Config, s: System) {
    s.attempts.Keys == s.db.vms.Keys && forall v :: v in s.db.vms ==> VmOk(c, s.db.vms[v], s.attempts[v])
  }

  /** Jobs name existing rows; only final jobs were ever released. */
  ghost predicate LinksOk(s: System) {
    && (forall j :: j in s.db.jobs && s.db.jobs[j].vm.Some? ==> s.db.jobs[j].vm.value in s.db.vms)
    && (forall j :: j in s.released ==> j in s.db.jobs && Final(s.db.jobs[j].status))
  }

  /** What a schedule() call read stays true of the rows; for the latest plan nobody committed its jobs meanwhile. */
  ghost predicate SawJobsOk(s: System, jobs: map<JobId, Slot>, latest: bool) {
    forall j :: j in jobs ==>
      && j in s.db.jobs && j in s.commits && s.db.jobs[j].req == jobs[j]
      && (latest ==> s.commits[j] <= s.db.jobs[j].restarts)
  }

  ghost predicate SawVmsOk(db: Db, vms: map<VmId, ActiveVm>) {
    forall v :: v in vms ==> v in db.vms && vms[v].total == db.vms[v].total && vms[v].idle.Fits(vms[v].total)
  }

  ghost predicate RunOk(s: System, p: PlanId)
    requires p in s.runs
  {
    && (!s.runs[p].Started? ==> SawJobsOk(s, s.runs[p].jobs, Latest(s.db, p)))
    && (s.runs[p].SawVms? ==> SawVmsOk(s.db, s.runs[p].vms))
  }

  ghost predicate RunsOk(s: System) {
    forall p :: p in s.runs ==> RunOk(s, p)
  }

  ghost predicate Sane(c: Config, s: System) {
    PlansOrdered(c, s) && JobsOk(c, s) && VmsOk(c, s) && LinksOk(s) && RunsOk(s)
  }

  lemma {:induction false} JobsStep(c: Config, s: System, step: Step)
    requires Sane(c, s) && Enabled(c, s, step)
    ensures JobsOk(c, Apply(c, s, step))
  {
    match step
    case CommitPlan(plan, ch, rows, now) =>
      RelevantIsLatest(c, s, plan);
      assert RunOk(s, plan);
      JobsCommit(c, s, plan, ch, rows, now);
    case _ => JobsQuiet(c, s, step);
  }

  lemma {:induction false} JobsCommit(c: Config, s: System, plan: PlanId, ch: StateChange, rows: NewRows, now: Time)
    requires JobsOk(c, s) && Enabled(c, s, CommitPlan(plan, ch, rows, now)) && SawJobsOk(s, s.runs[plan].jobs, true)
    ensures JobsOk(c, Apply(c, s, CommitPlan(plan, ch, rows, now)))
  {
    forall j | j in ch.jobToVm
      ensures j in s.db.jobs && s.commits[j] <= s.db.jobs[j].restarts
    {
      assert j in s.runs[plan].jobs.Keys;
    }
  }

  lemma {:induction false} JobsQuiet(c: Config, s: System, step: Step)
    requires JobsOk(c, s) && Enabled(c, s, step) && !step.CommitPlan?
    ensures JobsOk(c, Apply(c, s, step))
  {
  }

  /** The idle capacities a sound plan writes stay within the rows' totals. */
  lemma {:induction false} CommitVmOk(c: Config, s: System, plan: PlanId, ch: StateChange, v: VmId)
    requires VmsOk(c, s) && plan in s.runs && s.runs[plan].SawVms? && RunOk(s, plan) && v in s.db.vms
    requires PlanSound(c.catalogue, s.runs[plan].jobs, s.runs[plan].vms, ch)
    ensures VmOk(c, CommittedVm(ch, v, s.db.vms[v]), s.attempts[v])
  {
    if v in ch.updatedIdle {
      assert s.runs[plan].vms[v].idle.IsSum(ch.updatedIdle[v], Load(ch, s.runs[plan].jobs, Existing(v)));
    }
  }

  lemma {:induction false} NewVmOk(c: Config, req: map<JobId, Slot>, ch: StateChange, t: SlotId)
    requires ch.jobToVm.Keys <= req.Keys && FillsSlots(c.catalogue, req, ch) && t in ch.desired
    ensures VmOk(c, NewVm(ch.desired[t]), 0)
  {
  }

  lemma {:induction false} VmsCommit(c: Config, s: System, plan: PlanId, ch: StateChange, rows: NewRows, now: Time)
    requires Sane(c, s) && Enabled(c, s, CommitPlan(plan, ch, rows, now))
    ensures VmsOk(c, Apply(c, s, CommitPlan(plan, ch, rows, now)))
  {
    var after := Apply(c, s, CommitPlan(plan, ch, rows, now));
    forall v | v in after.db.vms
      ensures VmOk(c, after.db.vms[v], after.attempts[v])
    {
      if v in rows.slot {
        assert rows.slot[v] in rows.of.Keys;
        NewVmOk(c, s.runs[plan].jobs, ch, rows.slot[v]);
      } else {
        CommitVmOk(c, s, plan, ch, v);
      }
    }
  }

  lemma {:induction false} ReleaseVmOk(c: Config, jobs: map<JobId, Job>, vms: map<VmId, Vm>, ids: set<JobId>, v: VmId, n: nat)
    requires v in vms && VmOk(c, vms[v], n)
    ensures VmOk(c, Released(jobs, vms, ids)[v], n)
  {
  }

  lemma {:induction false} VmsRelease(c: Config, s: System, step: Step)
    requires VmsOk(c, s) && Enabled(c, s, step) && (step.CancelJobs? || step.Report?)
    ensures VmsOk(c, Apply(c, s, step))
  {
    var after := Apply(c, s, step);
    var ids := if step.CancelJobs? then CancelledNow(s.db, step.cond) else {step.job};
    forall v | v in s.db.vms { ReleaseVmOk(c, after.db.jobs, s.db.vms, ids, v, s.attempts[v]); }
  }

  lemma {:induction false} VmsStep(c: Config, s: System, step: Step)
    requires Sane(c, s) && Enabled(c, s, step)
    ensures VmsOk(c, Apply(c, s, step))
  {
    match step
    case CommitPlan(plan, ch, rows, now) => VmsCommit(c, s, plan, ch, rows, now);
    case CancelJobs(cond) => VmsRelease(c, s, step);
    case Report(vm, job, status) => VmsRelease(c, s, step);
    case _ => VmsQuiet(c, s, step);
  }

  lemma {:induction false} VmsQuiet(c: Config, s: System, step: Step)
    requires VmsOk(c, s) && Enabled(c, s, step) && !step.CommitPlan? && !step.CancelJobs? && !step.Report?
    ensures VmsOk(c, Apply(c, s, step))
  {
  }

  lemma {:induction false} LinksCommit(c: Config, s: System, plan: PlanId, ch: StateChange, rows: NewRows, now: Time)
    requires LinksOk(s) && Enabled(c, s, CommitPlan(plan, ch, rows, now)) && RunOk(s, plan)
    ensures LinksOk(Apply(c, s, CommitPlan(plan, ch, rows, now)))
  {
    forall j | j in ch.jobToVm
      ensures RowOf(ch.jobToVm[j], rows) in s.db.vms || RowOf(ch.jobToVm[j], rows) in rows.slot
    {
      match ch.jobToVm[j]
      case Existing(v) => assert v in s.runs[plan].vms;
      case New(t) => assert t in rows.of.Keys;
    }
  }

  lemma {:induction false} LinksStep(c: Config, s: System, step: Step)
    requires Sane(c, s) && Enabled(c, s, step)
    ensures LinksOk(Apply(c, s, step))
  {
    match step
    case CommitPlan(plan, ch, rows, now) => LinksCommit(c, s, plan, ch, rows, now);
    case _ => LinksQuiet(c, s, step);
  }

  lemma {:induction false} LinksQuiet(c: Config, s: System, step: Step)
    requires LinksOk(s) && Enabled(c, s, step) && !step.CommitPlan?
    ensures LinksOk(Apply(c, s, step))
  {
  }

  /** What a call read survives any step that does not commit its jobs. */
  lemma {:induction false} RunKept(s: System, after: System, p: PlanId)
    requires p in s.runs && RunOk(s, p) && p in after.runs && after.runs[p] == s.runs[p]
    requires Evolves(s.db, after.db) && s.commits.Keys <= after.commits.Keys
    requires Latest(after.db, p) ==> forall j :: j in s.commits ==> after.commits[j] == s.commits[j]
    ensures RunOk(after, p)
  {
    assert Latest(after.db, p) ==> Latest(s.db, p);
  }

  lemma {:induction false} RunsStep(c: Config, s: System, step: Step)
    requires Sane(c, s) && Enabled(c, s, step)
    ensures RunsOk(Apply(c, s, step))
  {
    var after := Apply(c, s, step);
    StepEvolves(c, s, step);
    if step.CommitPlan? {
      RelevantIsLatest(c, s, step.plan);
    }
    forall p | p in after.runs
      ensures RunOk(after, p)
    {
      if p in s.runs && after.runs[p] == s.runs[p] {
        CommitsKept(c, s, step, p);
        RunKept(s, after, p);
      } else {
        RunRead(c, s, step, p);
      }
    }
  }

  /** Only a commit counts assignments, and then no other call in flight is the latest. */
  lemma {:induction false} CommitsKept(c: Config, s: System, step: Step, p: PlanId)
    requires Sane(c, s) && Enabled(c, s, step) && p in s.runs && p in Apply(c, s, step).runs
    ensures s.commits.Keys <= Apply(c, s, step).commits.Keys
    ensures Latest(Apply(c, s, step).db, p) ==>
              forall j :: j in s.commits ==> Apply(c, s, step).commits[j] == s.commits[j]
  {
    if step.CommitPlan? {
      RelevantIsLatest(c, s, step.plan);
      assert step.plan in Apply(c, s, step).db.plans;
    }
  }

  /** A fresh read agrees with the rows. */
  lemma {:induction false} RunRead(c: Config, s: System, step: Step, p: PlanId)
    requires Sane(c, s) && Enabled(c, s, step) && p in Apply(c, s, step).runs
    requires !(p in s.runs && Apply(c, s, step).runs[p] == s.runs[p])
    ensures RunOk(Apply(c, s, step), p)
  {
    assert step.StartScheduling? || step.ReadJobs? || step.ReadVms?;
    if step.ReadVms? {
      assert RunOk(s, p);
    }
  }

  lemma {:induction false} SaneAt(c: Config, states: seq<System>, steps: seq<Step>, i: nat)
    requires IsRun(c, states, steps) && i < |states|
    ensures Sane(c, states[i])
  {
    if i > 0 {
      var s, step := states[i - 1], steps[i - 1];
      SaneAt(c, states, steps, i - 1);
      PlansStep(c, s, step);
      JobsStep(c, s, step);
      VmsStep(c, s, step);
      LinksStep(c, s, step);
      RunsStep(c, s, step);
    }
  }

  /** How many committed plans of a run assign a job. */
  ghost function CommitsOf(steps: seq<Step>, j: JobId): nat {
    if steps == [] then 0
    else
      var last := steps[|steps| - 1];
      CommitsOf(steps[..|steps| - 1], j) + if last.CommitPlan? && j in last.ch.jobToVm then 1 else 0
  }

  /** How often a run takes a VM row into allocation. */
  ghost function AttemptsOf(steps: seq<Step>, v: VmId): nat {
    if steps == [] then 0
    else
      var last := steps[|steps| - 1];
      AttemptsOf(steps[..|steps| - 1], v) + if last.TakeToAllocate? && v in last.ids then 1 else 0
  }

  ghost function CountAt<K>(m: map<K, nat>, k: K): nat {
    if k in m then m[k] else 0
  }

  lemma {:induction false} CommitsStep(c: Config, s: System, step: Step, j: JobId)
    requires Sane(c, s) && Enabled(c, s, step)
    ensures CountAt(Apply(c, s, step).commits, j) ==
            CountAt(s.commits, j) + if step.CommitPlan? && j in step.ch.jobToVm then 1 else 0
  {
    if step.CommitPlan? {
      assert RunOk(s, step.plan) && (j in step.ch.jobToVm ==> j in s.runs[step.plan].jobs.Keys);
    }
    if step.AddTask? {
      assert forall k :: k in step.ids ==> k !in s.commits.Keys;
    }
  }

  lemma {:induction false} AttemptsStep(c: Config, s: System, step: Step, v: VmId)
    requires Sane(c, s) && Enabled(c, s, step)
    ensures CountAt(Apply(c, s, step).attempts, v) ==
            CountAt(s.attempts, v) + if step.TakeToAllocate? && v in step.ids then 1 else 0
  {
    if step.CommitPlan? {
      assert forall u :: u in step.rows.slot.Keys ==> u !in s.attempts.Keys;
    }
    if step.TakeToAllocate? && v in step.ids {
      assert v in s.attempts.Keys;
    }
  }

  /** The history variables count what the run did. */
  lemma {:induction false} HistoryCounts(c: Config, states: seq<System>, steps: seq<Step>, i: nat, j: JobId, v: VmId)
    requires IsRun(c, states, steps) && i < |states|
    ensures CommitsOf(steps[..i], j) == CountAt(states[i].commits, j)
    ensures AttemptsOf(steps[..i], v) == CountAt(states[i].attempts, v)
  {
    if i > 0 {
      HistoryCounts(c, states, steps, i - 1, j, v);
      SaneAt(c, states, steps, i - 1);
      CommitsStep(c, states[i - 1], steps[i - 1], j);
      AttemptsStep(c, states[i - 1], steps[i - 1], v);
      assert steps[..i][..i - 1] == steps[..i - 1];
    }
  }

  /** Across all interleavings a job is assigned at most once more than it was restarted, within the restart limit. */
  lemma {:induction false} AssignmentBound(c: Config, states: seq<System>, steps: seq<Step>, i: nat, j: JobId)
    requires IsRun(c, states, steps) && i < |states| && j in states[i].db.jobs
    ensures CommitsOf(steps[..i], j) <= states[i].db.jobs[j].restarts + 1 <= c.jobLimit + 1
  {
    SaneAt(c, states, steps, i);
    HistoryCounts(c, states, steps, i, j, 0);
  }

  /** A VM row enters allocation at most once more than it was restarted, within the restart limit. */
  lemma {:induction false} AttemptBound(c: Config, states: seq<System>, steps: seq<Step>, i: nat, v: VmId)
    requires IsRun(c, states, steps) && i < |states| && v in states[i].db.vms
    ensures AttemptsOf(steps[..i], v) <= states[i].db.vms[v].restarts + 1 <= c.vmLimit + 1
  {
    SaneAt(c, states, steps, i);
    HistoryCounts(c, states, steps, i, 0, v);
  }

  /** Whatever jobs and reports come in, idle capacity never exceeds the total. */
  lemma {:induction false} IdleWithinTotal(c: Config, states: seq<System>, steps: seq<Step>, i: nat, v: VmId)
    requires IsRun(c, states, steps) && i < |states| && v in states[i].db.vms
    ensures states[i].db.vms[v].idle.Fits(states[i].db.vms[v].total)
  {
    SaneAt(c, states, steps, i);
  }
}
