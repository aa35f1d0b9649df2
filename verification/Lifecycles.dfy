/** How rows change: for every status the steps that lead to it, what each step does to the other columns, and what
    follows for whole runs. Stated on the columns, without the functions that the transactions are made of. */
module Lifecycles {
  import opened Capacity
  import opened Plan
  import opened Store
  import opened Protocol
  import opened Histories
  import opened Budgets

  /** The step takes away the VM that a scheduled or running job waits for or runs on. */
  ghost predicate LosesVm(c: Config, s: System, step: Step, j: JobId) {
    && j in s.db.jobs && s.db.jobs[j].vm.Some? && s.db.jobs[j].vm.value in s.db.vms
    && var v := s.db.jobs[j].vm.value;
       match s.db.jobs[j].status
       case Scheduled =>
         || (step.TerminateAllocating? && v in step.cond && s.db.vms[v].status == Allocating &&
             s.db.vms[v].restarts >= c.vmLimit)
         || (step.TerminateSilent? && v in step.cond && s.db.vms[v].status == Allocated)
       case Running => step.TerminateInactive? && v in step.cond && s.db.vms[v].status == AgentStarted
       case _ => false
  }

  /** The agent of the VM that an unfinished job points at reports a status. */
  ghost predicate Reports(s: System, step: Step, j: JobId, status: JobStatus) {
    && j in s.db.jobs && !Final(s.db.jobs[j].status)
    && step.Report? && step.job == j && s.db.jobs[j].vm == Some(step.vm) && step.status == status
  }

  /** The step gives a job a status. */
  ghost predicate JobTurns(c: Config, s: System, step: Step, j: JobId, status: JobStatus) {
    && j in s.db.jobs
    && match status
       case Queued => LosesVm(c, s, step, j) && s.db.jobs[j].restarts < c.jobLimit
       case InternalError => LosesVm(c, s, step, j) && s.db.jobs[j].restarts >= c.jobLimit
       case Scheduled => step.CommitPlan? && j in step.ch.jobToVm
       case Cancelling => step.CancelJobs? && j in step.cond && s.db.jobs[j].status in {Scheduled, Running}
       case Cancelled =>
         || (step.CancelJobs? && j in step.cond && s.db.jobs[j].status == Queued)
         || Reports(s, step, j, Cancelled)
       case Running => Reports(s, step, j, Running)
       case Completed => Reports(s, step, j, Completed)
       case Error => Reports(s, step, j, Error)
  }

  lemma {:induction false} JobTurnsByPlan(c: Config, s: System, step: Step, j: JobId, status: JobStatus)
    requires Enabled(c, s, step) && step.CommitPlan? && j in s.db.jobs && status != s.db.jobs[j].status
    ensures j in Apply(c, s, step).db.jobs
    ensures Apply(c, s, step).db.jobs[j].status == status <==> JobTurns(c, s, step, j, status)
  {
  }

  lemma {:induction false} JobTurnsByAgent(c: Config, s: System, step: Step, j: JobId, status: JobStatus)
    requires Enabled(c, s, step) && step.Report? && j in s.db.jobs && status != s.db.jobs[j].status
    ensures j in Apply(c, s, step).db.jobs
    ensures Apply(c, s, step).db.jobs[j].status == status <==> JobTurns(c, s, step, j, status)
  {
  }

  lemma {:induction false} JobTurnsByLoss(c: Config, s: System, step: Step, j: JobId, status: JobStatus)
    requires Enabled(c, s, step) && (step.TerminateAllocating? || step.TerminateSilent? || step.TerminateInactive?)
    requires j in s.db.jobs && status != s.db.jobs[j].status
    ensures j in Apply(c, s, step).db.jobs
    ensures Apply(c, s, step).db.jobs[j].status == status <==> JobTurns(c, s, step, j, status)
  {
  }

  lemma {:induction false} JobTurnsOtherwise(c: Config, s: System, step: Step, j: JobId, status: JobStatus)
    requires Enabled(c, s, step) && !step.CommitPlan? && !step.Report?
    requires !step.TerminateAllocating? && !step.TerminateSilent? && !step.TerminateInactive?
    requires j in s.db.jobs && status != s.db.jobs[j].status
    ensures j in Apply(c, s, step).db.jobs
    ensures Apply(c, s, step).db.jobs[j].status == status <==> JobTurns(c, s, step, j, status)
  {
  }

  /** For every step, job and status: the job gets a status it does not have exactly by the steps named above. */
  lemma {:induction false} JobTurnsExactly(c: Config, s: System, step: Step, j: JobId, status: JobStatus)
    requires Enabled(c, s, step) && j in s.db.jobs && status != s.db.jobs[j].status
    ensures j in Apply(c, s, step).db.jobs
    ensures Apply(c, s, step).db.jobs[j].status == status <==> JobTurns(c, s, step, j, status)
  {
    match step
    case CommitPlan(_, _, _, _) => JobTurnsByPlan(c, s, step, j, status);
    case Report(_, _, _) => JobTurnsByAgent(c, s, step, j, status);
    case TerminateAllocating(_) => JobTurnsByLoss(c, s, step, j, status);
    case TerminateSilent(_) => JobTurnsByLoss(c, s, step, j, status);
    case TerminateInactive(_) => JobTurnsByLoss(c, s, step, j, status);
    case _ => JobTurnsOtherwise(c, s, step, j, status);
  }

  /** The row a plan sends a job to. */
  ghost function SentRow(step: Step, j: JobId): VmId
    requires step.CommitPlan? && j in step.ch.jobToVm
    requires step.ch.jobToVm[j].New? ==> step.ch.jobToVm[j].slot in step.rows.of
  {
    if step.ch.jobToVm[j].New? then step.rows.of[step.ch.jobToVm[j].slot] else step.ch.jobToVm[j].vm
  }

  ghost predicate Sends(step: Step, j: JobId) {
    && step.CommitPlan? && j in step.ch.jobToVm
    && (step.ch.jobToVm[j].New? ==> step.ch.jobToVm[j].slot in step.rows.of)
  }

  /** The other columns of a job: restarts are counted exactly when it goes back to the queue, its VM is written by plans
      alone, and it keeps it when it is restarted, cancelled or done. */
  lemma {:induction false} JobColumns(c: Config, s: System, step: Step, j: JobId)
    requires Enabled(c, s, step) && j in s.db.jobs
    ensures j in Apply(c, s, step).db.jobs && (step.CommitPlan? && j in step.ch.jobToVm ==> Sends(step, j))
    ensures var before, after := s.db.jobs[j], Apply(c, s, step).db.jobs[j];
            && after.task == before.task && after.req == before.req
            && after.restarts == before.restarts + (if JobTurns(c, s, step, j, Queued) then 1 else 0)
            && after.vm == if Sends(step, j) then Some(SentRow(step, j)) else before.vm
  {
    if step.CommitPlan? && j in step.ch.jobToVm {
      PlanSends(c, s, step, j);
    } else {
      JobColumnsKept(c, s, step, j);
    }
  }

  lemma {:induction false} PlanSends(c: Config, s: System, step: Step, j: JobId)
    requires Enabled(c, s, step) && j in s.db.jobs && step.CommitPlan? && j in step.ch.jobToVm
    ensures Sends(step, j) && j in Apply(c, s, step).db.jobs
    ensures Apply(c, s, step).db.jobs[j] == s.db.jobs[j].(status := Scheduled, vm := Some(SentRow(step, j)))
  {
    match step.ch.jobToVm[j]
    case Existing(v) =>
    case New(t) => assert t in step.rows.of.Keys;
  }

  lemma {:induction false} JobColumnsKept(c: Config, s: System, step: Step, j: JobId)
    requires Enabled(c, s, step) && j in s.db.jobs && !(step.CommitPlan? && j in step.ch.jobToVm)
    ensures j in Apply(c, s, step).db.jobs
    ensures var before, after := s.db.jobs[j], Apply(c, s, step).db.jobs[j];
            && after.task == before.task && after.req == before.req && after.vm == before.vm
            && after.restarts == before.restarts + (if JobTurns(c, s, step, j, Queued) then 1 else 0)
  {
    if step.TerminateAllocating? || step.TerminateSilent? || step.TerminateInactive? {
      LossCounted(c, s, step, j);
    } else {
      NothingCounted(c, s, step, j);
    }
  }

  lemma {:induction false} LossCounted(c: Config, s: System, step: Step, j: JobId)
    requires Enabled(c, s, step) && j in s.db.jobs
    requires step.TerminateAllocating? || step.TerminateSilent? || step.TerminateInactive?
    ensures j in Apply(c, s, step).db.jobs
    ensures var before, after := s.db.jobs[j], Apply(c, s, step).db.jobs[j];
            && after.task == before.task && after.req == before.req && after.vm == before.vm
            && after.restarts == before.restarts + (if JobTurns(c, s, step, j, Queued) then 1 else 0)
  {
  }

  lemma {:induction false} NothingCounted(c: Config, s: System, step: Step, j: JobId)
    requires Enabled(c, s, step) && j in s.db.jobs && !(step.CommitPlan? && j in step.ch.jobToVm)
    requires !step.TerminateAllocating? && !step.TerminateSilent? && !step.TerminateInactive?
    ensures j in Apply(c, s, step).db.jobs
    ensures Apply(c, s, step).db.jobs[j] == s.db.jobs[j].(status := Apply(c, s, step).db.jobs[j].status)
  {
  }

  /** New jobs come in with tasks only: queued, on no VM, not restarted. */
  lemma {:induction false} NewJobRow(c: Config, s: System, step: Step, j: JobId)
    requires Enabled(c, s, step) && j !in s.db.jobs && j in Apply(c, s, step).db.jobs
    ensures step.AddTask? && j in step.ids
    ensures Apply(c, s, step).db.jobs[j] == Job(step.task, step.req, Queued, None, 0)
  {
  }

  /** Why jobs end, over whole runs: a job has a final status exactly when an earlier step gave it that status, so the
      first accepted final report, cancellation or last loss of its VM decides for good. */
  lemma {:induction false} FinalExactly(c: Config, states: seq<System>, steps: seq<Step>, i: nat, j: JobId, status: JobStatus)
    requires IsRun(c, states, steps) && i < |states| && j in states[i].db.jobs && Final(status)
    ensures states[i].db.jobs[j].status == status <==>
            exists k :: 0 <= k < i && JobTurns(c, states[k], steps[k], j, status)
  {
    if states[i].db.jobs[j].status == status {
      var k := FinalCause(c, states, steps, i, j, status);
    }
    if exists k :: 0 <= k < i && JobTurns(c, states[k], steps[k], j, status) {
      var k :| 0 <= k < i && JobTurns(c, states[k], steps[k], j, status);
      TurnsFromUnfinished(c, states[k], steps[k], j, status);
      JobTurnsExactly(c, states[k], steps[k], j, status);
      FinalFrozen(c, states, steps, k + 1, i, j);
    }
  }

  lemma {:induction false} TurnsFromUnfinished(c: Config, s: System, step: Step, j: JobId, status: JobStatus)
    requires JobTurns(c, s, step, j, status) && Final(status)
    ensures !Final(s.db.jobs[j].status)
  {
  }

  /** A final status was there before or the step gave it. */
  lemma {:induction false} FinalBefore(c: Config, s: System, step: Step, after: System, j: JobId, status: JobStatus)
    requires Enabled(c, s, step) && after == Apply(c, s, step) && j in after.db.jobs
    requires Final(status) && after.db.jobs[j].status == status
    ensures j in s.db.jobs && (s.db.jobs[j].status == status || JobTurns(c, s, step, j, status))
  {
    if j !in s.db.jobs {
      NewJobRow(c, s, step, j);
    } else if s.db.jobs[j].status != status {
      JobTurnsExactly(c, s, step, j, status);
    }
  }

  lemma {:induction false} FinalCause(
    c: Config, states: seq<System>, steps: seq<Step>, i: nat, j: JobId, status: JobStatus) returns (k: nat)
    requires IsRun(c, states, steps) && i < |states| && j in states[i].db.jobs
    requires Final(status) && states[i].db.jobs[j].status == status
    ensures k < i && JobTurns(c, states[k], steps[k], j, status)
  {
    k := i - 1;
    var s, step, after := states[k], steps[k], states[i];
    assert Enabled(c, s, step) && after == Apply(c, s, step);
    FinalBefore(c, s, step, after, j, status);
    if s.db.jobs[j].status == status {
      k := FinalCause(c, states, steps, k, j, status);
    }
  }

  /** The statuses after which a job's resources have been given back. */
  ghost predicate Done(s: JobStatus) {
    s in {Completed, Cancelled, Error}
  }

  ghost predicate ReleasedIfDone(s: System, j: JobId) {
    j in s.db.jobs && Done(s.db.jobs[j].status) ==> j in s.released
  }

  /** What a step makes done it releases. */
  lemma {:induction false} DoneByStep(c: Config, s: System, step: Step, j: JobId, status: JobStatus)
    requires Enabled(c, s, step) && JobTurns(c, s, step, j, status) && Done(status)
    ensures j in Apply(c, s, step).released
  {
  }

  lemma {:induction false} ReleasedGrows(c: Config, s: System, step: Step)
    requires Enabled(c, s, step)
    ensures s.released <= Apply(c, s, step).released
  {
  }

  lemma {:induction false} DoneStep(c: Config, s: System, step: Step, after: System, j: JobId)
    requires Enabled(c, s, step) && after == Apply(c, s, step) && ReleasedIfDone(s, j)
    ensures ReleasedIfDone(after, j)
  {
    if j in after.db.jobs && Done(after.db.jobs[j].status) {
      var status := after.db.jobs[j].status;
      FinalBefore(c, s, step, after, j, status);
      if s.db.jobs[j].status == status {
        ReleasedGrows(c, s, step);
      } else {
        DoneByStep(c, s, step, j, status);
      }
    }
  }

  /** In every run the resources of every completed, cancelled or failed job have been released. */
  lemma {:induction false} DoneReleased(c: Config, states: seq<System>, steps: seq<Step>, i: nat, j: JobId)
    requires IsRun(c, states, steps) && i < |states|
    ensures ReleasedIfDone(states[i], j)
  {
    if i > 0 {
      DoneReleased(c, states, steps, i - 1, j);
      DoneStep(c, states[i - 1], steps[i - 1], states[i], j);
    }
  }

  /** The row that the last plan of a run to assign a job sent it to. */
  ghost function LastSent(steps: seq<Step>, j: JobId): Option<VmId> {
    if steps == [] then None
    else
      var last := steps[|steps| - 1];
      if Sends(last, j) then Some(SentRow(last, j)) else LastSent(steps[..|steps| - 1], j)
  }

  /** In every run a job points at the VM of the last committed plan that assigned it, and at none before the first. */
  lemma {:induction false} VmOfLastPlan(c: Config, states: seq<System>, steps: seq<Step>, i: nat, j: JobId)
    requires IsRun(c, states, steps) && i < |states| && j in states[i].db.jobs
    ensures states[i].db.jobs[j].vm == LastSent(steps[..i], j)
  {
    var s, step := states[i - 1], steps[i - 1];
    assert states[i] == Apply(c, s, step);
    assert steps[..i][..i - 1] == steps[..i - 1] && steps[..i][i - 1] == step;
    if j in s.db.jobs {
      VmOfLastPlan(c, states, steps, i - 1, j);
      JobColumns(c, s, step, j);
    } else {
      NewJobRow(c, s, step, j);
      NeverSent(c, states, steps, i - 1, j);
    }
  }

  lemma {:induction false} NeverSent(c: Config, states: seq<System>, steps: seq<Step>, i: nat, j: JobId)
    requires IsRun(c, states, steps) && i < |states| && j !in states[i].db.jobs
    ensures LastSent(steps[..i], j) == None
  {
    if i > 0 {
      var s, step := states[i - 1], steps[i - 1];
      assert steps[..i][..i - 1] == steps[..i - 1] && steps[..i][i - 1] == step;
      assert j !in s.db.jobs by { StepEvolves(c, s, step); }
      NeverSent(c, states, steps, i - 1, j);
      SaneAt(c, states, steps, i - 1);
      NotSent(c, s, step, j);
    }
  }

  lemma {:induction false} NotSent(c: Config, s: System, step: Step, j: JobId)
    requires Sane(c, s) && Enabled(c, s, step) && j !in s.db.jobs
    ensures !Sends(step, j)
  {
    if step.CommitPlan? {
      assert RunOk(s, step.plan);
      assert forall k :: k in step.ch.jobToVm.Keys ==> k in s.runs[step.plan].jobs.Keys && k in s.db.jobs;
    }
  }

  /** The step gives a VM a status. */
  ghost predicate VmTurns(c: Config, s: System, step: Step, v: VmId, status: VmStatus) {
    && v in s.db.vms
    && var vm := s.db.vms[v];
       match status
       case PendingAllocation =>
         step.RestartAllocating? && v in step.cond && vm.status == Allocating && vm.restarts < c.vmLimit
       case Allocating => step.TakeToAllocate? && v in step.ids
       case Allocated => step.SaveAllocated? && v == step.vm
       case AgentStarted => step.AgentPoll? && v == step.vm && vm.status == Allocated
       case PendingTermination =>
         || (step.CommitPlan? && v in step.ch.terminate)
         || (step.TerminateSilent? && v in step.cond && vm.status == Allocated)
         || (step.TerminateInactive? && v in step.cond && vm.status == AgentStarted)
         || (step.SetTermination? && !step.done && v in step.ids)
       case Terminating => step.TakeToTerminate? && v in step.ids
       case Terminated =>
         || (step.TerminateAllocating? && v in step.cond && vm.status == Allocating && vm.restarts >= c.vmLimit)
         || (step.SetTermination? && step.done && v in step.ids)
  }

  lemma {:induction false} VmTurnsByOwner(c: Config, s: System, step: Step, v: VmId, status: VmStatus)
    requires Enabled(c, s, step) && v in s.db.vms && status != s.db.vms[v].status
    requires step.TakeToAllocate? || step.SaveAllocated? || step.RestartAllocating? || step.TakeToTerminate? ||
             step.SetTermination? || step.AgentPoll?
    ensures v in Apply(c, s, step).db.vms
    ensures Apply(c, s, step).db.vms[v].status == status <==> VmTurns(c, s, step, v, status)
  {
  }

  lemma {:induction false} VmTurnsByLoss(c: Config, s: System, step: Step, v: VmId, status: VmStatus)
    requires Enabled(c, s, step) && v in s.db.vms && status != s.db.vms[v].status
    requires step.TerminateAllocating? || step.TerminateSilent? || step.TerminateInactive?
    ensures v in Apply(c, s, step).db.vms
    ensures Apply(c, s, step).db.vms[v].status == status <==> VmTurns(c, s, step, v, status)
  {
  }

  lemma {:induction false} VmTurnsOtherwise(c: Config, s: System, step: Step, v: VmId, status: VmStatus)
    requires Enabled(c, s, step) && v in s.db.vms && status != s.db.vms[v].status
    requires !step.TakeToAllocate? && !step.SaveAllocated? && !step.RestartAllocating? && !step.TakeToTerminate? &&
             !step.SetTermination? && !step.AgentPoll?
    requires !step.TerminateAllocating? && !step.TerminateSilent? && !step.TerminateInactive?
    ensures v in Apply(c, s, step).db.vms
    ensures Apply(c, s, step).db.vms[v].status == status <==> VmTurns(c, s, step, v, status)
  {
  }

  /** For every step, VM and status: the VM gets a status it does not have exactly by the steps named above. */
  lemma {:induction false} VmTurnsExactly(c: Config, s: System, step: Step, v: VmId, status: VmStatus)
    requires Enabled(c, s, step) && v in s.db.vms && status != s.db.vms[v].status
    ensures v in Apply(c, s, step).db.vms
    ensures Apply(c, s, step).db.vms[v].status == status <==> VmTurns(c, s, step, v, status)
  {
    if step.TerminateAllocating? || step.TerminateSilent? || step.TerminateInactive? {
      VmTurnsByLoss(c, s, step, v, status);
    } else if step.TakeToAllocate? || step.SaveAllocated? || step.RestartAllocating? || step.TakeToTerminate? ||
              step.SetTermination? || step.AgentPoll? {
      VmTurnsByOwner(c, s, step, v, status);
    } else {
      VmTurnsOtherwise(c, s, step, v, status);
    }
  }

  /** Sizes never change, and restarts are counted exactly when a VM waits for allocation again. */
  lemma {:induction false} VmColumns(c: Config, s: System, step: Step, v: VmId)
    requires Enabled(c, s, step) && v in s.db.vms
    ensures v in Apply(c, s, step).db.vms
    ensures var before, after := s.db.vms[v], Apply(c, s, step).db.vms[v];
            && after.total == before.total
            && after.restarts == before.restarts + (if VmTurns(c, s, step, v, PendingAllocation) then 1 else 0)
  {
  }

  /** New VMs come with plans only: one for a slot of the plan, of its capacities, waiting for allocation. */
  lemma {:induction false} NewVmRow(c: Config, s: System, step: Step, v: VmId)
    requires Enabled(c, s, step) && v !in s.db.vms && v in Apply(c, s, step).db.vms
    ensures step.CommitPlan? && v in step.rows.slot && step.rows.slot[v] in step.ch.desired
    ensures var slot := step.ch.desired[step.rows.slot[v]];
            Apply(c, s, step).db.vms[v] == Vm(PendingAllocation, slot.total, slot.idle, 0)
  {
    assert step.CommitPlan? && v in step.rows.slot && step.rows.slot[v] in step.rows.of.Keys;
  }

  /** `x` with `y` given back, but no more than `most`. */
  ghost predicate GivenBack(most: Slot, x: Slot, y: Slot, r: Slot) {
    && r.cpu == (if x.cpu + y.cpu <= most.cpu then x.cpu + y.cpu else most.cpu)
    && r.ram == (if x.ram + y.ram <= most.ram then x.ram + y.ram else most.ram)
  }

  ghost function PointingAt(jobs: map<JobId, Job>, ids: set<JobId>, v: VmId): set<JobId> {
    set j | j in jobs && j in ids && jobs[j].vm == Some(v)
  }

  /** The requirements of those of some jobs that point at a VM. */
  ghost function Returned(jobs: map<JobId, Job>, ids: set<JobId>, v: VmId): Slot {
    Total(PointingAt(jobs, ids, v), Reqs(jobs))
  }

  /** The jobs whose resources a step gives back. */
  ghost function GivesBack(s: System, step: Step): set<JobId> {
    match step
    case CancelJobs(cond) => set j | j in s.db.jobs && j in cond && s.db.jobs[j].status == Queued
    case Report(vm, job, status) =>
      if Done(status) && job in s.db.jobs && s.db.jobs[job].vm == Some(vm) &&
         (s.db.jobs[job].status == Cancelling ==> status == Cancelled)
      then {job} else {}
    case _ => {}
  }

  lemma {:induction false} ReleaseGivesBack(jobs: map<JobId, Job>, vms: map<VmId, Vm>, ids: set<JobId>, v: VmId)
    requires v in vms && vms[v].idle.Fits(vms[v].total)
    ensures v in Released(jobs, vms, ids)
    ensures GivenBack(vms[v].total, vms[v].idle, Returned(jobs, ids, v), Released(jobs, vms, ids)[v].idle)
  {
    assert OnVm(jobs, ids, v) == PointingAt(jobs, ids, v);
  }

  lemma {:induction false} SameReturned(jobs: map<JobId, Job>, jobs': map<JobId, Job>, ids: set<JobId>, v: VmId)
    requires jobs.Keys == jobs'.Keys
    requires forall j :: j in jobs ==> jobs[j].vm == jobs'[j].vm && jobs[j].req == jobs'[j].req
    ensures Returned(jobs, ids, v) == Returned(jobs', ids, v)
  {
    var on, on' := PointingAt(jobs, ids, v), PointingAt(jobs', ids, v);
    forall j ensures j in on <==> j in on' { assert j in jobs.Keys <==> j in jobs'.Keys; }
    assert on == on';
    forall j | j in on ensures Reqs(jobs)[j] == Reqs(jobs')[j] { assert j in on'; }
    TotalAgree(on, Reqs(jobs), Reqs(jobs'));
  }

  /** Idle capacity, exactly: a plan takes its load from what it read, a cancellation gives back what the queued jobs
      require, a final report what its job requires, and nothing else changes it. */
  lemma {:induction false} IdleExactly(c: Config, s: System, step: Step, v: VmId)
    requires Sane(c, s) && Enabled(c, s, step) && v in s.db.vms
    ensures v in Apply(c, s, step).db.vms
    ensures var idle := Apply(c, s, step).db.vms[v].idle;
            if step.CommitPlan? && Preimage(step.ch.jobToVm, Existing(v)) != {} then
              && v in s.runs[step.plan].vms
              && s.runs[step.plan].vms[v].idle.IsSum(idle, Load(step.ch, s.runs[step.plan].jobs, Existing(v)))
            else
              GivenBack(s.db.vms[v].total, s.db.vms[v].idle, Returned(s.db.jobs, GivesBack(s, step), v), idle)
  {
    assert VmOk(c, s.db.vms[v], s.attempts[v]);
    match step
    case CommitPlan(plan, ch, rows, now) => IdleByPlan(c, s, plan, ch, rows, now, v);
    case _ => IdleWithoutPlan(c, s, step, v);
  }

  lemma {:induction false} IdleWithoutPlan(c: Config, s: System, step: Step, v: VmId)
    requires Enabled(c, s, step) && v in s.db.vms && s.db.vms[v].idle.Fits(s.db.vms[v].total) && !step.CommitPlan?
    ensures v in Apply(c, s, step).db.vms
    ensures GivenBack(s.db.vms[v].total, s.db.vms[v].idle, Returned(s.db.jobs, GivesBack(s, step), v),
                      Apply(c, s, step).db.vms[v].idle)
  {
    match step
    case CancelJobs(cond) => IdleByCancel(c, s, cond, v);
    case Report(vm, job, status) => IdleByReport(c, s, vm, job, status, v);
    case _ =>
      NothingReturned(s.db.jobs, v);
      IdleKept(c, s, step, v);
  }

  lemma {:induction false} NothingReturned(jobs: map<JobId, Job>, v: VmId)
    ensures Returned(jobs, {}, v) == ZERO
  {
    assert PointingAt(jobs, {}, v) == {};
  }

  lemma {:induction false} IdleKept(c: Config, s: System, step: Step, v: VmId)
    requires Enabled(c, s, step) && v in s.db.vms && !step.CommitPlan? && !step.CancelJobs? && !step.Report?
    ensures v in Apply(c, s, step).db.vms && Apply(c, s, step).db.vms[v].idle == s.db.vms[v].idle
  {
  }

  lemma {:induction false} IdleByPlan(
    c: Config, s: System, plan: PlanId, ch: StateChange, rows: NewRows, now: Time, v: VmId)
    requires Enabled(c, s, CommitPlan(plan, ch, rows, now)) && v in s.db.vms && s.db.vms[v].idle.Fits(s.db.vms[v].total)
    ensures v in Apply(c, s, CommitPlan(plan, ch, rows, now)).db.vms
    ensures var idle := Apply(c, s, CommitPlan(plan, ch, rows, now)).db.vms[v].idle;
            if Preimage(ch.jobToVm, Existing(v)) != {} then
              v in s.runs[plan].vms && s.runs[plan].vms[v].idle.IsSum(idle, Load(ch, s.runs[plan].jobs, Existing(v)))
            else
              GivenBack(s.db.vms[v].total, s.db.vms[v].idle, Returned(s.db.jobs, {}, v), idle)
  {
    NothingReturned(s.db.jobs, v);
    if v !in ch.updatedIdle {
      UnchargedEmpty(s.runs[plan].jobs, ch, v);
    }
    assert v !in rows.slot by { assert v in s.db.vms.Keys; }
  }

  lemma {:induction false} IdleByCancel(c: Config, s: System, cond: set<JobId>, v: VmId)
    requires v in s.db.vms && s.db.vms[v].idle.Fits(s.db.vms[v].total)
    ensures v in Apply(c, s, CancelJobs(cond)).db.vms
    ensures GivenBack(s.db.vms[v].total, s.db.vms[v].idle, Returned(s.db.jobs, GivesBack(s, CancelJobs(cond)), v),
                      Apply(c, s, CancelJobs(cond)).db.vms[v].idle)
  {
    var jobs := CancelledJobs(s.db.jobs, cond);
    ReleaseGivesBack(jobs, s.db.vms, CancelledNow(s.db, cond), v);
    SameReturned(jobs, s.db.jobs, CancelledNow(s.db, cond), v);
    assert CancelledNow(s.db, cond) == GivesBack(s, CancelJobs(cond));
  }

  lemma {:induction false} IdleByReport(c: Config, s: System, vm: VmId, job: JobId, status: JobStatus, v: VmId)
    requires AgentMaySet(status) && v in s.db.vms && s.db.vms[v].idle.Fits(s.db.vms[v].total)
    ensures v in Apply(c, s, Report(vm, job, status)).db.vms
    ensures GivenBack(s.db.vms[v].total, s.db.vms[v].idle, Returned(s.db.jobs, GivesBack(s, Report(vm, job, status)), v),
                      Apply(c, s, Report(vm, job, status)).db.vms[v].idle)
  {
    NothingReturned(s.db.jobs, v);
    if ReportAccepted(s.db, vm, job, status) && Final(status) {
      var jobs := ReportedJobs(s.db.jobs, job, status);
      ReleaseGivesBack(jobs, s.db.vms, {job}, v);
      SameReturned(jobs, s.db.jobs, {job}, v);
    }
  }

  /** The step takes a VM out of use. */
  ghost predicate GivesUp(c: Config, s: System, step: Step, v: VmId) {
    || VmTurns(c, s, step, v, PendingTermination)
    || VmTurns(c, s, step, v, Terminating)
    || VmTurns(c, s, step, v, Terminated)
  }

  lemma {:induction false} GivenUpLeaves(c: Config, s: System, step: Step, v: VmId)
    requires Enabled(c, s, step) && v in ActiveVms(s.db) && GivesUp(c, s, step, v)
    ensures v !in ActiveVms(Apply(c, s, step).db)
  {
    VmTurnsExactly(c, s, step, v, PendingTermination);
    VmTurnsExactly(c, s, step, v, Terminating);
    VmTurnsExactly(c, s, step, v, Terminated);
  }

  lemma {:induction false} OthersStay(c: Config, s: System, step: Step, v: VmId, status: VmStatus)
    requires Enabled(c, s, step) && v in ActiveVms(s.db) && !GivesUp(c, s, step, v)
    requires v in Apply(c, s, step).db.vms && status == Apply(c, s, step).db.vms[v].status
    ensures Active(status)
  {
    if status != s.db.vms[v].status {
      VmTurnsExactly(c, s, step, v, status);
    }
  }

  /** A VM that plans may use stays so exactly until a step gives it up; a new VM is one from the start. */
  lemma {:induction false} ActiveExactly(c: Config, s: System, step: Step, v: VmId)
    requires Enabled(c, s, step)
    ensures v in ActiveVms(s.db) ==> (v in ActiveVms(Apply(c, s, step).db) <==> !GivesUp(c, s, step, v))
    ensures v !in s.db.vms && v in Apply(c, s, step).db.vms ==> v in ActiveVms(Apply(c, s, step).db)
  {
    if v in ActiveVms(s.db) {
      VmColumns(c, s, step, v);
      if GivesUp(c, s, step, v) {
        GivenUpLeaves(c, s, step, v);
      } else {
        OthersStay(c, s, step, v, Apply(c, s, step).db.vms[v].status);
      }
    }
    if v !in s.db.vms && v in Apply(c, s, step).db.vms {
      NewVmRow(c, s, step, v);
    }
  }

  lemma {:induction false} ActiveKept(c: Config, s: System, step: Step, after: System, v: VmId)
    requires Enabled(c, s, step) && after == Apply(c, s, step) && v in ActiveVms(s.db) && !GivesUp(c, s, step, v)
    ensures v in ActiveVms(after.db)
  {
    ActiveExactly(c, s, step, v);
  }

  /** The same between two states of a run. */
  lemma {:induction false} ActiveUntilGivenUp(c: Config, states: seq<System>, steps: seq<Step>, i: nat, k: nat, v: VmId)
    requires IsRun(c, states, steps) && i <= k < |states| && v in ActiveVms(states[i].db)
    requires forall n :: i <= n < k ==> !GivesUp(c, states[n], steps[n], v)
    ensures v in ActiveVms(states[k].db)
    decreases k
  {
    if i < k {
      ActiveUntilGivenUp(c, states, steps, i, k - 1, v);
      assert !GivesUp(c, states[k - 1], steps[k - 1], v);
      ActiveKept(c, states[k - 1], steps[k - 1], states[k], v);
    }
  }

  /** A schedule() call sees exactly the queued jobs, with their requirements. */
  lemma {:induction false} JobsSeen(c: Config, s: System, plan: PlanId, j: JobId)
    requires Enabled(c, s, ReadJobs(plan))
    ensures plan in Apply(c, s, ReadJobs(plan)).runs && Apply(c, s, ReadJobs(plan)).runs[plan].SawJobs?
    ensures var seen := Apply(c, s, ReadJobs(plan)).runs[plan].jobs;
            && (j in seen <==> j in s.db.jobs && s.db.jobs[j].status == Queued)
            && (j in seen ==> seen[j] == s.db.jobs[j].req)
  {
  }

  /** And exactly the VMs that wait for allocation, are in it or have come out of it, with the capacities of their rows. */
  lemma {:induction false} VmsSeen(c: Config, s: System, plan: PlanId, v: VmId)
    requires Enabled(c, s, ReadVms(plan))
    ensures plan in Apply(c, s, ReadVms(plan)).runs && Apply(c, s, ReadVms(plan)).runs[plan].SawVms?
    ensures Apply(c, s, ReadVms(plan)).runs[plan].jobs == s.runs[plan].jobs
    ensures var seen := Apply(c, s, ReadVms(plan)).runs[plan].vms;
            && (v in seen <==>
                  v in s.db.vms && s.db.vms[v].status in {PendingAllocation, Allocating, Allocated, AgentStarted})
            && (v in seen ==> seen[v] == ActiveVm(v, s.db.vms[v].total, s.db.vms[v].idle))
  {
  }

  /** Plans send jobs to usable VMs: after every commit of a run each job it assigned is on a VM that plans may use, or
      requires nothing and its VM is given up by the same plan. */
  lemma {:induction false} SentToActive(c: Config, states: seq<System>, steps: seq<Step>, i: nat, j: JobId)
    requires IsRun(c, states, steps) && i < |steps| && steps[i].CommitPlan? && j in steps[i].ch.jobToVm
    ensures j in states[i + 1].db.jobs && states[i + 1].db.jobs[j].vm.Some?
    ensures var v := states[i + 1].db.jobs[j].vm.value;
            || v in ActiveVms(states[i + 1].db)
            || (v in steps[i].ch.terminate && states[i + 1].db.jobs[j].req.Fits(ZERO))
  {
    SaneAt(c, states, steps, i);
    SentToActiveStep(c, states[i], steps[i], j);
  }

  lemma {:induction false} SentToActiveStep(c: Config, s: System, step: Step, j: JobId)
    requires Sane(c, s) && Enabled(c, s, step) && step.CommitPlan? && j in step.ch.jobToVm
    ensures var after := Apply(c, s, step);
            && j in after.db.jobs && after.db.jobs[j].vm.Some?
            && var v := after.db.jobs[j].vm.value;
               v in ActiveVms(after.db) || (v in step.ch.terminate && after.db.jobs[j].req.Fits(ZERO))
  {
    var req, snap := s.runs[step.plan].jobs, s.runs[step.plan].vms;
    assert RunOk(s, step.plan) && j in step.ch.jobToVm.Keys && j in req.Keys;
    PlanSends(c, s, step, j);
    match step.ch.jobToVm[j]
    case Existing(v) =>
      assert v in step.ch.updatedIdle && v in snap && v in s.db.vms;
      assert j in Preimage(step.ch.jobToVm, Existing(v));
      GivenUpExactly(c.catalogue, req, snap, step.ch, v);
      ActiveExactly(c, s, step, v);
    case New(t) =>
      var v := step.rows.of[t];
      assert v in step.rows.slot.Keys;
      NewInApply(c, s, step, v);
      ActiveExactly(c, s, step, v);
  }

  lemma {:induction false} NewInApply(c: Config, s: System, step: Step, v: VmId)
    requires Enabled(c, s, step) && step.CommitPlan? && v in step.rows.slot
    ensures v !in s.db.vms && v in Apply(c, s, step).db.vms
  {
    assert v in step.rows.slot.Keys;
  }
}
