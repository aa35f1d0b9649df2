/** Runs of the simple planner: one new VM per job, and no VM is ever overcommitted. */
module SimpleRuns {
  import opened Capacity
  import opened Plan
  import opened Store
  import opened Protocol
  import opened Budgets
  import opened Overcommit
  import opened SlotSelection
  import opened Assigner

  /** What the simple planner makes: each new slot takes one job of its own size, and no existing VM takes any. */
  ghost predicate SimplePlan(req: map<JobId, Slot>, ch: StateChange) {
    && ch.jobToVm.Keys <= req.Keys && ch.updatedIdle == map[]
    && (forall j :: j in ch.jobToVm ==> ch.jobToVm[j].New?)
    && (forall j, k :: j in ch.jobToVm && k in ch.jobToVm && ch.jobToVm[j] == ch.jobToVm[k] ==> j == k)
    && (forall j :: j in ch.jobToVm ==>
          ch.jobToVm[j].slot in ch.desired && ch.desired[ch.jobToVm[j].slot] == DesiredSlot(req[j], ZERO))
  }

  /** The plans of the simple planner are of this kind. */
  lemma {:induction false} OnePerJobSimple(jobs: seq<QueuedJob>, ch: StateChange)
    requires DistinctJobs(jobs) && OnePerJob(jobs, |jobs|, ch)
    ensures SimplePlan(ReqMap(jobs), ch)
  {
    OnePerJobKeys(jobs, ch);
    forall j | j in ch.jobToVm
      ensures j in ReqMap(jobs) && ch.jobToVm[j].slot in ch.desired
      ensures ch.desired[ch.jobToVm[j].slot] == DesiredSlot(ReqMap(jobs)[j], ZERO)
    {
      RequirementAt(jobs, ch.jobToVm[j].slot);
    }
  }

  ghost predicate SimpleRun(c: Config, states: seq<System>, steps: seq<Step>) {
    && IsRun(c, states, steps)
    && forall i :: 0 <= i < |steps| && steps[i].CommitPlan? ==> SimplePlan(states[i].runs[steps[i].plan].jobs, steps[i].ch)
  }

  /** A job alone on its VM: it has the VM's size, and the VM has nothing idle until the job is released. */
  ghost predicate OwnVm(s: System, j: JobId) {
    j in s.db.jobs && s.db.jobs[j].vm.Some? ==>
      var v := s.db.jobs[j].vm.value;
      && v in s.db.vms && s.db.vms[v].total == s.db.jobs[j].req
      && (j !in s.released ==> s.db.vms[v].idle == ZERO)
  }

  ghost predicate OneEach(jobs: map<JobId, Job>) {
    forall j, k :: j in jobs && k in jobs && jobs[j].vm.Some? && jobs[j].vm == jobs[k].vm ==> j == k
  }

  ghost predicate Alone(s: System) {
    OneEach(s.db.jobs) && forall j :: OwnVm(s, j)
  }

  /** Then no VM is overcommitted. */
  lemma {:induction false} AloneLedger(c: Config, s: System, v: VmId)
    requires Alone(s) && VmsOk(c, s) && v in s.db.vms
    ensures VmLedger(s, v)
  {
    var held := HeldJobs(s.db.jobs, s.released, v);
    assert VmOk(c, s.db.vms[v], s.attempts[v]);
    if held != {} {
      var j := Pick(held);
      assert OwnVm(s, j);
      assert forall k :: k in held ==> k == j;
      assert held == {j};
      TotalSingle(j, Reqs(s.db.jobs));
    }
  }

  /** A job sent to a new row and one that stays where it was are on different VMs. */
  lemma {:induction false} NewApartFromOld(s: System, ch: StateChange, rows: NewRows, j: JobId, k: JobId)
    requires LinksOk(s) && FreshRows(s.db, ch, rows) && forall x :: x in ch.jobToVm ==> ch.jobToVm[x].New?
    requires forall x :: x in ch.jobToVm ==> ch.jobToVm[x].slot in ch.desired
    requires j in s.db.jobs && k in s.db.jobs && s.db.jobs[k].vm.Some?
    ensures j in ch.jobToVm && k !in ch.jobToVm ==> ch.jobToVm[j].slot in rows.of && rows.of[ch.jobToVm[j].slot] != s.db.jobs[k].vm.value
  {
    assert s.db.jobs[k].vm.value in s.db.vms.Keys;
    if j in ch.jobToVm {
      assert ch.jobToVm[j].slot in rows.of.Keys;
      assert rows.of[ch.jobToVm[j].slot] in rows.slot.Keys;
    }
  }

  lemma {:induction false} AloneOneEach(
    s: System, plan: PlanId, ch: StateChange, rows: NewRows)
    requires OneEach(s.db.jobs) && LinksOk(s) && plan in s.runs && s.runs[plan].SawVms? && SimplePlan(s.runs[plan].jobs, ch)
    requires FreshRows(s.db, ch, rows)
    ensures OneEach(CommittedJobs(s.db.jobs, ch, rows))
  {
    var jobs := CommittedJobs(s.db.jobs, ch, rows);
    forall j, k | j in jobs && k in jobs && jobs[j].vm.Some? && jobs[j].vm == jobs[k].vm
      ensures j == k
    {
      if j in ch.jobToVm && k in ch.jobToVm {
        assert rows.slot[rows.of[ch.jobToVm[j].slot]] == ch.jobToVm[j].slot;
        assert rows.slot[rows.of[ch.jobToVm[k].slot]] == ch.jobToVm[k].slot;
      }
      if j in ch.jobToVm {
        if k !in ch.jobToVm { NewApartFromOld(s, ch, rows, j, k); }
      } else if k in ch.jobToVm {
        NewApartFromOld(s, ch, rows, k, j);
      }
    }
  }

  lemma {:induction false} AloneCommit(c: Config, s: System, plan: PlanId, ch: StateChange, rows: NewRows, now: Time, j: JobId)
    requires Sane(c, s) && Alone(s) && Enabled(c, s, CommitPlan(plan, ch, rows, now)) && SimplePlan(s.runs[plan].jobs, ch)
    ensures OwnVm(Apply(c, s, CommitPlan(plan, ch, rows, now)), j)
  {
    var after := Apply(c, s, CommitPlan(plan, ch, rows, now));
    assert RunOk(s, plan) && OwnVm(s, j);
    if j in ch.jobToVm && j in s.db.jobs {
      var t := ch.jobToVm[j].slot;
      assert t in rows.of.Keys && j in s.runs[plan].jobs.Keys;
      assert after.db.vms[rows.of[t]] == NewVm(ch.desired[t]);
    }
  }

  /** A release gives a VM back only to the job that is alone on it. */
  lemma {:induction false} AloneRelease(s: System, jobs: map<JobId, Job>, ids: set<JobId>, j: JobId)
    requires Alone(s) && jobs.Keys == s.db.jobs.Keys
    requires forall k :: k in jobs ==> jobs[k].vm == s.db.jobs[k].vm && jobs[k].req == s.db.jobs[k].req
    ensures OneEach(jobs)
    ensures j in jobs && jobs[j].vm.Some? && j !in s.released + ids ==>
              var v := jobs[j].vm.value;
              v in s.db.vms && Released(jobs, s.db.vms, ids)[v] == s.db.vms[v]
  {
    assert forall k :: k in jobs <==> k in s.db.jobs;
    assert OwnVm(s, j);
    if j in jobs && jobs[j].vm.Some? && j !in s.released + ids {
      var v := jobs[j].vm.value;
      assert forall k :: k in jobs && jobs[k].vm == Some(v) ==> k == j;
      assert OnVm(jobs, ids, v) == {};
    }
  }

  lemma {:induction false} AloneCancel(c: Config, s: System, cond: set<JobId>)
    requires Alone(s)
    ensures Alone(Apply(c, s, CancelJobs(cond)))
  {
    var after := Apply(c, s, CancelJobs(cond));
    forall j ensures OwnVm(after, j) && OneEach(after.db.jobs) {
      assert OwnVm(s, j);
      AloneRelease(s, after.db.jobs, CancelledNow(s.db, cond), j);
    }
  }

  lemma {:induction false} AloneReport(c: Config, s: System, vm: VmId, job: JobId, status: JobStatus)
    requires Alone(s) && AgentMaySet(status)
    ensures Alone(Apply(c, s, Report(vm, job, status)))
  {
    var after := Apply(c, s, Report(vm, job, status));
    forall j ensures OwnVm(after, j) && OneEach(after.db.jobs) {
      assert OwnVm(s, j);
      AloneRelease(s, after.db.jobs, if Final(status) then {job} else {}, j);
    }
  }

  /** Steps that neither commit nor release leave jobs on their VMs and VMs with their capacities; new jobs have none. */
  ghost predicate RowsStay(s: System, after: System) {
    && after.released == s.released
    && (forall j :: j in after.db.jobs && after.db.jobs[j].vm.Some? ==>
          j in s.db.jobs && after.db.jobs[j].vm == s.db.jobs[j].vm && after.db.jobs[j].req == s.db.jobs[j].req)
    && (forall v :: v in s.db.vms ==>
          v in after.db.vms && after.db.vms[v].total == s.db.vms[v].total && after.db.vms[v].idle == s.db.vms[v].idle)
  }

  lemma {:induction false} QuietJobs(c: Config, s: System, step: Step)
    requires Enabled(c, s, step) && !step.CommitPlan? && !step.CancelJobs? && !step.Report?
    ensures var jobs := Apply(c, s, step).db.jobs;
            forall j :: j in jobs && jobs[j].vm.Some? ==>
              j in s.db.jobs && jobs[j].vm == s.db.jobs[j].vm && jobs[j].req == s.db.jobs[j].req
  {
  }

  lemma {:induction false} QuietVms(c: Config, s: System, step: Step)
    requires Enabled(c, s, step) && !step.CommitPlan? && !step.CancelJobs? && !step.Report?
    ensures var vms := Apply(c, s, step).db.vms;
            forall v :: v in s.db.vms ==> v in vms && vms[v].total == s.db.vms[v].total && vms[v].idle == s.db.vms[v].idle
  {
  }

  lemma {:induction false} QuietRows(c: Config, s: System, step: Step)
    requires Enabled(c, s, step) && !step.CommitPlan? && !step.CancelJobs? && !step.Report?
    ensures RowsStay(s, Apply(c, s, step))
  {
    QuietJobs(c, s, step);
    QuietVms(c, s, step);
  }

  lemma {:induction false} AloneQuiet(s: System, after: System)
    requires Alone(s) && RowsStay(s, after)
    ensures Alone(after)
  {
    forall j ensures OwnVm(after, j) { assert OwnVm(s, j); }
  }

  lemma {:induction false} AloneStep(c: Config, s: System, step: Step)
    requires Sane(c, s) && Alone(s) && Enabled(c, s, step)
    requires step.CommitPlan? ==> SimplePlan(s.runs[step.plan].jobs, step.ch)
    ensures Alone(Apply(c, s, step))
  {
    match step
    case CommitPlan(plan, ch, rows, now) =>
      AloneOneEach(s, plan, ch, rows);
      forall j ensures OwnVm(Apply(c, s, step), j) { AloneCommit(c, s, plan, ch, rows, now, j); }
    case CancelJobs(cond) => AloneCancel(c, s, cond);
    case Report(vm, job, status) => AloneReport(c, s, vm, job, status);
    case _ =>
      QuietRows(c, s, step);
      AloneQuiet(s, Apply(c, s, step));
  }

  lemma {:induction false} AloneAt(c: Config, states: seq<System>, steps: seq<Step>, i: nat)
    requires SimpleRun(c, states, steps) && i < |states|
    ensures Alone(states[i])
  {
    if i > 0 {
      AloneAt(c, states, steps, i - 1);
      SaneAt(c, states, steps, i - 1);
      AloneStep(c, states[i - 1], steps[i - 1]);
    }
  }

  /** With the simple planner no VM is ever overcommitted, whatever is submitted, reported and cancelled, and in whatever
      order; so all its runs are safe. */
  lemma {:induction false} SimpleRunsSafe(c: Config, states: seq<System>, steps: seq<Step>)
    requires SimpleRun(c, states, steps)
    ensures SafeRun(c, states, steps) && forall i :: 0 <= i < |states| ==> VmLedgers(states[i])
  {
    forall i | 0 <= i < |states| ensures VmLedgers(states[i]) {
      AloneAt(c, states, steps, i);
      SaneAt(c, states, steps, i);
      forall v | v in states[i].db.vms { AloneLedger(c, states[i], v); }
    }
    LedgersExactly(c, states, steps);
  }
}
