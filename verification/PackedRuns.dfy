/** Runs whose plans come from the packing planner: safety as a condition on the tasks and the catalogue. */
module PackedRuns {
  import opened Capacity
  import opened Search
  import opened Plan
  import opened Store
  import opened Protocol
  import opened Histories
  import opened Budgets
  import opened Overcommit

  /** What the packing planner guarantees beyond a sound plan. */
  ghost predicate PackingPlan(catalogue: seq<Slot>, req: map<JobId, Slot>, ch: StateChange) {
    && ch.jobToVm.Keys <= req.Keys && OversizedLose(catalogue, req, ch)
    && (forall t :: t in ch.desired ==> ch.desired[t].total in catalogue)
  }

  lemma {:induction false} OfferedSize(catalogue: seq<Slot>, req: map<JobId, Slot>, ch: StateChange, t: SlotId)
    requires PackingPlan(catalogue, req, ch) && t in ch.desired
    ensures ch.desired[t].total in catalogue
  {
  }

  ghost predicate PackingStep(c: Config, s: System, step: Step)
    requires Enabled(c, s, step)
  {
    step.CommitPlan? ==> PackingPlan(c.catalogue, s.runs[step.plan].jobs, step.ch)
  }

  ghost predicate PackedRun(c: Config, states: seq<System>, steps: seq<Step>) {
    && IsRun(c, states, steps) && |c.catalogue| > 0
    && forall i :: 0 <= i < |steps| ==> PackingStep(c, states[i], steps[i])
  }

  ghost predicate SizesOffered(c: Config, s: System) {
    forall v :: v in s.db.vms ==> s.db.vms[v].total in c.catalogue
  }

  lemma {:induction false} SizesStep(c: Config, s: System, step: Step)
    requires Enabled(c, s, step) && PackingStep(c, s, step) && SizesOffered(c, s)
    ensures SizesOffered(c, Apply(c, s, step))
  {
    var after := Apply(c, s, step);
    StepEvolves(c, s, step);
    forall v | v in after.db.vms
      ensures after.db.vms[v].total in c.catalogue
    {
      if v in s.db.vms {
        assert after.db.vms[v].total == s.db.vms[v].total && s.db.vms[v].total in c.catalogue;
      } else {
        assert step.CommitPlan? && v in step.rows.slot && step.rows.slot[v] in step.rows.of.Keys;
        assert after.db.vms[v] == NewVm(step.ch.desired[step.rows.slot[v]]);
        OfferedSize(c.catalogue, s.runs[step.plan].jobs, step.ch, step.rows.slot[v]);
      }
    }
  }

  /** Every VM a packed run ever has is of a size the catalogue offers. */
  lemma {:induction false} SizesAt(c: Config, states: seq<System>, steps: seq<Step>, i: nat)
    requires PackedRun(c, states, steps) && i < |states|
    ensures SizesOffered(c, states[i])
  {
    if i > 0 {
      SizesAt(c, states, steps, i - 1);
      SizesStep(c, states[i - 1], steps[i - 1]);
    }
  }

  /** A new VM's ledger is in order exactly when the jobs the plan puts on it fit some size. */
  lemma {:induction false} NewLedgerFits(
    c: Config, s: System, plan: PlanId, ch: StateChange, rows: NewRows, now: Time, v: VmId)
    requires Sane(c, s) && Enabled(c, s, CommitPlan(plan, ch, rows, now)) && v in rows.slot
    requires |c.catalogue| > 0 && Complete(c.catalogue) && PackingPlan(c.catalogue, s.runs[plan].jobs, ch)
    ensures VmLedger(Apply(c, s, CommitPlan(plan, ch, rows, now)), v) <==>
            FittingJobs(c.catalogue, s.runs[plan].jobs, Preimage(ch.jobToVm, New(rows.slot[v])))
  {
    var req, t := s.runs[plan].jobs, rows.slot[v];
    var put := Preimage(ch.jobToVm, New(t));
    NewLedger(c, s, plan, ch, rows, now, v);
    if FittingJobs(c.catalogue, req, put) {
      forall j | j in put ensures j in req && Placeable(c.catalogue, req[j]) {
        FittingIsPlaceable(c.catalogue, req[j]);
      }
      assert PlaceableJobs(c.catalogue, req, put);
    }
  }

  /** A plan is safe to commit exactly when every job of the queue it was computed from fits some size. */
  lemma {:induction false} SafeIffQueueFits(
    c: Config, s: System, plan: PlanId, ch: StateChange, rows: NewRows, now: Time)
    requires Sane(c, s) && SizesOffered(c, s) && Enabled(c, s, CommitPlan(plan, ch, rows, now))
    requires |c.catalogue| > 0 && Complete(c.catalogue) && PackingPlan(c.catalogue, s.runs[plan].jobs, ch)
    ensures Safe(c, s, CommitPlan(plan, ch, rows, now)) <==>
            FittingJobs(c.catalogue, s.runs[plan].jobs, s.runs[plan].jobs.Keys)
  {
    var snap := s.runs[plan].vms;
    assert RunOk(s, plan);
    forall v | v in snap ensures FitsSome(c.catalogue, snap[v].idle) {
      assert snap[v].idle.Fits(s.db.vms[v].total) && s.db.vms[v].total in c.catalogue;
    }
    ConservedIffQueueFits(c.catalogue, s.runs[plan].jobs, snap, ch);
  }

  /** A job of a task that some plan assigns. */
  ghost predicate Planned(steps: seq<Step>, k: nat, i: nat, j: JobId) {
    && k < |steps| && i < |steps|
    && steps[k].AddTask? && j in steps[k].ids && steps[i].CommitPlan? && j in steps[i].ch.jobToVm
  }

  /** Every job came in with a task, whose requirement it keeps. */
  lemma {:induction false} JobFromTask(c: Config, states: seq<System>, steps: seq<Step>, i: nat, j: JobId) returns (k: nat)
    requires IsRun(c, states, steps) && i < |states| && j in states[i].db.jobs
    ensures k < i && steps[k].AddTask? && j in steps[k].ids && states[i].db.jobs[j].req == steps[k].req
  {
    var s, step := states[i - 1], steps[i - 1];
    if j in s.db.jobs {
      k := JobFromTask(c, states, steps, i - 1, j);
      StepEvolves(c, s, step);
      assert JobEvolves(s.db.jobs[j], states[i].db.jobs[j]);
    } else {
      assert step.AddTask?;
      k := i - 1;
    }
  }

  /** A job's task is determined by its id. */
  lemma {:induction false} TaskOfJob(
    c: Config, states: seq<System>, steps: seq<Step>, k: nat, i: nat, j: JobId)
    requires IsRun(c, states, steps) && k < |steps| && i < |states| && j in states[i].db.jobs
    requires steps[k].AddTask? && j in steps[k].ids
    ensures states[i].db.jobs[j].req == steps[k].req
  {
    assert j !in states[k].db.jobs && j in states[k + 1].db.jobs;
    if i <= k {
      RunEvolves(c, states, steps, i, k);
    } else {
      RunEvolves(c, states, steps, k + 1, i);
      assert JobEvolves(states[k + 1].db.jobs[j], states[i].db.jobs[j]);
    }
  }

  /** The queue of a commit fits exactly when the tasks of the jobs it plans do. */
  lemma {:induction false} QueueIffTasks(c: Config, states: seq<System>, steps: seq<Step>, i: nat)
    requires IsRun(c, states, steps) && i < |steps| && steps[i].CommitPlan?
    ensures var req := states[i].runs[steps[i].plan].jobs;
            FittingJobs(c.catalogue, req, req.Keys) <==>
            forall k: nat, j :: Planned(steps, k, i, j) ==> FitsSome(c.catalogue, steps[k].req)
  {
    var s, step := states[i], steps[i];
    var req := s.runs[step.plan].jobs;
    SaneAt(c, states, steps, i);
    assert RunOk(s, step.plan);
    if FittingJobs(c.catalogue, req, req.Keys) {
      forall k: nat, j | Planned(steps, k, i, j) ensures FitsSome(c.catalogue, steps[k].req) {
        assert j in step.ch.jobToVm.Keys && j in req.Keys;
        TaskOfJob(c, states, steps, k, i, j);
      }
    }
    if forall k: nat, j :: Planned(steps, k, i, j) ==> FitsSome(c.catalogue, steps[k].req) {
      forall j | j in req.Keys ensures FitsSome(c.catalogue, req[j]) {
        var k := JobFromTask(c, states, steps, i, j);
        assert j in step.ch.jobToVm.Keys;
        assert Planned(steps, k, i, j);
      }
    }
  }

  /** The condition on the tasks: those that get planned fit some size of the catalogue. */
  ghost predicate TasksFit(c: Config, steps: seq<Step>) {
    forall k: nat, i: nat, j :: Planned(steps, k, i, j) ==> FitsSome(c.catalogue, steps[k].req)
  }

  /** The condition on the agents: reports find room for what they release. */
  ghost predicate ReportsInRoom(states: seq<System>, steps: seq<Step>)
    requires |states| == |steps| + 1
  {
    forall i :: 0 <= i < |steps| && steps[i].Report? ==> ReleaseInRoom(states[i], steps[i].vm, steps[i].job, steps[i].status)
  }

  /** One step of the equivalence. */
  lemma {:induction false} StepIffTasks(c: Config, states: seq<System>, steps: seq<Step>, i: nat)
    requires PackedRun(c, states, steps) && Complete(c.catalogue) && i < |steps|
    ensures Safe(c, states[i], steps[i]) <==>
            && (steps[i].Report? ==> ReleaseInRoom(states[i], steps[i].vm, steps[i].job, steps[i].status))
            && (forall k: nat, j :: Planned(steps, k, i, j) ==> FitsSome(c.catalogue, steps[k].req))
  {
    if steps[i].CommitPlan? {
      SaneAt(c, states, steps, i);
      SizesAt(c, states, steps, i);
      assert PackingStep(c, states[i], steps[i]);
      SafeIffQueueFits(c, states[i], steps[i].plan, steps[i].ch, steps[i].rows, steps[i].now);
      QueueIffTasks(c, states, steps, i);
    }
  }

  /** Overcommit of packed runs, exactly: with a complete catalogue all ledgers are in order in all states if and only if
      every task that gets planned fits some size and every final report finds room for what it releases. */
  lemma {:induction false} PackedLedgersExactly(c: Config, states: seq<System>, steps: seq<Step>)
    requires PackedRun(c, states, steps) && Complete(c.catalogue)
    ensures (forall i :: 0 <= i < |states| ==> VmLedgers(states[i])) <==>
            TasksFit(c, steps) && ReportsInRoom(states, steps)
  {
    LedgersExactly(c, states, steps);
    forall i | 0 <= i < |steps|
      ensures Safe(c, states[i], steps[i]) <==>
              && (steps[i].Report? ==> ReleaseInRoom(states[i], steps[i].vm, steps[i].job, steps[i].status))
              && (forall k: nat, j :: Planned(steps, k, i, j) ==> FitsSome(c.catalogue, steps[k].req))
    {
      StepIffTasks(c, states, steps, i);
    }
    if SafeRun(c, states, steps) {
      forall k: nat, i: nat, j | Planned(steps, k, i, j) ensures FitsSome(c.catalogue, steps[k].req) {
        assert Safe(c, states[i], steps[i]);
      }
    }
  }

  /** Whatever planner and catalogue: a sound plan for placeable tasks is safe to commit. */
  lemma {:induction false} PlaceableTasksSafe(c: Config, states: seq<System>, steps: seq<Step>)
    requires IsRun(c, states, steps) && |c.catalogue| > 0 && ReportsInRoom(states, steps)
    requires forall k :: 0 <= k < |steps| && steps[k].AddTask? ==> Placeable(c.catalogue, steps[k].req)
    ensures SafeRun(c, states, steps)
  {
    forall i | 0 <= i < |steps| && steps[i].CommitPlan?
      ensures Safe(c, states[i], steps[i])
    {
      PlaceableQueue(c, states, steps, i);
      PlanConserves(c.catalogue, states[i].runs[steps[i].plan].jobs, states[i].runs[steps[i].plan].vms, steps[i].ch);
    }
  }

  lemma {:induction false} PlaceableQueue(c: Config, states: seq<System>, steps: seq<Step>, i: nat)
    requires IsRun(c, states, steps) && |c.catalogue| > 0 && i < |steps| && steps[i].CommitPlan?
    requires forall k :: 0 <= k < |steps| && steps[k].AddTask? ==> Placeable(c.catalogue, steps[k].req)
    ensures AllPlaceable(c.catalogue, states[i].runs[steps[i].plan].jobs)
  {
    SaneAt(c, states, steps, i);
    assert RunOk(states[i], steps[i].plan);
    var req := states[i].runs[steps[i].plan].jobs;
    forall j | j in req ensures Placeable(c.catalogue, req[j]) {
      var k := JobFromTask(c, states, steps, i, j);
    }
  }
}
