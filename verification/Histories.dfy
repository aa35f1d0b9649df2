/** What no step takes back: rows, requirements, sizes, final statuses; and the order of plans. */
module Histories {
  import opened Plan
  import opened Store
  import opened Protocol

  /** Rows stay, requirements and sizes never change, restarts only grow, a final status is frozen. */
  ghost predicate Evolves(a: Db, b: Db) {
    && a.jobs.Keys <= b.jobs.Keys && a.vms.Keys <= b.vms.Keys && a.plans.Keys <= b.plans.Keys
    && (forall j :: j in a.jobs ==> JobEvolves(a.jobs[j], b.jobs[j]))
    && (forall v :: v in a.vms ==> a.vms[v].total == b.vms[v].total)
  }

  ghost predicate JobEvolves(a: Job, b: Job) {
    && a.req == b.req && a.task == b.task && a.restarts <= b.restarts
    && (Final(a.status) ==> a == b)
  }

  lemma {:induction false} CommitEvolves(db: Db, ch: StateChange, rows: NewRows, plan: PlanId, now: Time)
    requires FreshRows(db, ch, rows) && TargetsExist(ch) && plan in db.plans && NoConflicts(db, ch)
    ensures Evolves(db, Committed(db, ch, rows, plan, now))
  {
  }

  lemma {:induction false} CancelEvolves(db: Db, cond: set<JobId>)
    ensures Evolves(db, WithCancelled(db, cond))
  {
  }

  lemma {:induction false} ReportEvolves(db: Db, vm: VmId, job: JobId, status: JobStatus)
    ensures Evolves(db, WithReport(db, vm, job, status))
  {
  }

  lemma {:induction false} TerminateEvolves(
    db: Db, cond: set<VmId>, from: VmStatus, to: VmStatus, least: nat, jobLimit: nat)
    ensures Evolves(db, WithTerminated(db, cond, from, to, least, jobLimit))
  {
  }

  lemma {:induction false} InactiveEvolves(db: Db, cond: set<VmId>, jobLimit: nat)
    ensures Evolves(db, WithInactive(db, cond, jobLimit))
  {
  }

  lemma {:induction false} StepEvolves(c: Config, s: System, step: Step)
    requires Enabled(c, s, step)
    ensures Evolves(s.db, Apply(c, s, step).db)
  {
    match step
    case CommitPlan(plan, ch, rows, now) => CommitEvolves(s.db, ch, rows, plan, now);
    case CancelJobs(cond) => CancelEvolves(s.db, cond);
    case Report(vm, job, status) => ReportEvolves(s.db, vm, job, status);
    case TerminateAllocating(cond) => TerminateEvolves(s.db, cond, Allocating, Terminated, c.vmLimit, c.jobLimit);
    case TerminateSilent(cond) => TerminateEvolves(s.db, cond, Allocated, PendingTermination, 0, c.jobLimit);
    case TerminateInactive(cond) => InactiveEvolves(s.db, cond, c.jobLimit);
    case _ => OthersEvolve(c, s, step);
  }

  lemma {:induction false} OthersEvolve(c: Config, s: System, step: Step)
    requires Enabled(c, s, step) && !step.CommitPlan? && !step.CancelJobs? && !step.Report?
    requires !step.TerminateAllocating? && !step.TerminateSilent? && !step.TerminateInactive?
    ensures Evolves(s.db, Apply(c, s, step).db)
  {
  }

  /** A task that has jobs gets no more of them. */
  ghost predicate TasksClosed(a: Db, b: Db) {
    forall known, j :: known in a.jobs && j in b.jobs && b.jobs[j].task == a.jobs[known].task ==> j in a.jobs
  }

  lemma {:induction false} StepClosesTasks(c: Config, s: System, step: Step)
    requires Enabled(c, s, step)
    ensures TasksClosed(s.db, Apply(c, s, step).db)
  {
    StepEvolves(c, s, step);
    if !step.AddTask? {
      assert s.db.jobs.Keys == Apply(c, s, step).db.jobs.Keys;
    }
  }

  lemma {:induction false} EvolvesTrans(a: Db, b: Db, c: Db)
    requires Evolves(a, b) && Evolves(b, c)
    ensures Evolves(a, c)
  {
  }

  lemma {:induction false} ClosedTrans(a: Db, b: Db, c: Db)
    requires Evolves(a, b) && TasksClosed(a, b) && Evolves(b, c) && TasksClosed(b, c)
    ensures TasksClosed(a, c)
  {
    forall known, j | known in a.jobs && j in c.jobs && c.jobs[j].task == a.jobs[known].task
      ensures j in a.jobs
    {
      assert known in b.jobs && JobEvolves(a.jobs[known], b.jobs[known]);
      assert j in b.jobs && JobEvolves(b.jobs[j], c.jobs[j]);
    }
  }

  /** The tables along a run. */
  ghost function Tables(states: seq<System>): (dbs: seq<Db>)
    ensures |dbs| == |states| && forall i :: 0 <= i < |dbs| ==> dbs[i] == states[i].db
  {
    seq(|states|, i requires 0 <= i < |states| => states[i].db)
  }

  ghost predicate Chained(dbs: seq<Db>) {
    forall i :: 0 < i < |dbs| ==> Evolves(dbs[i - 1], dbs[i]) && TasksClosed(dbs[i - 1], dbs[i])
  }

  lemma {:induction false} RunChained(c: Config, states: seq<System>, steps: seq<Step>)
    requires IsRun(c, states, steps)
    ensures Chained(Tables(states))
  {
    forall i | 0 < i < |states|
      ensures Evolves(states[i - 1].db, states[i].db) && TasksClosed(states[i - 1].db, states[i].db)
    {
      StepEvolves(c, states[i - 1], steps[i - 1]);
      StepClosesTasks(c, states[i - 1], steps[i - 1]);
    }
  }

  lemma {:induction false} ChainEvolves(dbs: seq<Db>, i: nat, k: nat)
    requires Chained(dbs) && i <= k < |dbs|
    ensures Evolves(dbs[i], dbs[k]) && TasksClosed(dbs[i], dbs[k])
    decreases k
  {
    if i < k {
      ChainEvolves(dbs, i, k - 1);
      assert Evolves(dbs[k - 1], dbs[k]) && TasksClosed(dbs[k - 1], dbs[k]);
      EvolvesTrans(dbs[i], dbs[k - 1], dbs[k]);
      ClosedTrans(dbs[i], dbs[k - 1], dbs[k]);
    }
  }

  /** What one step keeps, every part of a run keeps. */
  lemma {:induction false} RunEvolves(c: Config, states: seq<System>, steps: seq<Step>, i: nat, k: nat)
    requires IsRun(c, states, steps) && i <= k < |states|
    ensures Evolves(states[i].db, states[k].db) && TasksClosed(states[i].db, states[k].db)
  {
    RunChained(c, states, steps);
    ChainEvolves(Tables(states), i, k);
  }

  /** Plan times: rows lie in the past, and every plan starts an interval after all earlier ones were last updated. */
  ghost predicate PlansOrdered(c: Config, s: System) {
    && (forall p :: p in s.db.plans ==> s.db.plans[p].created <= s.db.plans[p].updated <= s.clock)
    && (forall p, q :: p in s.db.plans && q in s.db.plans && p < q ==>
          s.db.plans[p].updated + c.interval <= s.db.plans[q].created)
    && (forall p :: p in s.runs ==> p in s.db.plans && s.db.plans[p].created <= s.runs[p].at <= s.clock)
  }

  ghost predicate Latest(db: Db, p: PlanId) {
    forall q :: q in db.plans ==> q <= p
  }

  /** The unique row of greatest update time belongs to the plan of greatest id. */
  lemma {:induction false} RelevantIsLatest(c: Config, s: System, p: PlanId)
    requires PlansOrdered(c, s) && Relevant(s.db, p)
    ensures Latest(s.db, p)
  {
  }

  lemma {:induction false} PlansCommit(c: Config, s: System, plan: PlanId, now: Time)
    requires PlansOrdered(c, s) && Relevant(s.db, plan) && plan in s.runs && s.runs[plan].at <= now <= s.clock
    ensures PlansOrdered(c, s.(db := s.db.(plans := s.db.plans[plan := s.db.plans[plan].(updated := now)]), runs := s.runs - {plan}))
  {
    RelevantIsLatest(c, s, plan);
  }

  lemma {:induction false} PlansStart(c: Config, s: System, plan: PlanId, now: Time)
    requires PlansOrdered(c, s) && now <= s.clock && MayStart(s.db, c.interval, now) && forall p :: p in s.db.plans ==> p < plan
    ensures PlansOrdered(c, s.(db := s.db.(plans := s.db.plans[plan := PlanRow(now, now)]), runs := s.runs[plan := Started(s.clock)]))
  {
  }

  lemma {:induction false} PlansStep(c: Config, s: System, step: Step)
    requires PlansOrdered(c, s) && Enabled(c, s, step)
    ensures PlansOrdered(c, Apply(c, s, step))
  {
    match step
    case CommitPlan(plan, ch, rows, now) => PlansCommit(c, s, plan, now);
    case StartScheduling(plan, now) => PlansStart(c, s, plan, now);
    case _ => PlansQuiet(c, s, Apply(c, s, step));
  }

  lemma {:induction false} PlansQuiet(c: Config, s: System, after: System)
    requires PlansOrdered(c, s) && after.db.plans == s.db.plans && s.clock <= after.clock
    requires forall p :: p in after.runs ==> p in s.runs && s.runs[p].at <= after.runs[p].at <= after.clock
    ensures PlansOrdered(c, after)
  {
  }

  lemma {:induction false} PlansAt(c: Config, states: seq<System>, steps: seq<Step>, i: nat)
    requires IsRun(c, states, steps) && i < |states|
    ensures PlansOrdered(c, states[i])
  {
    if i > 0 {
      PlansAt(c, states, steps, i - 1);
      PlansStep(c, states[i - 1], steps[i - 1]);
    }
  }

  /** In every run: update times grow with plan ids, and each plan waits out the interval. */
  lemma {:induction false} PlanSpacing(c: Config, states: seq<System>, steps: seq<Step>, i: nat, p: PlanId, q: PlanId)
    requires IsRun(c, states, steps) && i < |states|
    requires p in states[i].db.plans && q in states[i].db.plans && p < q
    ensures states[i].db.plans[p].updated + c.interval <= states[i].db.plans[q].created
    ensures states[i].db.plans[p].updated <= states[i].db.plans[q].updated
  {
    PlansAt(c, states, steps, i);
  }

  /** Once a newer plan record exists no older plan ever commits. */
  lemma {:induction false} NoStaleCommit(
    c: Config, states: seq<System>, steps: seq<Step>, i: nat, k: nat, p: PlanId, q: PlanId)
    requires IsRun(c, states, steps) && i <= k < |steps|
    requires q in states[i].db.plans && p < q
    ensures !(steps[k].CommitPlan? && steps[k].plan == p)
  {
    PlansAt(c, states, steps, k);
    RunEvolves(c, states, steps, i, k);
    if steps[k].CommitPlan? && steps[k].plan == p {
      RelevantIsLatest(c, states[k], p);
    }
  }

  /** A final job row never changes again; in particular a job that is being cancelled never becomes cancelled. */
  lemma {:induction false} FinalFrozen(c: Config, states: seq<System>, steps: seq<Step>, i: nat, k: nat, j: JobId)
    requires IsRun(c, states, steps) && i <= k < |states|
    requires j in states[i].db.jobs && Final(states[i].db.jobs[j].status)
    ensures j in states[k].db.jobs && states[k].db.jobs[j] == states[i].db.jobs[j]
  {
    RunEvolves(c, states, steps, i, k);
  }

  /** Plan `p` was committed at `t` and is in flight no more. */
  ghost predicate Stamped(s: System, p: PlanId, t: Time) {
    p in s.db.plans && p !in s.runs && s.db.plans[p].updated == t
  }

  lemma {:induction false} StampedStep(c: Config, s: System, step: Step, p: PlanId, t: Time)
    requires Enabled(c, s, step) && Stamped(s, p, t)
    ensures Stamped(Apply(c, s, step), p, t)
  {
  }

  lemma {:induction false} CommitStamps(c: Config, s: System, step: Step)
    requires Enabled(c, s, step) && step.CommitPlan?
    ensures Stamped(Apply(c, s, step), step.plan, step.now)
  {
  }

  /** A commit stamps its plan's row with the commit's time, for good. */
  lemma {:induction false} StampedSince(c: Config, states: seq<System>, steps: seq<Step>, i: nat, k: nat)
    requires IsRun(c, states, steps) && i < k < |states| && steps[i].CommitPlan?
    ensures Stamped(states[k], steps[i].plan, steps[i].now)
    decreases k
  {
    if i + 1 == k {
      CommitStamps(c, states[i], steps[i]);
    } else {
      StampedSince(c, states, steps, i, k - 1);
      StampedStep(c, states[k - 1], steps[k - 1], steps[i].plan, steps[i].now);
    }
  }

  /** No scheduling starts before the interval after any earlier commit is over. */
  lemma {:induction false} StartAfterCommit(c: Config, states: seq<System>, steps: seq<Step>, i: nat, k: nat)
    requires IsRun(c, states, steps) && i < k < |steps| && steps[i].CommitPlan? && steps[k].StartScheduling?
    ensures steps[i].now + c.interval <= steps[k].now
  {
    StampedSince(c, states, steps, i, k);
    assert Enabled(c, states[k], steps[k]);
  }

  /** Any two commits of a run are at least the interval apart. */
  lemma {:induction false} CommitSpacing(c: Config, states: seq<System>, steps: seq<Step>, i: nat, k: nat)
    requires IsRun(c, states, steps) && i < k < |steps| && steps[i].CommitPlan? && steps[k].CommitPlan?
    ensures steps[i].plan < steps[k].plan && steps[i].now + c.interval <= steps[k].now
  {
    StampedSince(c, states, steps, i, k);
    PlansAt(c, states, steps, k);
    assert Enabled(c, states[k], steps[k]);
    RelevantIsLatest(c, states[k], steps[k].plan);
  }
}
