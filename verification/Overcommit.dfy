/** When no VM is overcommitted and no VM in use is given up, over all interleavings. */
module Overcommit {
  import opened Capacity
  import opened Plan
  import opened Store
  import opened Protocol
  import opened Histories
  import opened Budgets

  /** The jobs whose rows name a VM and whose resources were not released. */
  ghost function HeldJobs(jobs: map<JobId, Job>, released: set<JobId>, v: VmId): set<JobId> {
    set j | j in jobs && jobs[j].vm == Some(v) && j !in released
  }

  ghost function Held(jobs: map<JobId, Job>, released: set<JobId>, v: VmId): Slot {
    Total(HeldJobs(jobs, released, v), Reqs(jobs))
  }

  /** Idle capacity and what is held fit into every VM. */
  ghost predicate VmLedgers(s: System) {
    forall v :: v in s.db.vms ==> VmLedger(s, v)
  }

  ghost predicate VmLedger(s: System, v: VmId) {
    v in s.db.vms && s.db.vms[v].total.Covers(s.db.vms[v].idle, Held(s.db.jobs, s.released, v))
  }

  /** The same of the idle capacities that the latest schedule() call may write back. */
  ghost predicate SnapLedgers(s: System) {
    forall p :: p in s.runs && s.runs[p].SawVms? && Latest(s.db, p) ==> SnapLedger(s, s.runs[p].vms)
  }

  ghost predicate SnapLedger(s: System, snap: map<VmId, ActiveVm>) {
    forall v :: v in snap ==> snap[v].total.Covers(snap[v].idle, Held(s.db.jobs, s.released, v))
  }

  /** Giving `req` back to a VM, capped at its total, leaves room for what is held. */
  ghost predicate RoomToSpare(total: Slot, idle: Slot, held: Slot, req: Slot) {
    && (held.cpu == 0 || idle.cpu + req.cpu + held.cpu <= total.cpu)
    && (held.ram == 0 || idle.ram + req.ram + held.ram <= total.ram)
  }

  /** A final report releases a job that was not released before, or the VM has room to release it once more. */
  ghost predicate ReleaseInRoom(s: System, vm: VmId, job: JobId, status: JobStatus) {
    Final(status) && ReportAccepted(s.db, vm, job, status) && job in s.released && vm in s.db.vms ==>
      RoomToSpare(s.db.vms[vm].total, s.db.vms[vm].idle, Held(s.db.jobs, s.released, vm), s.db.jobs[job].req)
  }

  /** A step that may be taken safely: a report finds room for what it releases, a plan conserves capacity. */
  ghost predicate Safe(c: Config, s: System, step: Step)
    requires Enabled(c, s, step)
  {
    match step
    case Report(vm, job, status) => ReleaseInRoom(s, vm, job, status)
    case CommitPlan(plan, ch, rows, now) => Conserved(s.runs[plan].jobs, s.runs[plan].vms, ch)
    case _ => true
  }

  /** Less is held when jobs only leave a VM. */
  lemma {:induction false} HeldShrinks(
    jobs: map<JobId, Job>, released: set<JobId>, jobs': map<JobId, Job>, released': set<JobId>, v: VmId)
    requires HeldJobs(jobs', released', v) <= HeldJobs(jobs, released, v)
    requires forall j :: j in jobs && j in jobs' ==> jobs[j].req == jobs'[j].req
    ensures Held(jobs', released', v).Fits(Held(jobs, released, v))
  {
    var held := HeldJobs(jobs', released', v);
    forall j | j in held
      ensures j in jobs && jobs[j].req == jobs'[j].req
    {
      assert j in HeldJobs(jobs, released, v);
    }
    TotalAgree(held, Reqs(jobs'), Reqs(jobs));
    TotalSubset(held, HeldJobs(jobs, released, v), Reqs(jobs));
  }

  lemma {:induction false} HeldStep(c: Config, s: System, step: Step, v: VmId)
    requires Sane(c, s) && Enabled(c, s, step) && !step.CommitPlan?
    ensures Held(Apply(c, s, step).db.jobs, Apply(c, s, step).released, v).Fits(Held(s.db.jobs, s.released, v))
  {
    var after := Apply(c, s, step);
    StepEvolves(c, s, step);
    assert HeldJobs(after.db.jobs, after.released, v) <= HeldJobs(s.db.jobs, s.released, v);
    HeldShrinks(s.db.jobs, s.released, after.db.jobs, after.released, v);
  }

  /** Pure arithmetic of a capped release. */
  lemma {:induction false} ReleaseFits(total: Slot, idle: Slot, held: Slot, freed: Slot, rest: Slot)
    requires total.Covers(idle, held) && held.IsSum(freed, rest)
    ensures total.Covers(idle.Plus(freed).Least(total), rest)
  {
  }

  /** A release of jobs that hold capacity keeps the ledger of every VM. */
  lemma {:induction false} ReleaseLedger(
    jobs: map<JobId, Job>, vms: map<VmId, Vm>, released: set<JobId>, ids: set<JobId>, v: VmId)
    requires v in vms && ids !! released && vms[v].total.Covers(vms[v].idle, Held(jobs, released, v))
    ensures vms[v].total.Covers(Released(jobs, vms, ids)[v].idle, Held(jobs, released + ids, v))
  {
    var freed, held := OnVm(jobs, ids, v), HeldJobs(jobs, released, v);
    var rest := HeldJobs(jobs, released + ids, v);
    assert freed + rest == held;
    TotalUnion(freed, rest, Reqs(jobs));
    if freed == {} {
      assert rest == held;
    } else {
      ReleaseFits(vms[v].total, vms[v].idle, Held(jobs, released, v), Total(freed, Reqs(jobs)), Total(rest, Reqs(jobs)));
    }
  }

  /** Changing statuses only leaves what is held as it was. */
  lemma {:induction false} HeldSame(jobs: map<JobId, Job>, jobs': map<JobId, Job>, released: set<JobId>, v: VmId)
    requires jobs.Keys == jobs'.Keys
    requires forall j :: j in jobs ==> jobs[j].vm == jobs'[j].vm && jobs[j].req == jobs'[j].req
    ensures Held(jobs', released, v) == Held(jobs, released, v)
  {
    forall j
      ensures j in jobs <==> j in jobs'
      ensures j in jobs ==> jobs[j].vm == jobs'[j].vm && jobs[j].req == jobs'[j].req
    {
      assert j in jobs.Keys <==> j in jobs'.Keys;
    }
    assert HeldJobs(jobs', released, v) == HeldJobs(jobs, released, v);
    TotalAgree(HeldJobs(jobs, released, v), Reqs(jobs), Reqs(jobs'));
  }

  lemma {:induction false} CancelLedger(c: Config, s: System, cond: set<JobId>, v: VmId)
    requires LinksOk(s) && VmLedger(s, v)
    ensures VmLedger(Apply(c, s, CancelJobs(cond)), v)
  {
    var jobs := CancelledJobs(s.db.jobs, cond);
    assert Held(jobs, s.released, v) == Held(s.db.jobs, s.released, v) by { HeldSame(s.db.jobs, jobs, s.released, v); }
    assert forall j :: j in CancelledNow(s.db, cond) ==> j !in s.released;
    ReleaseLedger(jobs, s.db.vms, s.released, CancelledNow(s.db, cond), v);
  }

  lemma {:induction false} FirstReportLedger(c: Config, s: System, vm: VmId, job: JobId, status: JobStatus, v: VmId)
    requires AgentMaySet(status) && (Final(status) ==> job !in s.released) && VmLedger(s, v)
    ensures VmLedger(Apply(c, s, Report(vm, job, status)), v)
  {
    if ReportAccepted(s.db, vm, job, status) {
      var jobs := ReportedJobs(s.db.jobs, job, status);
      assert Held(jobs, s.released, v) == Held(s.db.jobs, s.released, v) by { HeldSame(s.db.jobs, jobs, s.released, v); }
      if Final(status) {
        ReleaseLedger(jobs, s.db.vms, s.released, {job}, v);
      }
    }
  }

  lemma {:induction false} RoomExactly(total: Slot, idle: Slot, held: Slot, req: Slot)
    requires total.Covers(idle, held)
    ensures total.Covers(idle.Plus(req).Least(total), held) <==> RoomToSpare(total, idle, held, req)
  {
  }

  /** A further final report of a released job gives its requirement back once more, and nothing else. */
  lemma {:induction false} ReleasedAgain(c: Config, s: System, vm: VmId, job: JobId, status: JobStatus, v: VmId)
    requires AgentMaySet(status) && Final(status) && ReportAccepted(s.db, vm, job, status)
    requires job in s.released && v in s.db.vms
    ensures var after := Apply(c, s, Report(vm, job, status));
            && v in after.db.vms && Held(after.db.jobs, after.released, v) == Held(s.db.jobs, s.released, v)
            && after.db.vms[v].total == s.db.vms[v].total
            && after.db.vms[v].idle == if v != vm then s.db.vms[v].idle
                                       else s.db.vms[v].idle.Plus(s.db.jobs[job].req).Least(s.db.vms[v].total)
  {
    var after := Apply(c, s, Report(vm, job, status));
    assert after.released == s.released;
    HeldSame(s.db.jobs, after.db.jobs, s.released, v);
    if v == vm {
      assert OnVm(after.db.jobs, {job}, v) == {job};
      TotalSingle(job, Reqs(after.db.jobs));
    } else {
      assert OnVm(after.db.jobs, {job}, v) == {};
    }
  }

  /** A final report keeps the ledgers exactly when it is the job's first release, or the VM has room to spare for
      releasing the job once more. */
  lemma {:induction false} FinalReportExactly(c: Config, s: System, vm: VmId, job: JobId, status: JobStatus)
    requires Sane(c, s) && VmLedgers(s) && AgentMaySet(status) && Final(status) && ReportAccepted(s.db, vm, job, status)
    ensures vm in s.db.vms
    ensures VmLedgers(Apply(c, s, Report(vm, job, status))) <==>
            job !in s.released ||
            RoomToSpare(s.db.vms[vm].total, s.db.vms[vm].idle, Held(s.db.jobs, s.released, vm), s.db.jobs[job].req)
  {
    var after := Apply(c, s, Report(vm, job, status));
    assert after.db.vms.Keys == s.db.vms.Keys;
    if job !in s.released {
      forall v | v in s.db.vms { FirstReportLedger(c, s, vm, job, status, v); }
    } else {
      assert VmLedger(s, vm);
      RoomExactly(s.db.vms[vm].total, s.db.vms[vm].idle, Held(s.db.jobs, s.released, vm), s.db.jobs[job].req);
      forall v | v in s.db.vms
        ensures VmLedger(after, v) <==> v != vm || RoomToSpare(
                  s.db.vms[vm].total, s.db.vms[vm].idle, Held(s.db.jobs, s.released, vm), s.db.jobs[job].req)
      {
        assert VmLedger(s, v);
        ReleasedAgain(c, s, vm, job, status, v);
      }
    }
  }

  /** The same of any report. */
  lemma {:induction false} ReportExactly(c: Config, s: System, vm: VmId, job: JobId, status: JobStatus)
    requires Sane(c, s) && VmLedgers(s) && AgentMaySet(status)
    ensures VmLedgers(Apply(c, s, Report(vm, job, status))) <==> ReleaseInRoom(s, vm, job, status)
  {
    if Final(status) && ReportAccepted(s.db, vm, job, status) {
      FinalReportExactly(c, s, vm, job, status);
    } else {
      var after := Apply(c, s, Report(vm, job, status));
      assert after.released == s.released && after.db.vms == s.db.vms;
      forall v | v in after.db.vms ensures VmLedger(after, v) {
        if ReportAccepted(s.db, vm, job, status) {
          FirstReportLedger(c, s, vm, job, status, v);
        } else {
          assert VmLedger(s, v);
        }
      }
    }
  }

  /** Jobs on an old VM after a commit held it before, or the plan put them there. */
  lemma {:induction false} HeldOrPut(
    jobs: map<JobId, Job>, ch: StateChange, rows: NewRows, released: set<JobId>, v: VmId, j: JobId)
    requires TargetsExist(ch) && rows.of.Keys == ch.desired.Keys && v !in rows.slot
    requires forall t :: t in rows.of ==> rows.of[t] in rows.slot
    requires j in HeldJobs(CommittedJobs(jobs, ch, rows), released, v)
    ensures j in HeldJobs(jobs, released, v) + Preimage(ch.jobToVm, Existing(v))
  {
    if j in ch.jobToVm {
      assert RowOf(ch.jobToVm[j], rows) == v;
    }
  }

  /** So at most the plan's load is added to what an old VM holds. */
  lemma {:induction false} HeldAdds(
    jobs: map<JobId, Job>, ch: StateChange, rows: NewRows, released: set<JobId>, v: VmId, req: map<JobId, Slot>)
    requires TargetsExist(ch) && rows.of.Keys == ch.desired.Keys && v !in rows.slot
    requires forall t :: t in rows.of ==> rows.of[t] in rows.slot
    requires ch.jobToVm.Keys <= req.Keys && forall j :: j in req ==> j in jobs && jobs[j].req == req[j]
    ensures Held(CommittedJobs(jobs, ch, rows), released, v).Within(
              Held(jobs, released, v), Load(ch, req, Existing(v)))
  {
    var held, put := HeldJobs(jobs, released, v), Preimage(ch.jobToVm, Existing(v));
    var after := CommittedJobs(jobs, ch, rows);
    var held' := HeldJobs(after, released, v);
    forall j | j in held' { HeldOrPut(jobs, ch, rows, released, v, j); }
    forall j | j in put ensures j in req && j in jobs && jobs[j].req == req[j] { assert j in ch.jobToVm.Keys; }
    TotalAgree(put, req, Reqs(jobs));
    TotalAgree(held', Reqs(after), Reqs(jobs));
    TotalSplit(held', held, put, Reqs(jobs));
  }

  lemma {:induction false} CommitHeldOld(c: Config, s: System, plan: PlanId, ch: StateChange, rows: NewRows, now: Time, v: VmId)
    requires Sane(c, s) && Enabled(c, s, CommitPlan(plan, ch, rows, now)) && v in s.db.vms
    ensures var after := Apply(c, s, CommitPlan(plan, ch, rows, now));
            Held(after.db.jobs, after.released, v).Within(
              Held(s.db.jobs, s.released, v), Load(ch, s.runs[plan].jobs, Existing(v)))
  {
    assert RunOk(s, plan);
    HeldAdds(s.db.jobs, ch, rows, s.released, v, s.runs[plan].jobs);
  }

  /** Jobs on a new VM after a commit are exactly those the plan put into its slot. */
  lemma {:induction false} CommitHeldNew(c: Config, s: System, plan: PlanId, ch: StateChange, rows: NewRows, now: Time, v: VmId)
    requires Sane(c, s) && Enabled(c, s, CommitPlan(plan, ch, rows, now)) && v in rows.slot
    ensures var after := Apply(c, s, CommitPlan(plan, ch, rows, now));
            Held(after.db.jobs, after.released, v) == Load(ch, s.runs[plan].jobs, New(rows.slot[v]))
  {
    var after := Apply(c, s, CommitPlan(plan, ch, rows, now));
    var put := Preimage(ch.jobToVm, New(rows.slot[v]));
    var held' := HeldJobs(after.db.jobs, after.released, v);
    assert RunOk(s, plan);
    forall j | j in held'
      ensures j in put
    {
      assert j in ch.jobToVm;
      match ch.jobToVm[j]
      case Existing(u) =>
      case New(t) => assert t in rows.of.Keys;
    }
    forall j | j in put
      ensures j in held' && after.db.jobs[j].req == s.runs[plan].jobs[j]
    {
      assert j in ch.jobToVm.Keys && j in s.runs[plan].jobs.Keys && rows.slot[v] in rows.of.Keys;
    }
    assert held' == put;
    TotalAgree(held', Reqs(after.db.jobs), s.runs[plan].jobs);
  }

  /** A new VM's ledger is in order when its slot has exactly the load in use. */
  lemma {:induction false} NewLedger(
    c: Config, s: System, plan: PlanId, ch: StateChange, rows: NewRows, now: Time, v: VmId)
    requires Sane(c, s) && Enabled(c, s, CommitPlan(plan, ch, rows, now)) && v in rows.slot
    ensures rows.slot[v] in ch.desired
    ensures VmLedger(Apply(c, s, CommitPlan(plan, ch, rows, now)), v) <==>
            var slot := ch.desired[rows.slot[v]];
            slot.total.IsSum(slot.idle, Load(ch, s.runs[plan].jobs, New(rows.slot[v])))
  {
    assert rows.slot[v] in rows.of.Keys;
    CommitHeldNew(c, s, plan, ch, rows, now, v);
    assert ch.desired[rows.slot[v]].total.Within(
        ch.desired[rows.slot[v]].idle, Load(ch, s.runs[plan].jobs, New(rows.slot[v])));
  }

  /** Pure arithmetic of a charged VM. */
  lemma {:induction false} ChargeFits(total: Slot, snapIdle: Slot, idle: Slot, held: Slot, load: Slot, held': Slot)
    requires total.Covers(snapIdle, held) && snapIdle.IsSum(idle, load) && held'.Within(held, load)
    ensures total.Covers(idle, held')
  {
  }

  lemma {:induction false} CommitLedgerOld(
    c: Config, s: System, plan: PlanId, ch: StateChange, rows: NewRows, now: Time, v: VmId)
    requires Sane(c, s) && VmLedgers(s) && SnapLedgers(s)
    requires Enabled(c, s, CommitPlan(plan, ch, rows, now)) && v in s.db.vms
    ensures var after := Apply(c, s, CommitPlan(plan, ch, rows, now));
            s.db.vms[v].total.Covers(CommittedVm(ch, v, s.db.vms[v]).idle, Held(after.db.jobs, after.released, v))
  {
    var after := Apply(c, s, CommitPlan(plan, ch, rows, now));
    var snap, req := s.runs[plan].vms, s.runs[plan].jobs;
    var held, held' := Held(s.db.jobs, s.released, v), Held(after.db.jobs, after.released, v);
    CommitHeldOld(c, s, plan, ch, rows, now, v);
    if v in ch.updatedIdle {
      RelevantIsLatest(c, s, plan);
      assert SnapLedger(s, snap) && RunOk(s, plan) && v in snap;
      ChargeFits(s.db.vms[v].total, snap[v].idle, ch.updatedIdle[v], held, Load(ch, req, Existing(v)), held');
    } else {
      UnchargedEmpty(req, ch, v);
    }
  }

  /** The new VMs of a commit have their ledgers in order exactly when no slot of the plan is too small. */
  lemma {:induction false} NewLedgers(c: Config, s: System, plan: PlanId, ch: StateChange, rows: NewRows, now: Time)
    requires Sane(c, s) && Enabled(c, s, CommitPlan(plan, ch, rows, now))
    ensures (forall v :: v in rows.slot ==> VmLedger(Apply(c, s, CommitPlan(plan, ch, rows, now)), v)) <==>
            SlotsExact(s.runs[plan].jobs, ch)
  {
    var after := Apply(c, s, CommitPlan(plan, ch, rows, now));
    if SlotsExact(s.runs[plan].jobs, ch) {
      forall v | v in rows.slot ensures VmLedger(after, v) { NewLedger(c, s, plan, ch, rows, now, v); }
    }
    if forall v :: v in rows.slot ==> VmLedger(after, v) {
      forall t | t in ch.desired
        ensures ch.desired[t].total.IsSum(ch.desired[t].idle, Load(ch, s.runs[plan].jobs, New(t)))
      {
        assert t in rows.of.Keys;
        NewLedger(c, s, plan, ch, rows, now, rows.of[t]);
      }
    }
  }

  /** A commit keeps the ledgers exactly when its plan conserves capacity, although releases, restarts and
      cancellations may have come after the plan's read. */
  lemma {:induction false} CommitExactly(c: Config, s: System, plan: PlanId, ch: StateChange, rows: NewRows, now: Time)
    requires Sane(c, s) && VmLedgers(s) && SnapLedgers(s) && Enabled(c, s, CommitPlan(plan, ch, rows, now))
    ensures VmLedgers(Apply(c, s, CommitPlan(plan, ch, rows, now))) <==>
            Conserved(s.runs[plan].jobs, s.runs[plan].vms, ch)
  {
    var after := Apply(c, s, CommitPlan(plan, ch, rows, now));
    assert Conserved(s.runs[plan].jobs, s.runs[plan].vms, ch) <==> SlotsExact(s.runs[plan].jobs, ch) by {
      ConservedExactly(c.catalogue, s.runs[plan].jobs, s.runs[plan].vms, ch);
    }
    NewLedgers(c, s, plan, ch, rows, now);
    assert forall v :: v in after.db.vms <==> v in s.db.vms || v in rows.slot;
    forall v | v in s.db.vms
      ensures VmLedger(after, v)
    {
      CommitLedgerOld(c, s, plan, ch, rows, now, v);
    }
  }

  /** Steps that neither commit nor release keep idle capacities, and nothing more is held. */
  lemma {:induction false} QuietLedger(c: Config, s: System, step: Step, v: VmId)
    requires Sane(c, s) && VmLedgers(s) && Enabled(c, s, step)
    requires !step.CommitPlan? && !step.CancelJobs? && !step.Report? && v in Apply(c, s, step).db.vms
    ensures VmLedger(Apply(c, s, step), v)
  {
    HeldStep(c, s, step, v);
    assert v in s.db.vms && Apply(c, s, step).db.vms[v].idle == s.db.vms[v].idle
           && Apply(c, s, step).db.vms[v].total == s.db.vms[v].total;
  }

  /** Every step keeps the ledgers exactly when it is safe. */
  lemma {:induction false} LedgerStep(c: Config, s: System, step: Step)
    requires Sane(c, s) && VmLedgers(s) && SnapLedgers(s) && Enabled(c, s, step)
    ensures VmLedgers(Apply(c, s, step)) <==> Safe(c, s, step)
  {
    match step
    case CommitPlan(plan, ch, rows, now) => CommitExactly(c, s, plan, ch, rows, now);
    case CancelJobs(cond) => CancelLedgers(c, s, cond);
    case Report(vm, job, status) => ReportExactly(c, s, vm, job, status);
    case _ => QuietLedgers(c, s, step);
  }

  lemma {:induction false} CancelLedgers(c: Config, s: System, cond: set<JobId>)
    requires Sane(c, s) && VmLedgers(s)
    ensures VmLedgers(Apply(c, s, CancelJobs(cond)))
  {
    forall v | v in s.db.vms { CancelLedger(c, s, cond, v); }
  }

  lemma {:induction false} QuietLedgers(c: Config, s: System, step: Step)
    requires Sane(c, s) && VmLedgers(s) && Enabled(c, s, step)
    requires !step.CommitPlan? && !step.CancelJobs? && !step.Report?
    ensures VmLedgers(Apply(c, s, step))
  {
    forall v | v in Apply(c, s, step).db.vms { QuietLedger(c, s, step, v); }
  }

  lemma {:induction false} SnapStep(c: Config, s: System, step: Step)
    requires Sane(c, s) && VmLedgers(s) && SnapLedgers(s) && Enabled(c, s, step)
    ensures SnapLedgers(Apply(c, s, step))
  {
    var after := Apply(c, s, step);
    forall p | p in after.runs && after.runs[p].SawVms? && Latest(after.db, p)
      ensures SnapLedger(after, after.runs[p].vms)
    {
      if step.CommitPlan? {
        RelevantIsLatest(c, s, step.plan);
        assert step.plan in after.db.plans;
      } else {
        SnapKept(c, s, step, p);
      }
    }
  }

  /** The latest plan was the latest before, and unless it just read its VMs it had read them already. */
  lemma {:induction false} LatestBefore(c: Config, s: System, step: Step, p: PlanId)
    requires Enabled(c, s, step) && Latest(Apply(c, s, step).db, p)
    requires p in Apply(c, s, step).runs && Apply(c, s, step).runs[p].SawVms?
    ensures p in s.runs && Latest(s.db, p)
    ensures (step.ReadVms? && step.plan == p) || Apply(c, s, step).runs[p] == s.runs[p]
  {
    StepEvolves(c, s, step);
    forall q | q in s.db.plans ensures q <= p { assert q in Apply(c, s, step).db.plans.Keys; }
  }

  lemma {:induction false} SnapKept(c: Config, s: System, step: Step, p: PlanId)
    requires Sane(c, s) && VmLedgers(s) && SnapLedgers(s) && Enabled(c, s, step) && !step.CommitPlan?
    requires p in Apply(c, s, step).runs && Apply(c, s, step).runs[p].SawVms? && Latest(Apply(c, s, step).db, p)
    ensures SnapLedger(Apply(c, s, step), Apply(c, s, step).runs[p].vms)
  {
    var after := Apply(c, s, step);
    LatestBefore(c, s, step, p);
    forall v | v in after.runs[p].vms
      ensures after.runs[p].vms[v].total.Covers(after.runs[p].vms[v].idle, Held(after.db.jobs, after.released, v))
    {
      HeldStep(c, s, step, v);
      assert step.ReadVms? && step.plan == p ==> VmLedger(s, v);
    }
  }

  /** A run all of whose steps are safe. */
  ghost predicate SafeRun(c: Config, states: seq<System>, steps: seq<Step>) {
    IsRun(c, states, steps) && forall i :: 0 <= i < |steps| ==> Safe(c, states[i], steps[i])
  }

  lemma {:induction false} LedgersAt(c: Config, states: seq<System>, steps: seq<Step>, i: nat)
    requires SafeRun(c, states, steps) && i < |states|
    ensures Sane(c, states[i]) && VmLedgers(states[i]) && SnapLedgers(states[i])
  {
    SaneAt(c, states, steps, i);
    if i > 0 {
      LedgersAt(c, states, steps, i - 1);
      LedgerStep(c, states[i - 1], steps[i - 1]);
      SnapStep(c, states[i - 1], steps[i - 1]);
    }
  }

  lemma {:induction false} SnapsAt(c: Config, states: seq<System>, steps: seq<Step>, i: nat)
    requires IsRun(c, states, steps) && i < |states| && forall k :: 0 <= k < |states| ==> VmLedgers(states[k])
    ensures SnapLedgers(states[i])
  {
    if i > 0 {
      SaneAt(c, states, steps, i - 1);
      SnapsAt(c, states, steps, i - 1);
      SnapStep(c, states[i - 1], steps[i - 1]);
    }
  }

  /** Over whole runs: the ledgers of all VMs are in order in all states exactly when all steps are safe. */
  lemma {:induction false} LedgersExactly(c: Config, states: seq<System>, steps: seq<Step>)
    requires IsRun(c, states, steps)
    ensures (forall i :: 0 <= i < |states| ==> VmLedgers(states[i])) <==> SafeRun(c, states, steps)
  {
    if SafeRun(c, states, steps) {
      forall i | 0 <= i < |states| ensures VmLedgers(states[i]) { LedgersAt(c, states, steps, i); }
    }
    if forall i :: 0 <= i < |states| ==> VmLedgers(states[i]) {
      forall i | 0 <= i < |steps| ensures Safe(c, states[i], steps[i]) {
        SaneAt(c, states, steps, i);
        SnapsAt(c, states, steps, i);
        assert VmLedgers(states[i + 1]);
        LedgerStep(c, states[i], steps[i]);
      }
    }
  }

  /** No overcommit: in every state of every safe run a VM holds its idle capacity and all unfinished jobs on it. */
  lemma {:induction false} NoOvercommit(c: Config, states: seq<System>, steps: seq<Step>, i: nat, v: VmId)
    requires SafeRun(c, states, steps) && i < |states| && v in states[i].db.vms
    ensures var unfinished := set j | j in states[i].db.jobs && states[i].db.jobs[j].vm == Some(v) && !Final(states[i].db.jobs[j].status);
            states[i].db.vms[v].total.Covers(states[i].db.vms[v].idle, Total(unfinished, Reqs(states[i].db.jobs)))
  {
    LedgersAt(c, states, steps, i);
    var s := states[i];
    var unfinished := set j | j in s.db.jobs && s.db.jobs[j].vm == Some(v) && !Final(s.db.jobs[j].status);
    assert forall j :: j in unfinished ==> j !in s.released;
    assert unfinished <= HeldJobs(s.db.jobs, s.released, v);
    TotalSubset(unfinished, HeldJobs(s.db.jobs, s.released, v), Reqs(s.db.jobs));
  }

  /** A VM that a sound plan gives up was fully idle when read and receives only jobs that require nothing. */
  lemma {:induction false} GivenUpIdle(
    c: Config, s: System, plan: PlanId, ch: StateChange, rows: NewRows, now: Time, v: VmId, j: JobId)
    requires Sane(c, s) && Enabled(c, s, CommitPlan(plan, ch, rows, now)) && v in ch.terminate
    ensures v in s.db.vms && v in s.runs[plan].vms
    ensures s.runs[plan].vms[v].idle == s.runs[plan].vms[v].total == s.db.vms[v].total
    ensures j in ch.jobToVm && ch.jobToVm[j] == Existing(v) ==> j in s.db.jobs && s.db.jobs[j].req.Fits(ZERO)
  {
    assert RunOk(s, plan);
    GivenUpExactly(c.catalogue, s.runs[plan].jobs, s.runs[plan].vms, ch, v);
    if j in ch.jobToVm && ch.jobToVm[j] == Existing(v) {
      assert j in ch.jobToVm.Keys && j in Preimage(ch.jobToVm, Existing(v));
    }
  }

  /** On a VM whose idle capacity is its total only jobs that require nothing are held. */
  lemma {:induction false} FullyIdleHoldsNothing(
    jobs: map<JobId, Job>, released: set<JobId>, v: VmId, total: Slot, j: JobId)
    requires total.Covers(total, Held(jobs, released, v)) && j in HeldJobs(jobs, released, v)
    ensures jobs[j].req.Fits(ZERO)
  {
    TotalTake(HeldJobs(jobs, released, v), j, Reqs(jobs));
  }

  /** What is unfinished and points at a VM, before or after a commit. */
  ghost predicate Unfinished(db: Db, v: VmId, j: JobId) {
    j in db.jobs && db.jobs[j].vm == Some(v) && !Final(db.jobs[j].status)
  }

  lemma {:induction false} CommitGivesUp(
    c: Config, s: System, plan: PlanId, ch: StateChange, rows: NewRows, now: Time, v: VmId, j: JobId)
    requires Sane(c, s) && SnapLedgers(s) && Enabled(c, s, CommitPlan(plan, ch, rows, now)) && v in ch.terminate
    ensures Unfinished(s.db, v, j) ==> s.db.jobs[j].req.Fits(ZERO)
    ensures var after := Apply(c, s, CommitPlan(plan, ch, rows, now));
            && (Unfinished(after.db, v, j) ==> after.db.jobs[j].req.Fits(ZERO))
            && v in after.db.vms && after.db.vms[v].status == PendingTermination
  {
    RelevantIsLatest(c, s, plan);
    GivenUpIdle(c, s, plan, ch, rows, now, v, j);
    var snap := s.runs[plan].vms;
    assert SnapLedger(s, snap);
    if j in HeldJobs(s.db.jobs, s.released, v) {
      FullyIdleHoldsNothing(s.db.jobs, s.released, v, snap[v].total, j);
    }
    assert Unfinished(s.db, v, j) ==> j in HeldJobs(s.db.jobs, s.released, v);
  }

  /** Termination safety: before and after a commit, an unfinished job that points at a VM the plan gives up
      requires nothing at all. */
  lemma {:induction false} TerminationSafety(
    c: Config, states: seq<System>, steps: seq<Step>, i: nat, v: VmId, j: JobId)
    requires SafeRun(c, states, steps) && i < |steps|
    requires steps[i].CommitPlan? && v in steps[i].ch.terminate
    ensures Unfinished(states[i].db, v, j) ==> states[i].db.jobs[j].req.Fits(ZERO)
    ensures Unfinished(states[i + 1].db, v, j) ==> states[i + 1].db.jobs[j].req.Fits(ZERO)
    ensures v in states[i + 1].db.vms && states[i + 1].db.vms[v].status == PendingTermination
  {
    LedgersAt(c, states, steps, i);
    match steps[i]
    case CommitPlan(plan, ch, rows, now) => CommitGivesUp(c, states[i], plan, ch, rows, now, v, j);
  }
}
