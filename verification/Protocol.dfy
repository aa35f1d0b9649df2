/** All interleavings of scheduler replicas, allocators, agents, users and the failure detector over one store. */
module Protocol {
  import opened Capacity
  import opened Plan
  import opened Store

  datatype Config = Config(catalogue: seq<Slot>, interval: nat, jobLimit: nat, vmLimit: nat)

  /** How far one call of schedule() has come; `at` is the clock when its last transaction ended. */
  datatype Phase =
    | Started(at: Time)
    | SawJobs(at: Time, jobs: map<JobId, Slot>)
    | SawVms(at: Time, jobs: map<JobId, Slot>, vms: map<VmId, ActiveVm>)

  /** The store, the clock, the schedule() calls in flight by plan, and three history variables:
      jobs whose resources were released, plans committed per job, allocation attempts per VM row. */
  datatype System = System(
    db: Db, clock: Time, runs: map<PlanId, Phase>,
    released: set<JobId>, commits: map<JobId, nat>, attempts: map<VmId, nat>)

  datatype Step =
    | Tick(to: Time)
    | AddTask(task: TaskId, req: Slot, ids: set<JobId>)
    | StartScheduling(plan: PlanId, now: Time)
    | ReadJobs(plan: PlanId)
    | ReadVms(plan: PlanId)
    | CommitPlan(plan: PlanId, ch: StateChange, rows: NewRows, now: Time)
    | CancelJobs(cond: set<JobId>)
    | Report(vm: VmId, job: JobId, status: JobStatus)
    | TakeToAllocate(ids: set<VmId>)
    | SaveAllocated(vm: VmId)
    | RestartAllocating(cond: set<VmId>)
    | TerminateAllocating(cond: set<VmId>)
    | TerminateSilent(cond: set<VmId>)
    | TerminateInactive(cond: set<VmId>)
    | TakeToTerminate(ids: set<VmId>)
    | SetTermination(ids: set<VmId>, done: bool)
    | AgentPoll(vm: VmId)

  ghost predicate Init(s: System) {
    s.clock >= 0 && s == System(Db(map[], map[], map[]), s.clock, map[], {}, map[], map[])
  }

  /** The transaction succeeds. NOW() is the transaction's start, so it may lie before the clock;
      a commit starts after the read it follows. */
  ghost predicate Enabled(c: Config, s: System, step: Step) {
    match step
    case Tick(to) => s.clock <= to
    case AddTask(task, req, ids) =>
      ids != {} && ids !! s.db.jobs.Keys && forall j :: j in s.db.jobs ==> s.db.jobs[j].task != task
    case StartScheduling(plan, now) =>
      now <= s.clock && MayStart(s.db, c.interval, now) && forall p :: p in s.db.plans ==> p < plan
    case ReadJobs(plan) => plan in s.runs && s.runs[plan].Started?
    case ReadVms(plan) => plan in s.runs && s.runs[plan].SawJobs?
    case CommitPlan(plan, ch, rows, now) =>
      && plan in s.runs && s.runs[plan].SawVms? && s.runs[plan].at <= now <= s.clock
      && PlanSound(c.catalogue, s.runs[plan].jobs, s.runs[plan].vms, ch)
      && Relevant(s.db, plan) && NoConflicts(s.db, ch) && FreshRows(s.db, ch, rows)
    case CancelJobs(cond) => true
    case Report(vm, job, status) => AgentMaySet(status)
    case TakeToAllocate(ids) => forall v :: v in ids ==> v in s.db.vms && s.db.vms[v].status == PendingAllocation
    case TakeToTerminate(ids) => forall v :: v in ids ==> v in s.db.vms && s.db.vms[v].status == PendingTermination
    case _ => true
  }

  ghost function Apply(c: Config, s: System, step: Step): System
    requires Enabled(c, s, step)
  {
    var db := s.db;
    match step
    case Tick(to) => s.(clock := to)
    case AddTask(task, req, ids) =>
      s.(db := WithTask(db, task, req, ids), commits := s.commits + map j | j in ids :: 0)
    case StartScheduling(plan, now) =>
      s.(db := db.(plans := db.plans[plan := PlanRow(now, now)]), runs := s.runs[plan := Started(s.clock)])
    case ReadJobs(plan) =>
      s.(runs := s.runs[plan := SawJobs(s.clock, QueuedJobs(db))])
    case ReadVms(plan) =>
      s.(runs := s.runs[plan := SawVms(s.clock, s.runs[plan].jobs, ActiveVms(db))])
    case CommitPlan(plan, ch, rows, now) =>
      s.(db := Committed(db, ch, rows, plan, now),
         runs := s.runs - {plan},
         commits := map j | j in s.commits :: if j in ch.jobToVm then s.commits[j] + 1 else s.commits[j],
         attempts := s.attempts + map v | v in rows.slot :: 0)
    case CancelJobs(cond) =>
      s.(db := WithCancelled(db, cond), released := s.released + CancelledNow(db, cond))
    case Report(vm, job, status) =>
      s.(db := WithReport(db, vm, job, status),
         released := if ReportAccepted(db, vm, job, status) && Final(status) then s.released + {job} else s.released)
    case TakeToAllocate(ids) =>
      s.(db := db.(vms := WithStatus(db.vms, ids, Allocating)),
         attempts := map v | v in s.attempts :: if v in ids then s.attempts[v] + 1 else s.attempts[v])
    case SaveAllocated(vm) => s.(db := db.(vms := WithStatus(db.vms, {vm}, Allocated)))
    case RestartAllocating(cond) => s.(db := db.(vms := WithRestarted(db.vms, cond, c.vmLimit)))
    case TerminateAllocating(cond) =>
      s.(db := WithTerminated(db, cond, Allocating, Terminated, c.vmLimit, c.jobLimit))
    case TerminateSilent(cond) =>
      s.(db := WithTerminated(db, cond, Allocated, PendingTermination, 0, c.jobLimit))
    case TerminateInactive(cond) => s.(db := WithInactive(db, cond, c.jobLimit))
    case TakeToTerminate(ids) => s.(db := db.(vms := WithStatus(db.vms, ids, Terminating)))
    case SetTermination(ids, done) =>
      s.(db := db.(vms := WithStatus(db.vms, ids, if done then Terminated else PendingTermination)))
    case AgentPoll(vm) =>
      s.(db := db.(vms := WithStatus(db.vms, InStatus(db.vms, {vm}, Allocated, 0), AgentStarted)))
  }

  /** A run: states joined by enabled steps from an empty store. */
  ghost predicate IsRun(c: Config, states: seq<System>, steps: seq<Step>) {
    && |states| == |steps| + 1 && Init(states[0])
    && (forall i :: 0 <= i < |steps| ==>
          Enabled(c, states[i], steps[i]) && states[i + 1] == Apply(c, states[i], steps[i]))
  }
}
