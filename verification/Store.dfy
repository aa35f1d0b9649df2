/** The tables of the task store and what each SQL statement and transaction does to them. */
module Store {
  import opened Capacity
  import opened Plan

  type TaskId = int
  type PlanId = int
  type Time = int

  datatype JobStatus = Queued | Scheduled | Running | Completed | Cancelling | Cancelled | Error | InternalError

  /** The set of final statuses; `Cancelling` is in it. */
  predicate Final(s: JobStatus) {
    s in {Completed, Cancelling, Cancelled, Error, InternalError}
  }

  datatype VmStatus =
    PendingAllocation | Allocating | Allocated | AgentStarted | PendingTermination | Terminating | Terminated

  predicate Active(s: VmStatus) {
    s in {PendingAllocation, Allocating, Allocated, AgentStarted}
  }

  datatype Job = Job(task: TaskId, req: Slot, status: JobStatus, vm: Option<VmId>, restarts: nat)

  datatype Vm = Vm(status: VmStatus, total: Slot, idle: Slot, restarts: nat)

  datatype PlanRow = PlanRow(created: Time, updated: Time)

  datatype Db = Db(jobs: map<JobId, Job>, vms: map<VmId, Vm>, plans: map<PlanId, PlanRow>)

  function Reqs(jobs: map<JobId, Job>): map<JobId, Slot> {
    map j | j in jobs :: jobs[j].req
  }

  /** The rows the planner is given. */
  function QueuedJobs(db: Db): map<JobId, Slot> {
    map j | j in db.jobs && db.jobs[j].status == Queued :: db.jobs[j].req
  }

  function ActiveVms(db: Db): map<VmId, ActiveVm> {
    map v | v in db.vms && Active(db.vms[v].status) :: ActiveVm(v, db.vms[v].total, db.vms[v].idle)
  }

  /** New jobs of one task, all queued. */
  function WithTask(db: Db, task: TaskId, req: Slot, ids: set<JobId>): Db {
    db.(jobs := db.jobs + map j | j in ids :: Job(task, req, Queued, None, 0))
  }

  /** Among `ids`, the jobs whose row names a VM. */
  function OnVm(jobs: map<JobId, Job>, ids: set<JobId>, v: VmId): set<JobId> {
    set j | j in ids && j in jobs && jobs[j].vm == Some(v)
  }

  /** The capped release: VMs named by the released jobs get the summed requirements back, up to their total. */
  ghost function Released(jobs: map<JobId, Job>, vms: map<VmId, Vm>, ids: set<JobId>): map<VmId, Vm> {
    map v | v in vms ::
      if OnVm(jobs, ids, v) == {} then vms[v]
      else vms[v].(idle := vms[v].idle.Plus(Total(OnVm(jobs, ids, v), Reqs(jobs))).Least(vms[v].total))
  }

  /** Jobs in `initial` status on the given VMs go back to the queue, or fail when their restarts are used up. */
  function RestartedJobs(jobs: map<JobId, Job>, vms: set<VmId>, initial: JobStatus, limit: nat): map<JobId, Job> {
    map j | j in jobs ::
      if jobs[j].status == initial && jobs[j].vm.Some? && jobs[j].vm.value in vms then
        if jobs[j].restarts < limit then jobs[j].(status := Queued, restarts := jobs[j].restarts + 1)
        else jobs[j].(status := InternalError)
      else jobs[j]
  }

  function WithStatus(vms: map<VmId, Vm>, ids: set<VmId>, status: VmStatus): map<VmId, Vm> {
    map v | v in vms :: if v in ids then vms[v].(status := status) else vms[v]
  }

  /** VMs of `cond` in a status, with at least `least` restarts. */
  function InStatus(vms: map<VmId, Vm>, cond: set<VmId>, status: VmStatus, least: nat): set<VmId> {
    set v | v in vms && v in cond && vms[v].status == status && vms[v].restarts >= least
  }

  /** Allocation is retried while restarts remain. */
  function WithRestarted(vms: map<VmId, Vm>, cond: set<VmId>, limit: nat): map<VmId, Vm> {
    map v | v in vms ::
      if v in cond && vms[v].status == Allocating && vms[v].restarts < limit
      then vms[v].(status := PendingAllocation, restarts := vms[v].restarts + 1)
      else vms[v]
  }

  /** VMs that cannot be allocated, or got no agent, are given up and their scheduled jobs restarted. */
  function WithTerminated(
    db: Db, cond: set<VmId>, initial: VmStatus, target: VmStatus, vmLimit: nat, jobLimit: nat): Db
  {
    var hit := InStatus(db.vms, cond, initial, vmLimit);
    db.(vms := WithStatus(db.vms, hit, target), jobs := RestartedJobs(db.jobs, hit, Scheduled, jobLimit))
  }

  /** VMs whose agent went silent are given up and their running jobs restarted. */
  function WithInactive(db: Db, cond: set<VmId>, jobLimit: nat): Db {
    var hit := InStatus(db.vms, cond, AgentStarted, 0);
    db.(vms := WithStatus(db.vms, hit, PendingTermination), jobs := RestartedJobs(db.jobs, hit, Running, jobLimit))
  }

  /** The queued jobs among those a cancellation hits: cancelled at once and released. */
  function CancelledNow(db: Db, cond: set<JobId>): set<JobId> {
    set j | j in db.jobs && j in cond && db.jobs[j].status == Queued
  }

  function CancelledJobs(jobs: map<JobId, Job>, cond: set<JobId>): map<JobId, Job> {
    map j | j in jobs ::
      if j in cond && !Final(jobs[j].status)
      then jobs[j].(status := if jobs[j].status == Queued then Cancelled else Cancelling)
      else jobs[j]
  }

  ghost function WithCancelled(db: Db, cond: set<JobId>): Db {
    var jobs := CancelledJobs(db.jobs, cond);
    db.(jobs := jobs, vms := Released(jobs, db.vms, CancelledNow(db, cond)))
  }

  /** A report reaches the update: the job is on that VM, and is not being cancelled unless cancellation is reported. */
  predicate ReportAccepted(db: Db, vm: VmId, job: JobId, status: JobStatus) {
    && job in db.jobs && db.jobs[job].vm == Some(vm)
    && (db.jobs[job].status == Cancelling ==> status == Cancelled)
  }

  function ReportedJobs(jobs: map<JobId, Job>, job: JobId, status: JobStatus): map<JobId, Job>
    requires job in jobs
  {
    if Final(jobs[job].status) then jobs else jobs[job := jobs[job].(status := status)]
  }

  /** An agent's report: final rows stay as they are, but a final report releases in any case. */
  ghost function WithReport(db: Db, vm: VmId, job: JobId, status: JobStatus): Db {
    if !ReportAccepted(db, vm, job, status) then db
    else
      var jobs := ReportedJobs(db.jobs, job, status);
      db.(jobs := jobs, vms := if Final(status) then Released(jobs, db.vms, {job}) else db.vms)
  }

  /** The statuses an agent may report. */
  predicate AgentMaySet(s: JobStatus) {
    s in {Running, Completed, Cancelled, Error}
  }

  /** No plan was updated within the interval. */
  ghost predicate MayStart(db: Db, interval: nat, now: Time) {
    && (db.plans == map[] ==> interval <= now)
    && (forall p :: p in db.plans ==> db.plans[p].updated + interval <= now)
  }

  /** Exactly this plan carries the greatest update time. */
  ghost predicate Relevant(db: Db, plan: PlanId) {
    plan in db.plans && forall p :: p in db.plans && p != plan ==> db.plans[p].updated < db.plans[plan].updated
  }

  /** No planned job is final and no charged VM inactive. */
  ghost predicate NoConflicts(db: Db, ch: StateChange) {
    && (forall j :: j in ch.jobToVm && j in db.jobs ==> !Final(db.jobs[j].status))
    && (forall v :: v in ch.updatedIdle && v in db.vms ==> Active(db.vms[v].status))
  }

  /** The rows inserted for a plan's slots: `of` and `slot` are inverse to each other. */
  datatype NewRows = NewRows(of: map<SlotId, VmId>, slot: map<VmId, SlotId>)

  /** One row per slot, none used before. */
  ghost predicate FreshRows(db: Db, ch: StateChange, rows: NewRows) {
    && rows.of.Keys == ch.desired.Keys && rows.slot.Keys !! db.vms.Keys
    && (forall s :: s in rows.of ==> rows.of[s] in rows.slot && rows.slot[rows.of[s]] == s)
    && (forall v :: v in rows.slot ==> rows.slot[v] in rows.of && rows.of[rows.slot[v]] == v)
  }

  /** The VM row a target stands for. */
  function RowOf(t: Target, rows: NewRows): VmId
    requires t.New? ==> t.slot in rows.of
  {
    match t
    case Existing(v) => v
    case New(s) => rows.of[s]
  }

  function CommittedJobs(jobs: map<JobId, Job>, ch: StateChange, rows: NewRows): map<JobId, Job>
    requires forall j :: j in ch.jobToVm && ch.jobToVm[j].New? ==> ch.jobToVm[j].slot in rows.of
  {
    map j | j in jobs ::
      if j in ch.jobToVm then jobs[j].(status := Scheduled, vm := Some(RowOf(ch.jobToVm[j], rows))) else jobs[j]
  }

  function CommittedVm(ch: StateChange, v: VmId, vm: Vm): Vm {
    vm.(status := if v in ch.terminate then PendingTermination else vm.status,
        idle := if v in ch.updatedIdle then ch.updatedIdle[v] else vm.idle)
  }

  /** A new row, waiting for allocation. */
  function NewVm(slot: DesiredSlot): Vm {
    Vm(PendingAllocation, slot.total, slot.idle, 0)
  }

  ghost function CommittedVms(vms: map<VmId, Vm>, ch: StateChange, rows: NewRows): map<VmId, Vm>
    requires forall v :: v in rows.slot ==> rows.slot[v] in ch.desired
  {
    map v | v in vms.Keys + rows.slot.Keys ::
      if v in rows.slot then NewVm(ch.desired[rows.slot[v]]) else CommittedVm(ch, v, vms[v])
  }

  /** Every slot a job is sent to is one the plan creates. */
  ghost predicate TargetsExist(ch: StateChange) {
    forall j :: j in ch.jobToVm && ch.jobToVm[j].New? ==> ch.jobToVm[j].slot in ch.desired
  }

  /** The tables after a successful commit. */
  ghost function Committed(db: Db, ch: StateChange, rows: NewRows, plan: PlanId, now: Time): Db
    requires FreshRows(db, ch, rows) && TargetsExist(ch) && plan in db.plans
  {
    Db(CommittedJobs(db.jobs, ch, rows),
       CommittedVms(db.vms, ch, rows),
       db.plans[plan := db.plans[plan].(updated := now)])
  }
}
