/** The store as the class that the server uses: transactions that change the tables in place. */
module TaskStorage {
  import opened Capacity
  import opened Plan
  import opened Store

  datatype StorageError =
    LockUnavailable | SchedulingCancelled | InconsistentResult | OptimisticLockingFailure | JobNotFound

  datatype Result<+T> = Success(value: T) | Failure(error: StorageError)

  /** `newest` holds the rows that carry the greatest update time. */
  ghost predicate IsNewest(plans: map<PlanId, PlanRow>, newest: set<PlanId>) {
    forall p :: p in newest <==> p in plans && forall q :: q in plans ==> plans[q].updated <= plans[p].updated
  }

  lemma {:induction false} RelevantIsNewest(db: Db, newest: set<PlanId>, plan: PlanId)
    requires IsNewest(db.plans, newest)
    ensures Relevant(db, plan) <==> newest == {plan}
  {
    if Relevant(db, plan) {
      assert plan in newest;
      assert forall p :: p in newest ==> p == plan;
    }
  }

  /** `after` is `before` with one row per slot of the plan. */
  ghost predicate Inserted(before: map<VmId, Vm>, ch: StateChange, rows: NewRows, after: map<VmId, Vm>) {
    && (forall v :: v in after <==> v in before || v in rows.slot)
    && (forall v :: v in rows.slot ==>
          v !in before && rows.slot[v] in ch.desired && after[v] == NewVm(ch.desired[rows.slot[v]]))
    && (forall v :: v in before ==> after[v] == before[v])
  }

  /** The two updates of old rows followed by the inserts are the VM table of a commit. */
  lemma {:induction false} StatementsCommit(
    vms: map<VmId, Vm>, updated: map<VmId, Vm>, ch: StateChange, rows: NewRows, after: map<VmId, Vm>)
    requires updated.Keys == vms.Keys && (forall v :: v in vms ==> updated[v] == CommittedVm(ch, v, vms[v]))
    requires Inserted(updated, ch, rows, after)
    ensures after == CommittedVms(vms, ch, rows)
  {
    var committed := CommittedVms(vms, ch, rows);
    assert forall v :: v in updated.Keys <==> v in vms.Keys;
    assert forall v :: v in after.Keys <==> v in committed.Keys;
    forall v | v in after
      ensures after[v] == committed[v]
    {
      assert v in rows.slot || v in vms;
    }
  }

  lemma {:induction false} OnlyElement<K>(s: set<K>, k: K)
    requires |s| == 1
    ensures k in s <==> s == {k}
  {
    if k in s {
      assert |s - {k}| == 0;
      assert s == s - {k} + {k};
    }
  }

  /** What a set of jobs frees on each VM. */
  ghost predicate Freed(jobs: map<JobId, Job>, ids: set<JobId>, freed: map<VmId, Slot>) {
    forall v :: (v in freed <==> OnVm(jobs, ids, v) != {}) &&
                (v in freed ==> freed[v] == Total(OnVm(jobs, ids, v), Reqs(jobs)))
  }

  lemma {:induction false} FreedAddition(a: Slot, b: Slot, sum: Slot)
    requires sum.IsSum(a, b)
    ensures sum == b.Plus(a)
  {
  }

  /** Accounting for one more job. */
  lemma {:induction false} FreedStep(jobs: map<JobId, Job>, ids: set<JobId>, freed: map<VmId, Slot>, j: JobId)
    requires Freed(jobs, ids, freed) && j !in ids
    ensures j in jobs && jobs[j].vm.Some? ==>
              var v := jobs[j].vm.value;
              Freed(jobs, ids + {j}, freed[v := if v in freed then freed[v].Plus(jobs[j].req) else jobs[j].req])
    ensures !(j in jobs && jobs[j].vm.Some?) ==> Freed(jobs, ids + {j}, freed)
  {
    forall u
      ensures OnVm(jobs, ids + {j}, u) ==
              if j in jobs && jobs[j].vm == Some(u) then OnVm(jobs, ids, u) + {j} else OnVm(jobs, ids, u)
    {
    }
    if j in jobs && jobs[j].vm.Some? {
      var v := jobs[j].vm.value;
      var more := OnVm(jobs, ids + {j}, v);
      TotalTake(more, j, Reqs(jobs));
      assert more - {j} == OnVm(jobs, ids, v);
      FreedAddition(jobs[j].req, Total(more - {j}, Reqs(jobs)), Total(more, Reqs(jobs)));
    }
  }

  /** A pass over a table: the rows visited have changed as `change` says, the others are as before. */
  ghost predicate Visited<K, R>(before: map<K, R>, change: map<K, R>, todo: set<K>, now: map<K, R>) {
    && now.Keys == before.Keys && change.Keys == before.Keys
    && (forall k :: k in before ==> now[k] == if k in todo then before[k] else change[k])
  }

  lemma {:induction false} VisitedOne<K, R>(
    before: map<K, R>, change: map<K, R>, todo: set<K>, now: map<K, R>, k: K, now': map<K, R>)
    requires Visited(before, change, todo, now) && k in todo && k in before
    requires now' == now[k := change[k]]
    ensures Visited(before, change, todo - {k}, now')
  {
  }

  ghost function WithIdle(vms: map<VmId, Vm>, idle: map<VmId, Slot>): map<VmId, Vm> {
    map v | v in vms :: if v in idle then vms[v].(idle := idle[v]) else vms[v]
  }

  /** The rows that the first statement of a restart puts back into the queue. */
  ghost function Requeued(jobs: map<JobId, Job>, ids: set<VmId>, initial: JobStatus, limit: nat): map<JobId, Job> {
    map j | j in jobs ::
      if jobs[j].status == initial && jobs[j].restarts < limit && jobs[j].vm.Some? && jobs[j].vm.value in ids
      then jobs[j].(status := Queued, restarts := jobs[j].restarts + 1)
      else jobs[j]
  }

  /** The rows that the second statement fails. */
  ghost function Failed(jobs: map<JobId, Job>, ids: set<VmId>, initial: JobStatus, limit: nat): map<JobId, Job> {
    map j | j in jobs ::
      if jobs[j].status == initial && jobs[j].restarts >= limit && jobs[j].vm.Some? && jobs[j].vm.value in ids
      then jobs[j].(status := InternalError)
      else jobs[j]
  }

  /** The second statement of a restart does not catch rows of the first, exactly because they left the initial status:
      the two in sequence restart or fail each job once. With the queue as initial status a job at its last restart is
      requeued and failed at once. */
  lemma {:induction false} RestartInSequence(jobs: map<JobId, Job>, ids: set<VmId>, initial: JobStatus, limit: nat)
    ensures (forall j :: j in jobs && jobs[j].status == initial && jobs[j].vm.Some? && jobs[j].vm.value in ids ==>
               initial != Queued || jobs[j].restarts + 1 != limit) <==>
            Failed(Requeued(jobs, ids, initial, limit), ids, initial, limit) == RestartedJobs(jobs, ids, initial, limit)
  {
    var twice, once := Failed(Requeued(jobs, ids, initial, limit), ids, initial, limit),
                       RestartedJobs(jobs, ids, initial, limit);
    forall j | j in jobs
      ensures twice[j] == once[j] <==>
              !(jobs[j].status == initial && jobs[j].vm.Some? && jobs[j].vm.value in ids &&
                initial == Queued && jobs[j].restarts + 1 == limit)
    {
    }
    assert twice.Keys == once.Keys == jobs.Keys;
    if forall j :: j in jobs ==> twice[j] == once[j] {
      assert twice == once;
    }
  }

  class PgTaskStorage {
    var jobs: map<JobId, Job>
    var vms: map<VmId, Vm>
    var plans: map<PlanId, PlanRow>
    var nextVm: VmId
    var nextPlan: PlanId

    ghost function Contents(): Db
      reads this
    {
      Db(jobs, vms, plans)
    }

    /** The serial columns are ahead of all rows. */
    ghost predicate Valid()
      reads this
    {
      (forall v :: v in vms ==> v < nextVm) && (forall p :: p in plans ==> p < nextPlan)
    }

    constructor ()
      ensures Valid() && Contents() == Db(map[], map[], map[])
    {
      jobs, vms, plans := map[], map[], map[];
      nextVm, nextPlan := 1, 1;
    }

    /** MAX(updated), or the epoch when there is no plan. */
    method LastUpdate() returns (last: Time)
      ensures plans == map[] ==> last == 0
      ensures plans != map[] ==> exists p :: p in plans && plans[p].updated == last
      ensures forall p :: p in plans ==> plans[p].updated <= last
    {
      last := 0;
      var todo, first := plans.Keys, true;
      while todo != {}
        invariant todo <= plans.Keys
        invariant first <==> todo == plans.Keys
        invariant first ==> last == 0
        invariant !first ==> exists p :: p in plans && plans[p].updated == last
        invariant forall p :: p in plans && p !in todo ==> plans[p].updated <= last
        decreases todo
      {
        var p := TakeOne(todo);
        if first || plans[p].updated > last {
          last := plans[p].updated;
        }
        first := false;
        todo := todo - {p};
      }
      assert first ==> plans.Keys == {};
    }

    /** Inserts a plan row unless some plan was updated within the interval or the table lock is taken. */
    method StartScheduling(interval: nat, now: Time, lockFree: bool) returns (r: Result<PlanId>)
      requires Valid()
      modifies this
      ensures Valid()
      ensures r.Success? <==> lockFree && old(MayStart(Contents(), interval, now))
      ensures r.Success? ==>
                && (forall p :: p in old(plans) ==> p < r.value)
                && Contents() == old(Contents()).(plans := old(plans)[r.value := PlanRow(now, now)])
      ensures r.Failure? ==> Contents() == old(Contents())
    {
      if !lockFree {
        return Failure(LockUnavailable);
      }
      var last := LastUpdate();
      if last + interval > now {
        return Failure(SchedulingCancelled);
      }
      plans := plans[nextPlan := PlanRow(now, now)];
      nextPlan := nextPlan + 1;
      return Success(nextPlan - 1);
    }

    /** The queued jobs, in some order. */
    method GetQueuedJobs() returns (r: seq<QueuedJob>)
      ensures DistinctJobs(r) && ReqMap(r) == QueuedJobs(Contents())
    {
      r := [];
      var todo := jobs.Keys;
      while todo != {}
        invariant todo <= jobs.Keys
        invariant DistinctJobs(r)
        invariant forall q :: q in r ==>
                    q.id in jobs && q.id !in todo && jobs[q.id].status == Queued && jobs[q.id].req == q.req
        invariant forall j :: j in jobs && j !in todo && jobs[j].status == Queued ==> QueuedJob(j, jobs[j].req) in r
        decreases todo
      {
        var j := TakeOne(todo);
        if jobs[j].status == Queued {
          r := r + [QueuedJob(j, jobs[j].req)];
        }
        todo := todo - {j};
      }
      forall j | j in QueuedJobs(Contents())
        ensures j in ReqMap(r)
      {
        assert QueuedJob(j, jobs[j].req) in r;
      }
    }

    /** The active VMs, in some order. */
    method GetActiveVms() returns (r: seq<ActiveVm>)
      ensures DistinctVms(r) && VmMap(r) == ActiveVms(Contents())
    {
      r := [];
      var todo := vms.Keys;
      while todo != {}
        invariant todo <= vms.Keys
        invariant DistinctVms(r)
        invariant forall a :: a in r ==>
                    a.id in vms && a.id !in todo && Active(vms[a.id].status) && a == ActiveVm(a.id, vms[a.id].total, vms[a.id].idle)
        invariant forall v :: v in vms && v !in todo && Active(vms[v].status) ==>
                    ActiveVm(v, vms[v].total, vms[v].idle) in r
        decreases todo
      {
        var v := TakeOne(todo);
        if Active(vms[v].status) {
          r := r + [ActiveVm(v, vms[v].total, vms[v].idle)];
        }
        todo := todo - {v};
      }
    }

    method NewestPlans() returns (newest: set<PlanId>)
      ensures IsNewest(plans, newest)
    {
      var last := LastUpdate();
      newest := set p | p in plans && plans[p].updated == last;
    }

    /** Fails when several plans, or none, carry the greatest update time. */
    method IsSchedulingRelevant(plan: PlanId) returns (r: Result<bool>)
      ensures r == Success(true) <==> Relevant(Contents(), plan)
      ensures r == Failure(InconsistentResult) <==> !exists p :: Relevant(Contents(), p)
      ensures r.Failure? ==> r == Failure(InconsistentResult)
    {
      var newest := NewestPlans();
      forall p ensures Relevant(Contents(), p) <==> newest == {p} {
        RelevantIsNewest(Contents(), newest, p);
      }
      if |newest| == 1 {
        ghost var p := Pick(newest);
        OnlyElement(newest, p);
        assert Relevant(Contents(), p);
      }
      if |newest| != 1 {
        return Failure(InconsistentResult);
      }
      OnlyElement(newest, plan);
      r := Success(plan in newest);
    }

    method CheckConflicts(ch: StateChange) returns (ok: bool)
      ensures ok <==> NoConflicts(Contents(), ch)
    {
      ok := true;
      var todo := ch.jobToVm.Keys;
      while todo != {}
        invariant todo <= ch.jobToVm.Keys
        invariant ok <==> forall j :: j in ch.jobToVm && j !in todo && j in jobs ==> !Final(jobs[j].status)
        decreases todo
      {
        var j := TakeOne(todo);
        if j in jobs && Final(jobs[j].status) {
          ok := false;
        }
        todo := todo - {j};
      }
      var left := ch.updatedIdle.Keys;
      ghost var jobsOk := ok;
      while left != {}
        invariant left <= ch.updatedIdle.Keys
        invariant ok <==> jobsOk && forall v :: v in ch.updatedIdle && v !in left && v in vms ==> Active(vms[v].status)
        decreases left
      {
        var v := TakeOne(left);
        if v in vms && !Active(vms[v].status) {
          ok := false;
        }
        left := left - {v};
      }
    }

    /** One INSERT per desired slot, remembering which row each slot got. */
    method AllocateNewVms(ch: StateChange) returns (rows: NewRows)
      requires Valid()
      modifies this`vms, this`nextVm
      ensures Valid() && FreshRows(old(Contents()), ch, rows)
      ensures Inserted(old(vms), ch, rows, vms)
    {
      rows := NewRows(map[], map[]);
      var todo := ch.desired.Keys;
      while todo != {}
        invariant Valid() && todo <= ch.desired.Keys && nextVm >= old(nextVm)
        invariant forall s :: s in rows.of <==> s in ch.desired && s !in todo
        invariant forall s :: s in rows.of ==> rows.of[s] in rows.slot && rows.slot[rows.of[s]] == s
        invariant forall v :: v in rows.slot ==> v < nextVm && rows.slot[v] in rows.of && rows.of[rows.slot[v]] == v
        invariant Inserted(old(vms), ch, rows, vms)
        decreases todo
      {
        var s := TakeOne(todo);
        vms := vms[nextVm := NewVm(ch.desired[s])];
        rows := NewRows(rows.of[s := nextVm], rows.slot[nextVm := s]);
        nextVm := nextVm + 1;
        todo := todo - {s};
      }
      assert forall s :: s in rows.of.Keys <==> s in ch.desired.Keys;
      assert forall v :: v in rows.slot.Keys ==> v !in old(vms).Keys;
    }

    /** Commits a plan in one transaction, or changes nothing. */
    method CommitPlanChange(ch: StateChange, plan: PlanId, now: Time) returns (r: Result<NewRows>)
      requires Valid() && TargetsExist(ch)
      modifies this
      ensures Valid()
      ensures r.Success? <==> old(Relevant(Contents(), plan) && NoConflicts(Contents(), ch))
      ensures r.Success? ==>
                && FreshRows(old(Contents()), ch, r.value)
                && Contents() == Committed(old(Contents()), ch, r.value, plan, now)
                && plan in plans && plans[plan].updated == now
      ensures r.Failure? ==> Contents() == old(Contents())
      ensures r == Failure(OptimisticLockingFailure) <==> old(Relevant(Contents(), plan) && !NoConflicts(Contents(), ch))
      ensures r == Failure(InconsistentResult) <==> old(!exists p :: Relevant(Contents(), p))
      ensures r == Failure(SchedulingCancelled) <==> old(exists p :: Relevant(Contents(), p) && p != plan)
    {
      var relevant := IsSchedulingRelevant(plan);
      if relevant.Failure? {
        return Failure(relevant.error);
      }
      if !relevant.value {
        return Failure(SchedulingCancelled);
      }
      var ok := CheckConflicts(ch);
      if !ok {
        return Failure(OptimisticLockingFailure);
      }
      var rows := ApplyVmChanges(ch);
      ApplyJobVmAssignments(ch, rows);
      plans := plans[plan := plans[plan].(updated := now)];
      r := Success(rows);
    }

    /** The statements of a commit that concern VMs, in their order. */
    method ApplyVmChanges(ch: StateChange) returns (rows: NewRows)
      requires Valid()
      modifies this`vms, this`nextVm
      ensures Valid() && FreshRows(old(Contents()), ch, rows)
      ensures vms == CommittedVms(old(vms), ch, rows)
    {
      SetVmStatus((set v | v in ch.terminate), PendingTermination);
      UpdateVmCapacities(ch.updatedIdle);
      ghost var updated := vms;
      rows := AllocateNewVms(ch);
      StatementsCommit(old(vms), updated, ch, rows, vms);
    }

    /** Writes the planned idle capacities, row by row. */
    method UpdateVmCapacities(idle: map<VmId, Slot>)
      modifies this`vms
      ensures vms == WithIdle(old(vms), idle)
    {
      var todo := vms.Keys;
      while todo != {}
        invariant todo <= old(vms).Keys && Visited(old(vms), WithIdle(old(vms), idle), todo, vms)
        decreases todo
      {
        var v := TakeOne(todo);
        if v in idle {
          vms := vms[v := vms[v].(idle := idle[v])];
        }
        todo := todo - {v};
      }
    }

    /** The table of pairs that a plan's assignments make with the rows of its new slots. */
    method AssignmentPairs(jobToVm: map<JobId, Target>, rows: NewRows) returns (pairs: map<JobId, VmId>)
      requires forall j :: j in jobToVm && jobToVm[j].New? ==> jobToVm[j].slot in rows.of
      ensures pairs.Keys == jobToVm.Keys && forall j :: j in pairs ==> pairs[j] == RowOf(jobToVm[j], rows)
    {
      pairs := map[];
      var todo := jobToVm.Keys;
      while todo != {}
        invariant todo <= jobToVm.Keys && pairs.Keys == jobToVm.Keys - todo
        invariant forall j :: j in pairs ==> pairs[j] == RowOf(jobToVm[j], rows)
        decreases todo
      {
        var j := TakeOne(todo);
        match jobToVm[j] {
          case Existing(v) => pairs := pairs[j := v];
          case New(s) => pairs := pairs[j := rows.of[s]];
        }
        todo := todo - {j};
      }
    }

    /** Points the planned jobs at their rows: first the table of pairs, then the update that joins it. */
    method ApplyJobVmAssignments(ch: StateChange, rows: NewRows)
      requires forall j :: j in ch.jobToVm && ch.jobToVm[j].New? ==> ch.jobToVm[j].slot in rows.of
      modifies this`jobs
      ensures jobs == CommittedJobs(old(jobs), ch, rows)
    {
      var pairs := AssignmentPairs(ch.jobToVm, rows);
      assert forall j :: j in pairs.Keys <==> j in ch.jobToVm.Keys;
      var todo := jobs.Keys;
      while todo != {}
        invariant todo <= old(jobs).Keys && Visited(old(jobs), CommittedJobs(old(jobs), ch, rows), todo, jobs)
        decreases todo
      {
        var j := TakeOne(todo);
        if j in pairs {
          jobs := jobs[j := jobs[j].(status := Scheduled, vm := Some(pairs[j]))];
        }
        todo := todo - {j};
      }
    }

    /** Sums the requirements per VM and gives them back, capped at the totals. */
    method ReleaseVmResources(ids: set<JobId>)
      modifies this`vms
      ensures vms == Released(jobs, old(vms), ids)
    {
      var freed: map<VmId, Slot> := map[];
      var todo := ids;
      while todo != {}
        invariant todo <= ids && vms == old(vms)
        invariant Freed(jobs, ids - todo, freed)
        decreases todo
      {
        var j := TakeOne(todo);
        FreedStep(jobs, ids - todo, freed, j);
        assert ids - (todo - {j}) == ids - todo + {j};
        if j in jobs && jobs[j].vm.Some? {
          var v := jobs[j].vm.value;
          freed := freed[v := if v in freed then freed[v].Plus(jobs[j].req) else jobs[j].req];
        }
        todo := todo - {j};
      }
      assert ids - todo == ids;
      vms := map v | v in vms :: if v in freed then vms[v].(idle := vms[v].idle.Plus(freed[v]).Least(vms[v].total)) else vms[v];
    }

    /** Cancels the unfinished jobs that match a condition and releases those that were still queued. */
    method CancelJobs(cond: set<JobId>)
      modifies this`jobs, this`vms
      ensures Contents() == WithCancelled(old(Contents()), cond)
    {
      var cancelled := MarkCancelled(cond);
      ReleaseVmResources(cancelled);
    }

    /** The update of a cancellation, returning the rows that became cancelled. */
    method MarkCancelled(cond: set<JobId>) returns (cancelled: set<JobId>)
      modifies this`jobs
      ensures jobs == CancelledJobs(old(jobs), cond) && cancelled == old(CancelledNow(Contents(), cond))
      ensures forall j :: j in jobs && j in cond ==>
                && (j in cancelled ==> old(jobs)[j].status == Queued && jobs[j].status == Cancelled)
                && (old(jobs)[j].status in {Scheduled, Running} ==> jobs[j].status == Cancelling)
    {
      cancelled := {};
      var todo := jobs.Keys;
      while todo != {}
        invariant todo <= old(jobs).Keys && Visited(old(jobs), CancelledJobs(old(jobs), cond), todo, jobs)
        invariant forall j :: j in cancelled <==> j in old(CancelledNow(Contents(), cond)) && j !in todo
        decreases todo
      {
        var j := TakeOne(todo);
        if j in cond && !Final(jobs[j].status) {
          var status := if jobs[j].status == Queued then Cancelled else Cancelling;
          jobs := jobs[j := jobs[j].(status := status)];
          if status == Cancelled {
            cancelled := cancelled + {j};
          }
        }
        todo := todo - {j};
      }
      assert forall j :: j in cancelled <==> j in old(CancelledNow(Contents(), cond));
    }

    /** Applies an agent's report, or fails when the job is not on that VM. */
    method UpdateJobState(vm: VmId, job: JobId, status: JobStatus) returns (r: Result<()>)
      modifies this`jobs, this`vms
      ensures Contents() == WithReport(old(Contents()), vm, job, status)
      ensures r.Success? ==>
                && job in old(jobs)
                && jobs == if Final(old(jobs)[job].status) then old(jobs)
                           else old(jobs)[job := old(jobs)[job].(status := status)]
      ensures r == Failure(JobNotFound) <==> !(job in old(jobs) && old(jobs)[job].vm == Some(vm))
      ensures r.Failure? ==> r == Failure(JobNotFound)
    {
      if !(job in jobs && jobs[job].vm == Some(vm)) {
        return Failure(JobNotFound);
      }
      r := Success(());
      if jobs[job].status == Cancelling && status != Cancelled {
        return;
      }
      if !Final(jobs[job].status) {
        jobs := jobs[job := jobs[job].(status := status)];
      }
      if Final(status) {
        ReleaseVmResources({job});
      }
    }

    /** Takes up to `limit` VMs that wait for allocation. */
    method GetVmsToAllocate(limit: nat) returns (r: set<VmId>)
      modifies this`vms
      ensures |r| <= limit && vms == WithStatus(old(vms), r, Allocating)
      ensures forall v :: v in r ==> v in old(vms) && old(vms)[v].status == PendingAllocation
      ensures |r| < limit ==> forall v :: v in vms ==> vms[v].status != PendingAllocation
    {
      r := TakeInStatus(PendingAllocation, limit);
      SetVmStatus(r, Allocating);
    }

    /** Takes up to `limit` VMs that wait for termination. */
    method GetVmsToTerminate(limit: nat) returns (r: set<VmId>)
      modifies this`vms
      ensures |r| <= limit && vms == WithStatus(old(vms), r, Terminating)
      ensures forall v :: v in r ==> v in old(vms) && old(vms)[v].status == PendingTermination
      ensures |r| < limit ==> forall v :: v in vms ==> vms[v].status != PendingTermination
    {
      r := TakeInStatus(PendingTermination, limit);
      SetVmStatus(r, Terminating);
    }

    method TakeInStatus(status: VmStatus, limit: nat) returns (r: set<VmId>)
      ensures |r| <= limit && forall v :: v in r ==> v in vms && vms[v].status == status
      ensures |r| < limit ==> forall v :: v in vms && vms[v].status == status ==> v in r
    {
      r := {};
      var todo := set v | v in vms && vms[v].status == status;
      while todo != {} && |r| < limit
        invariant |r| <= limit && todo !! r
        invariant forall v :: v in todo || v in r <==> v in vms && vms[v].status == status
        decreases todo
      {
        var v := TakeOne(todo);
        r := r + {v};
        todo := todo - {v};
      }
    }

    method SaveVmAllocationResult(v: VmId)
      modifies this`vms
      ensures vms == WithStatus(old(vms), {v}, Allocated)
    {
      if v in vms {
        vms := vms[v := vms[v].(status := Allocated)];
      }
    }

    /** Sets the status of the listed VMs, row by row. */
    method SetVmStatus(ids: set<VmId>, status: VmStatus)
      modifies this`vms
      ensures vms == WithStatus(old(vms), ids, status)
    {
      var todo := vms.Keys;
      while todo != {}
        invariant todo <= old(vms).Keys && Visited(old(vms), WithStatus(old(vms), ids, status), todo, vms)
        decreases todo
      {
        var v := TakeOne(todo);
        if v in ids {
          vms := vms[v := vms[v].(status := status)];
        }
        todo := todo - {v};
      }
    }

    /** Sends VMs in allocation back to wait, while they have restarts left. */
    method RestartAllocatingVms(cond: set<VmId>, limit: nat)
      modifies this`vms
      ensures vms == WithRestarted(old(vms), cond, limit)
    {
      var todo := vms.Keys;
      while todo != {}
        invariant todo <= old(vms).Keys && Visited(old(vms), WithRestarted(old(vms), cond, limit), todo, vms)
        decreases todo
      {
        var v := TakeOne(todo);
        if v in cond && vms[v].status == Allocating && vms[v].restarts < limit {
          vms := vms[v := vms[v].(status := PendingAllocation, restarts := vms[v].restarts + 1)];
        }
        todo := todo - {v};
      }
    }

    /** The update of a termination, returning the rows it hit. */
    method MarkTerminated(cond: set<VmId>, initial: VmStatus, target: VmStatus, least: nat) returns (hit: set<VmId>)
      modifies this`vms
      ensures hit == old(InStatus(vms, cond, initial, least)) && vms == WithStatus(old(vms), hit, target)
    {
      hit := {};
      ghost var all := InStatus(vms, cond, initial, least);
      var todo := vms.Keys;
      while todo != {}
        invariant todo <= old(vms).Keys && Visited(old(vms), WithStatus(old(vms), all, target), todo, vms)
        invariant hit == all - todo
        decreases todo
      {
        var v := TakeOne(todo);
        ghost var now := vms;
        if v in cond && vms[v].status == initial && vms[v].restarts >= least {
          vms := vms[v := vms[v].(status := target)];
          hit := hit + {v};
        }
        assert v in hit <==> v in all;
        VisitedOne(old(vms), WithStatus(old(vms), all, target), todo, now, v, vms);
        todo := todo - {v};
      }
      assert all - todo == all;
    }

    /** The first statement of a restart. */
    method RequeueJobs(ids: set<VmId>, initial: JobStatus, limit: nat)
      modifies this`jobs
      ensures jobs == Requeued(old(jobs), ids, initial, limit)
    {
      var todo := jobs.Keys;
      while todo != {}
        invariant todo <= old(jobs).Keys && Visited(old(jobs), Requeued(old(jobs), ids, initial, limit), todo, jobs)
        decreases todo
      {
        var j := TakeOne(todo);
        if jobs[j].status == initial && jobs[j].restarts < limit && jobs[j].vm.Some? && jobs[j].vm.value in ids {
          jobs := jobs[j := jobs[j].(status := Queued, restarts := jobs[j].restarts + 1)];
        }
        todo := todo - {j};
      }
    }

    /** The second statement of a restart. */
    method FailJobs(ids: set<VmId>, initial: JobStatus, limit: nat)
      modifies this`jobs
      ensures jobs == Failed(old(jobs), ids, initial, limit)
    {
      var todo := jobs.Keys;
      while todo != {}
        invariant todo <= old(jobs).Keys && Visited(old(jobs), Failed(old(jobs), ids, initial, limit), todo, jobs)
        decreases todo
      {
        var j := TakeOne(todo);
        if jobs[j].status == initial && jobs[j].restarts >= limit && jobs[j].vm.Some? && jobs[j].vm.value in ids {
          jobs := jobs[j := jobs[j].(status := InternalError)];
        }
        todo := todo - {j};
      }
    }

    /** Restarts the jobs of VMs: two statements in sequence, the second seeing what the first did. */
    method RestartJobs(ids: set<VmId>, initial: JobStatus, limit: nat)
      requires initial != Queued
      modifies this`jobs
      ensures jobs == RestartedJobs(old(jobs), ids, initial, limit)
    {
      RestartInSequence(jobs, ids, initial, limit);
      RequeueJobs(ids, initial, limit);
      FailJobs(ids, initial, limit);
    }

    /** Gives VMs up and, in the same transaction, restarts or fails the jobs scheduled on them. */
    method TerminateVms(cond: set<VmId>, initial: VmStatus, target: VmStatus, vmLimit: nat, jobLimit: nat)
      modifies this`vms, this`jobs
      ensures Contents() == WithTerminated(old(Contents()), cond, initial, target, vmLimit, jobLimit)
    {
      var hit := MarkTerminated(cond, initial, target, vmLimit);
      if hit == {} {
        NothingHit(old(vms), jobs, target, Scheduled, jobLimit);
        return;
      }
      RestartJobs(hit, Scheduled, jobLimit);
    }

    /** Gives up VMs whose agent went silent and restarts or fails the jobs running on them. */
    method TerminateInactive(cond: set<VmId>, jobLimit: nat)
      modifies this`vms, this`jobs
      ensures Contents() == WithInactive(old(Contents()), cond, jobLimit)
    {
      var hit := MarkTerminated(cond, AgentStarted, PendingTermination, 0);
      if hit == {} {
        NothingHit(old(vms), jobs, PendingTermination, Running, jobLimit);
        return;
      }
      RestartJobs(hit, Running, jobLimit);
    }

    /** Two transactions. Of the listed VMs in allocation those with restarts left wait again and exactly the others are
        given up: none is restarted and then given up by the second transaction. */
    method RollbackUnallocatedVms(ids: set<VmId>, vmLimit: nat, jobLimit: nat)
      modifies this`vms, this`jobs
      ensures vms.Keys == old(vms).Keys && plans == old(plans)
      ensures forall v :: v in vms ==>
                vms[v] == if v in ids && old(vms)[v].status == Allocating then AllocationOutcome(old(vms)[v], false, vmLimit)
                          else old(vms)[v]
      ensures jobs == RestartedJobs(old(jobs), old(InStatus(vms, ids, Allocating, vmLimit)), Scheduled, jobLimit)
    {
      RestartAllocatingVms(ids, vmLimit);
      RollbackHits(old(vms), ids, vmLimit);
      TerminateVms(ids, Allocating, Terminated, vmLimit, jobLimit);
    }
  }

  /** Where an allocation attempt leaves a VM row. */
  function AllocationOutcome(vm: Vm, inCloud: bool, vmLimit: nat): Vm {
    if inCloud then vm.(status := Allocated)
    else if vm.restarts < vmLimit then vm.(status := PendingAllocation, restarts := vm.restarts + 1)
    else vm.(status := Terminated)
  }

  /** After the restart, what is still in allocation is what had no restarts left. */
  lemma {:induction false} RollbackHits(vms: map<VmId, Vm>, ids: set<VmId>, vmLimit: nat)
    ensures InStatus(WithRestarted(vms, ids, vmLimit), ids, Allocating, vmLimit) == InStatus(vms, ids, Allocating, vmLimit)
  {
    var restarted := WithRestarted(vms, ids, vmLimit);
    forall v
      ensures v in InStatus(restarted, ids, Allocating, vmLimit) <==> v in InStatus(vms, ids, Allocating, vmLimit)
    {
      assert v in restarted.Keys <==> v in vms.Keys;
    }
  }

  lemma {:induction false} NothingHit(
    vms: map<VmId, Vm>, jobs: map<JobId, Job>, target: VmStatus, initial: JobStatus, limit: nat)
    ensures WithStatus(vms, {}, target) == vms && RestartedJobs(jobs, {}, initial, limit) == jobs
  {
  }
}
