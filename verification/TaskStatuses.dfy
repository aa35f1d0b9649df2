/** The task status shown to users, derived from its jobs. */
module TaskStatuses {
  import opened Plan
  import opened Store
  import opened Protocol
  import opened Histories
  import opened Lifecycles

  datatype ShownJobStatus = JobQueued | JobRunning | JobCompleted | JobCancelled | JobFailed

  datatype TaskStatus = TaskQueued | TaskRunning | TaskCompleted

  function Shown(s: JobStatus): ShownJobStatus {
    match s
    case Queued => JobQueued
    case Scheduled => JobQueued
    case Running => JobRunning
    case Completed => JobCompleted
    case Cancelling => JobCancelled
    case Cancelled => JobCancelled
    case Error => JobFailed
    case InternalError => JobFailed
  }

  function TaskStatusOf(jobs: seq<ShownJobStatus>): TaskStatus {
    if JobRunning in jobs then TaskRunning
    else if JobQueued in jobs then TaskQueued
    else TaskCompleted
  }

  /** The rows of a task as the status query returns them, in some order. */
  ghost predicate Lists(db: Db, task: TaskId, order: seq<JobId>) {
    && (forall i :: 0 <= i < |order| ==> order[i] in db.jobs && db.jobs[order[i]].task == task)
    && (forall j :: j in db.jobs && db.jobs[j].task == task ==> j in order)
  }

  ghost function ShownRows(db: Db, task: TaskId, order: seq<JobId>): (r: seq<ShownJobStatus>)
    requires Lists(db, task, order)
    ensures |r| == |order| && forall i :: 0 <= i < |r| ==> r[i] == Shown(db.jobs[order[i]].status)
  {
    seq(|order|, i requires 0 <= i < |order| => Shown(db.jobs[order[i]].status))
  }

  /** A task is shown completed exactly when all its jobs are in the final set. */
  lemma {:induction false} CompletedExactly(db: Db, task: TaskId, order: seq<JobId>)
    requires Lists(db, task, order)
    ensures TaskStatusOf(ShownRows(db, task, order)) == TaskCompleted <==>
            forall j :: j in db.jobs && db.jobs[j].task == task ==> Final(db.jobs[j].status)
  {
    var rows := ShownRows(db, task, order);
    if TaskStatusOf(rows) == TaskCompleted {
      forall j | j in db.jobs && db.jobs[j].task == task
        ensures Final(db.jobs[j].status)
      {
        var i :| 0 <= i < |order| && order[i] == j;
        assert rows[i] in rows;
      }
    } else {
      var i :| 0 <= i < |rows| && rows[i] in {JobRunning, JobQueued};
      var j := order[i];
      assert j in db.jobs && db.jobs[j].task == task && !Final(db.jobs[j].status);
    }
  }

  /** The three statuses: running when some job is, otherwise queued when some job waits for a VM or on one. */
  lemma {:induction false} TaskStatusExactly(db: Db, task: TaskId, order: seq<JobId>)
    requires Lists(db, task, order)
    ensures TaskStatusOf(ShownRows(db, task, order)) == TaskRunning <==>
            exists j :: j in db.jobs && db.jobs[j].task == task && db.jobs[j].status == Running
    ensures TaskStatusOf(ShownRows(db, task, order)) == TaskQueued <==>
            && (exists j :: j in db.jobs && db.jobs[j].task == task && db.jobs[j].status in {Queued, Scheduled})
            && !(exists j :: j in db.jobs && db.jobs[j].task == task && db.jobs[j].status == Running)
  {
    ShownAmong(db, task, order, JobRunning, {Running});
    ShownAmong(db, task, order, JobQueued, {Queued, Scheduled});
  }

  lemma {:induction false} ShownAmong(db: Db, task: TaskId, order: seq<JobId>, shown: ShownJobStatus, among: set<JobStatus>)
    requires Lists(db, task, order) && forall s :: Shown(s) == shown <==> s in among
    ensures shown in ShownRows(db, task, order) <==>
            exists j :: j in db.jobs && db.jobs[j].task == task && db.jobs[j].status in among
  {
    var rows := ShownRows(db, task, order);
    if shown in rows {
      var i :| 0 <= i < |rows| && rows[i] == shown;
      assert order[i] in db.jobs && db.jobs[order[i]].status in among;
    }
    if exists j :: j in db.jobs && db.jobs[j].task == task && db.jobs[j].status in among {
      var j :| j in db.jobs && db.jobs[j].task == task && db.jobs[j].status in among;
      var i :| 0 <= i < |order| && order[i] == j;
      assert rows[i] == shown;
    }
  }

  /** Why a job is shown as it is, over whole runs: completed exactly when its agent reported so while it was unfinished;
      failed exactly when its agent reported an error or its VM was lost at the last restart; cancelled exactly when a
      user's or a timeout's cancellation found it unfinished or its agent reported it cancelled. */
  lemma {:induction false} ShownBecause(c: Config, states: seq<System>, steps: seq<Step>, i: nat, j: JobId)
    requires IsRun(c, states, steps) && i < |states| && j in states[i].db.jobs
    ensures Shown(states[i].db.jobs[j].status) == JobCompleted <==>
            exists k :: 0 <= k < i && Reports(states[k], steps[k], j, Completed)
    ensures Shown(states[i].db.jobs[j].status) == JobFailed <==>
            exists k :: 0 <= k < i && FailedBy(c, states[k], steps[k], j)
    ensures Shown(states[i].db.jobs[j].status) == JobCancelled <==>
            exists k :: 0 <= k < i && CancelledBy(states[k], steps[k], j)
  {
    CompletedBecause(c, states, steps, i, j);
    FailedBecause(c, states, steps, i, j);
    CancelledBecause(c, states, steps, i, j);
  }

  ghost predicate FailedBy(c: Config, s: System, step: Step, j: JobId) {
    Reports(s, step, j, Error) || (LosesVm(c, s, step, j) && s.db.jobs[j].restarts >= c.jobLimit)
  }

  ghost predicate CancelledBy(s: System, step: Step, j: JobId) {
    || (step.CancelJobs? && j in step.cond && j in s.db.jobs && !Final(s.db.jobs[j].status))
    || Reports(s, step, j, Cancelled)
  }

  lemma {:induction false} CompletedBecause(c: Config, states: seq<System>, steps: seq<Step>, i: nat, j: JobId)
    requires IsRun(c, states, steps) && i < |states| && j in states[i].db.jobs
    ensures Shown(states[i].db.jobs[j].status) == JobCompleted <==>
            exists k :: 0 <= k < i && Reports(states[k], steps[k], j, Completed)
  {
    FinalExactly(c, states, steps, i, j, Completed);
    forall k | 0 <= k < i
      ensures JobTurns(c, states[k], steps[k], j, Completed) <==> Reports(states[k], steps[k], j, Completed)
    {
    }
  }

  lemma {:induction false} FailedBecause(c: Config, states: seq<System>, steps: seq<Step>, i: nat, j: JobId)
    requires IsRun(c, states, steps) && i < |states| && j in states[i].db.jobs
    ensures Shown(states[i].db.jobs[j].status) == JobFailed <==>
            exists k :: 0 <= k < i && FailedBy(c, states[k], steps[k], j)
  {
    FinalExactly(c, states, steps, i, j, Error);
    FinalExactly(c, states, steps, i, j, InternalError);
    forall k | 0 <= k < i
      ensures FailedBy(c, states[k], steps[k], j) <==>
              JobTurns(c, states[k], steps[k], j, Error) || JobTurns(c, states[k], steps[k], j, InternalError)
    {
    }
  }

  lemma {:induction false} CancelledBecause(c: Config, states: seq<System>, steps: seq<Step>, i: nat, j: JobId)
    requires IsRun(c, states, steps) && i < |states| && j in states[i].db.jobs
    ensures Shown(states[i].db.jobs[j].status) == JobCancelled <==>
            exists k :: 0 <= k < i && CancelledBy(states[k], steps[k], j)
  {
    FinalExactly(c, states, steps, i, j, Cancelled);
    FinalExactly(c, states, steps, i, j, Cancelling);
    forall k | 0 <= k < i
      ensures CancelledBy(states[k], steps[k], j) <==>
              JobTurns(c, states[k], steps[k], j, Cancelled) || JobTurns(c, states[k], steps[k], j, Cancelling)
    {
    }
  }

  /** A task shown completed is shown completed in every later state of every run. */
  lemma {:induction false} CompletedForever(
    c: Config, states: seq<System>, steps: seq<Step>, i: nat, k: nat, task: TaskId, before: seq<JobId>, after: seq<JobId>)
    requires IsRun(c, states, steps) && i <= k < |states|
    requires Lists(states[i].db, task, before) && Lists(states[k].db, task, after) && before != []
    requires TaskStatusOf(ShownRows(states[i].db, task, before)) == TaskCompleted
    ensures TaskStatusOf(ShownRows(states[k].db, task, after)) == TaskCompleted
  {
    CompletedExactly(states[i].db, task, before);
    CompletedExactly(states[k].db, task, after);
    RunEvolves(c, states, steps, i, k);
    var known := before[0];
    assert known in states[i].db.jobs && states[i].db.jobs[known].task == task;
    forall j | j in states[k].db.jobs && states[k].db.jobs[j].task == task
      ensures Final(states[k].db.jobs[j].status)
    {
      assert j in states[i].db.jobs;
      assert JobEvolves(states[i].db.jobs[j], states[k].db.jobs[j]);
    }
  }
}
