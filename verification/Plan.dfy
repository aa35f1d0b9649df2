/** What a scheduling plan is, and what makes it sound for the state it was computed from. */
module Plan {
  import opened Capacity
  import opened Search

  type JobId = int
  type VmId = int
  type SlotId = int

  datatype QueuedJob = QueuedJob(id: JobId, req: Slot)

  datatype ActiveVm = ActiveVm(id: VmId, total: Slot, idle: Slot)

  datatype DesiredSlot = DesiredSlot(total: Slot, idle: Slot)

  /** Where a plan puts a job: a VM that exists, or one of the plan's new slots. */
  datatype Target = Existing(vm: VmId) | New(slot: SlotId)

  datatype StateChange = StateChange(
    jobToVm: map<JobId, Target>,
    desired: map<SlotId, DesiredSlot>,
    updatedIdle: map<VmId, Slot>,
    terminate: seq<VmId>)

  ghost predicate DistinctJobs(jobs: seq<QueuedJob>) {
    forall i, j :: 0 <= i < j < |jobs| ==> jobs[i].id != jobs[j].id
  }

  ghost predicate DistinctVms(vms: seq<ActiveVm>) {
    forall i, j :: 0 <= i < j < |vms| ==> vms[i].id != vms[j].id
  }

  /** The queued jobs as a map from id to requirement. */
  ghost function ReqMap(jobs: seq<QueuedJob>): map<JobId, Slot>
    requires DistinctJobs(jobs)
  {
    map q | q in jobs :: q.id := q.req
  }

  ghost function VmMap(vms: seq<ActiveVm>): map<VmId, ActiveVm>
    requires DistinctVms(vms)
  {
    map a | a in vms :: a.id := a
  }

  /** Where the catalogue search for `req` stops; |catalogue| when nothing was accepted. */
  function MinFitIndex(catalogue: seq<Slot>, req: Slot): nat {
    Halving(FitFlags(catalogue, req), 0, |catalogue|)
  }

  /** The slot size chosen for a job that opens a slot: the search result, or else the last size. */
  function MinFitSlot(catalogue: seq<Slot>, req: Slot): Slot
    requires |catalogue| > 0
  {
    var i := MinFitIndex(catalogue, req);
    if i < |catalogue| then catalogue[i] else catalogue[|catalogue| - 1]
  }

  /** The size chosen for the job really holds it. */
  predicate Placeable(catalogue: seq<Slot>, req: Slot)
    requires |catalogue| > 0
  {
    req.Fits(MinFitSlot(catalogue, req))
  }

  ghost predicate AllPlaceable(catalogue: seq<Slot>, req: map<JobId, Slot>) {
    |catalogue| > 0 && forall j :: j in req ==> Placeable(catalogue, req[j])
  }

  /** The same of some of the jobs. */
  ghost predicate PlaceableJobs(catalogue: seq<Slot>, req: map<JobId, Slot>, ids: set<JobId>) {
    |catalogue| > 0 && forall j :: j in ids ==> j in req && Placeable(catalogue, req[j])
  }

  /** Each of these jobs fits into some size of the catalogue. */
  ghost predicate FittingJobs(catalogue: seq<Slot>, req: map<JobId, Slot>, ids: set<JobId>) {
    forall j :: j in ids ==> j in req && FitsSome(catalogue, req[j])
  }

  ghost predicate FitsSome(catalogue: seq<Slot>, req: Slot) {
    exists size :: size in catalogue && req.Fits(size)
  }

  /** A job is placeable exactly when the search succeeds, and always when the last size holds it. */
  lemma {:induction false} PlaceableExactly(catalogue: seq<Slot>, req: Slot)
    requires |catalogue| > 0
    ensures MinFitSlot(catalogue, req) in catalogue
    ensures Placeable(catalogue, req) <==> MinFitIndex(catalogue, req) < |catalogue|
    ensures req.Fits(catalogue[|catalogue| - 1]) ==> Placeable(catalogue, req)
    ensures Placeable(catalogue, req) ==>
              var i := MinFitIndex(catalogue, req);
              MinFitSlot(catalogue, req) == catalogue[i] && (i > 0 ==> !req.Fits(catalogue[i - 1]))
  {
    HalvingBoundary(FitFlags(catalogue, req));
  }

  /** A job that no search result holds gets a size that no size of a sorted catalogue exceeds. */
  lemma {:induction false} FallbackIsGreatest(catalogue: seq<Slot>, req: Slot, k: nat)
    requires Sorted(catalogue) && k < |catalogue| && !Placeable(catalogue, req)
    ensures !MinFitSlot(catalogue, req).Less(catalogue[k])
  {
    PlaceableExactly(catalogue, req);
    if k < |catalogue| - 1 {
      assert !catalogue[|catalogue| - 1].Less(catalogue[k]);
    }
  }

  /** The search finds the first size that holds the job, for every job, exactly when the catalogue has pivots. */
  lemma {:induction false} MinFitFirstExactly(catalogue: seq<Slot>)
    requires Sorted(catalogue)
    ensures (forall req: Slot, k :: 0 <= k < |catalogue| && req.Fits(catalogue[k]) ==> MinFitIndex(catalogue, req) <= k)
            <==> Pivots(catalogue, 0, |catalogue|)
  {
    FindsFirstExactly(catalogue);
    if !Pivots(catalogue, 0, |catalogue|) {
      var req: Slot, k :| 0 <= k < |catalogue| && req.Fits(catalogue[k]) &&
                          Halving(FitFlags(catalogue, req), 0, |catalogue|) > k;
      assert MinFitIndex(catalogue, req) > k;
    }
  }

  /** The search finds some size for every job that fits one, exactly when the catalogue is complete. */
  lemma {:induction false} PlaceableIffFitting(catalogue: seq<Slot>)
    requires |catalogue| > 0
    ensures (forall req :: Placeable(catalogue, req) <==> FitsSome(catalogue, req)) <==> Complete(catalogue)
  {
    forall req ensures Placeable(catalogue, req) <==> Caught(catalogue, req, 0, |catalogue|) {
      PlaceableExactly(catalogue, req);
      CaughtExactly(catalogue, req, 0, |catalogue|);
    }
    if Complete(catalogue) {
      forall req ensures Placeable(catalogue, req) <==> FitsSome(catalogue, req) {
        FittingIsPlaceable(catalogue, req);
      }
    } else {
      var i :| 0 <= i < |catalogue| && !Caught(catalogue, catalogue[i], 0, |catalogue|);
      assert FitsSome(catalogue, catalogue[i]) && !Placeable(catalogue, catalogue[i]);
    }
  }

  lemma {:induction false} FittingIsPlaceable(catalogue: seq<Slot>, req: Slot)
    requires |catalogue| > 0 && Complete(catalogue)
    ensures Placeable(catalogue, req) <==> FitsSome(catalogue, req)
  {
    PlaceableExactly(catalogue, req);
    CaughtExactly(catalogue, req, 0, |catalogue|);
    if FitsSome(catalogue, req) {
      var k :| 0 <= k < |catalogue| && req.Fits(catalogue[k]);
      CaughtBelow(catalogue, req, catalogue[k], 0, |catalogue|);
    }
  }

  /** In a catalogue whose sizes form a chain the chosen size is the least that holds the job. */
  lemma {:induction false} MinFitIsLeast(catalogue: seq<Slot>, req: Slot, k: nat)
    requires Sorted(catalogue) && Chain(catalogue) && k < |catalogue| && req.Fits(catalogue[k])
    ensures Complete(catalogue) && Placeable(catalogue, req) && MinFitSlot(catalogue, req).Fits(catalogue[k])
  {
    SortedChainPivots(catalogue, 0, |catalogue|);
    PivotsComplete(catalogue);
    PivotsFind(catalogue, 0, |catalogue|, req, k);
    PlaceableExactly(catalogue, req);
    var i := MinFitIndex(catalogue, req);
    if i < k {
      assert !catalogue[k].Less(catalogue[i]);
    }
  }

  /** A catalogue that is not a chain: the size (1, 10) holds the job, but the search ends without it. */
  lemma {:induction false} MinFitCanMiss()
    ensures var catalogue := [Slot(1, 10), Slot(2, 5)]; var req := Slot(1, 10);
            Sorted(catalogue) && req.Fits(catalogue[0]) && !Placeable(catalogue, req)
  {
    var catalogue := [Slot(1, 10), Slot(2, 5)];
    var ok := FitFlags(catalogue, Slot(1, 10));
    assert ok == [true, false];
    assert Mid(0, 2) == 1 && Halving(ok, 0, 2) == Halving(ok, 2, 2) == 2;
  }

  /** The requirements a plan puts on one target. */
  ghost function Load(ch: StateChange, req: map<JobId, Slot>, t: Target): Slot
    requires ch.jobToVm.Keys <= req.Keys
  {
    Total(Preimage(ch.jobToVm, t), req)
  }

  /** The idle capacity a planned-on VM is left with. */
  ghost function IdleAfter(ch: StateChange, snap: map<VmId, ActiveVm>, v: VmId): Slot
    requires v in snap
  {
    if v in ch.updatedIdle then ch.updatedIdle[v] else snap[v].idle
  }

  /** Every queued job is assigned once, to a VM whose idle capacity is updated or to a new slot. */
  ghost predicate AssignsAll(req: map<JobId, Slot>, ch: StateChange) {
    && ch.jobToVm.Keys == req.Keys
    && (forall j :: j in ch.jobToVm ==>
          match ch.jobToVm[j]
          case Existing(v) => v in ch.updatedIdle
          case New(s) => s in ch.desired)
  }

  /** Existing VMs: only snapshot VMs are updated, each loses exactly the load put on it. */
  ghost predicate ChargesVms(req: map<JobId, Slot>, snap: map<VmId, ActiveVm>, ch: StateChange)
    requires ch.jobToVm.Keys <= req.Keys
  {
    forall v :: v in ch.updatedIdle ==>
      && v in snap
      && Preimage(ch.jobToVm, Existing(v)) != {}
      && snap[v].idle.IsSum(ch.updatedIdle[v], Load(ch, req, Existing(v)))
  }

  /** New slots: idle <= total <= idle + load, and total == idle + load when the jobs on it are placeable. */
  ghost predicate FillsSlots(catalogue: seq<Slot>, req: map<JobId, Slot>, ch: StateChange)
    requires ch.jobToVm.Keys <= req.Keys
  {
    forall s :: s in ch.desired ==>
      && Preimage(ch.jobToVm, New(s)) != {}
      && ch.desired[s].idle.Fits(ch.desired[s].total)
      && ch.desired[s].total.Within(ch.desired[s].idle, Load(ch, req, New(s)))
      && (PlaceableJobs(catalogue, req, Preimage(ch.jobToVm, New(s))) ==>
            ch.desired[s].total.IsSum(ch.desired[s].idle, Load(ch, req, New(s))))
  }

  /** A VM is given up exactly when the plan leaves it fully idle. */
  ghost predicate DropsIdle(snap: map<VmId, ActiveVm>, ch: StateChange) {
    forall v :: v in ch.terminate <==> v in snap && IdleAfter(ch, snap, v) == snap[v].total
  }

  /** What the store relies on when it commits a plan computed from `req` and `snap`. */
  ghost predicate PlanSound(
    catalogue: seq<Slot>, req: map<JobId, Slot>, snap: map<VmId, ActiveVm>, ch: StateChange)
  {
    && AssignsAll(req, ch)
    && ChargesVms(req, snap, ch)
    && FillsSlots(catalogue, req, ch)
    && DropsIdle(snap, ch)
  }

  lemma {:induction false} IdleKept(total: Slot, before: Slot, after: Slot, load: Slot)
    requires before.IsSum(after, load) && before.Fits(total)
    ensures after == total <==> before == total && load.Fits(ZERO)
  {
  }

  /** A VM is given up exactly when it was read fully idle and every job put on it, if any, requires nothing at all. */
  lemma {:induction false} GivenUpExactly(
    catalogue: seq<Slot>, req: map<JobId, Slot>, snap: map<VmId, ActiveVm>, ch: StateChange, v: VmId)
    requires PlanSound(catalogue, req, snap, ch) && v in snap && snap[v].idle.Fits(snap[v].total)
    ensures v in ch.terminate <==>
            snap[v].idle == snap[v].total && forall j :: j in Preimage(ch.jobToVm, Existing(v)) ==> req[j].Fits(ZERO)
  {
    var put := Preimage(ch.jobToVm, Existing(v));
    if forall j :: j in put ==> req[j].Fits(ZERO) {
      TotalZero(put, req);
    } else {
      var j :| j in put && !req[j].Fits(ZERO);
      TotalTake(put, j, req);
    }
    if v in ch.updatedIdle {
      IdleKept(snap[v].total, snap[v].idle, ch.updatedIdle[v], Load(ch, req, Existing(v)));
    } else {
      UnchargedEmpty(req, ch, v);
    }
  }

  lemma {:induction false} UnchargedEmpty(req: map<JobId, Slot>, ch: StateChange, v: VmId)
    requires AssignsAll(req, ch) && v !in ch.updatedIdle
    ensures Preimage(ch.jobToVm, Existing(v)) == {}
  {
    forall j | j in ch.jobToVm
      ensures ch.jobToVm[j] != Existing(v)
    {
      match ch.jobToVm[j]
      case Existing(u) =>
      case New(t) =>
    }
  }

  /** The capacity a plan takes: what each updated VM loses and what each new slot has in use. */
  ghost function TakenCapacity(snap: map<VmId, ActiveVm>, ch: StateChange): map<Target, Slot>
    requires forall v :: v in ch.updatedIdle ==> v in snap
  {
    (map v | v in ch.updatedIdle :: Existing(v) := snap[v].idle.Minus(ch.updatedIdle[v])) +
    (map s | s in ch.desired :: New(s) := ch.desired[s].total.Minus(ch.desired[s].idle))
  }

  /** What the queue requires is what the plan takes, over all VMs and slots together. */
  ghost predicate Conserved(req: map<JobId, Slot>, snap: map<VmId, ActiveVm>, ch: StateChange)
    requires forall v :: v in ch.updatedIdle ==> v in snap
  {
    var taken := TakenCapacity(snap, ch);
    Total(req.Keys, req).IsSum(Total(taken.Keys, taken), ZERO)
  }

  /** Taken capacity against load, target by target. */
  lemma {:induction false} TakenAgainstLoad(
    catalogue: seq<Slot>, req: map<JobId, Slot>, snap: map<VmId, ActiveVm>, ch: StateChange, t: Target)
    requires PlanSound(catalogue, req, snap, ch) && t in TakenCapacity(snap, ch)
    ensures TakenCapacity(snap, ch)[t].Fits(Load(ch, req, t))
    ensures Load(ch, req, t).Fits(TakenCapacity(snap, ch)[t]) <==>
            (t.New? ==> ch.desired[t.slot].total.IsSum(ch.desired[t.slot].idle, Load(ch, req, t)))
  {
    match t
    case Existing(v) => assert snap[v].idle.IsSum(ch.updatedIdle[v], Load(ch, req, t));
    case New(s) => assert ch.desired[s].idle.Fits(ch.desired[s].total);
  }

  /** Every job is on a target whose capacity is taken. */
  lemma {:induction false} TargetsTaken(req: map<JobId, Slot>, snap: map<VmId, ActiveVm>, ch: StateChange, j: JobId)
    requires AssignsAll(req, ch) && j in ch.jobToVm && forall v :: v in ch.updatedIdle ==> v in snap
    ensures ch.jobToVm[j] in TakenCapacity(snap, ch)
  {
    match ch.jobToVm[j]
    case Existing(v) =>
    case New(s) =>
  }

  /** No new slot is smaller than what was put on it. */
  ghost predicate SlotsExact(req: map<JobId, Slot>, ch: StateChange)
    requires ch.jobToVm.Keys <= req.Keys
  {
    forall s :: s in ch.desired ==> ch.desired[s].total.IsSum(ch.desired[s].idle, Load(ch, req, New(s)))
  }

  lemma {:induction false} SlotsExactByTarget(req: map<JobId, Slot>, ch: StateChange, taken: map<Target, Slot>)
    requires ch.jobToVm.Keys <= req.Keys
    requires forall s :: s in ch.desired <==> New(s) in taken
    requires forall t :: t in taken ==>
               (Load(ch, req, t).Fits(taken[t]) <==>
                (t.New? ==> ch.desired[t.slot].total.IsSum(ch.desired[t.slot].idle, Load(ch, req, t))))
    ensures SlotsExact(req, ch) <==> forall t :: t in taken ==> Load(ch, req, t).Fits(taken[t])
  {
    if !SlotsExact(req, ch) {
      var s :| s in ch.desired && !ch.desired[s].total.IsSum(ch.desired[s].idle, Load(ch, req, New(s)));
      assert New(s) in taken;
    }
  }

  /** Conservation holds exactly when the new slots hold what was put on them. */
  lemma {:induction false} ConservedExactly(
    catalogue: seq<Slot>, req: map<JobId, Slot>, snap: map<VmId, ActiveVm>, ch: StateChange)
    requires PlanSound(catalogue, req, snap, ch)
    ensures Conserved(req, snap, ch) <==> SlotsExact(req, ch)
  {
    var taken := TakenCapacity(snap, ch);
    forall j | j in ch.jobToVm { TargetsTaken(req, snap, ch, j); }
    forall t | t in taken { TakenAgainstLoad(catalogue, req, snap, ch, t); }
    SlotsExactByTarget(req, ch, taken);
    ConservedByTarget(req, ch, taken);
  }

  lemma {:induction false} ConservedByTarget(req: map<JobId, Slot>, ch: StateChange, taken: map<Target, Slot>)
    requires ch.jobToVm.Keys == req.Keys && forall j :: j in ch.jobToVm ==> ch.jobToVm[j] in taken
    requires forall t :: t in taken ==> taken[t].Fits(Load(ch, req, t))
    ensures Total(req.Keys, req).IsSum(Total(taken.Keys, taken), ZERO) <==>
            forall t :: t in taken ==> Load(ch, req, t).Fits(taken[t])
  {
    var loads := map t | t in taken :: Load(ch, req, t);
    forall j | j in ch.jobToVm ensures ch.jobToVm[j] in taken { assert ch.jobToVm[j] in taken.Keys; }
    TotalTaken(ch.jobToVm, req, taken, loads);
  }

  /** With placeable jobs every sound plan conserves capacity. */
  lemma {:induction false} PlanConserves(
    catalogue: seq<Slot>, req: map<JobId, Slot>, snap: map<VmId, ActiveVm>, ch: StateChange)
    requires PlanSound(catalogue, req, snap, ch) && AllPlaceable(catalogue, req)
    ensures Conserved(req, snap, ch)
  {
    ConservedExactly(catalogue, req, snap, ch);
  }

  /** The jobs a plan opens new slots for. */
  ghost function NewJobs(ch: StateChange): set<JobId> {
    set j | j in ch.jobToVm && ch.jobToVm[j].New?
  }

  /** Slots that hold what was put on them hold only jobs that fit some size of the catalogue, and a job alone on such
      a slot is placeable. */
  ghost predicate OversizedLose(catalogue: seq<Slot>, req: map<JobId, Slot>, ch: StateChange)
    requires ch.jobToVm.Keys <= req.Keys
  {
    forall s :: s in ch.desired && ch.desired[s].total.IsSum(ch.desired[s].idle, Load(ch, req, New(s))) ==>
      && FittingJobs(catalogue, req, Preimage(ch.jobToVm, New(s)))
      && (|Preimage(ch.jobToVm, New(s))| == 1 ==> PlaceableJobs(catalogue, req, Preimage(ch.jobToVm, New(s))))
  }

  lemma {:induction false} ExactSlotsFit(catalogue: seq<Slot>, req: map<JobId, Slot>, ch: StateChange, j: JobId)
    requires AssignsAll(req, ch) && OversizedLose(catalogue, req, ch) && SlotsExact(req, ch) && j in NewJobs(ch)
    ensures j in req && FitsSome(catalogue, req[j])
  {
    var s := ch.jobToVm[j].slot;
    assert j in Preimage(ch.jobToVm, New(s));
    assert FittingJobs(catalogue, req, Preimage(ch.jobToVm, New(s)));
  }

  lemma {:induction false} FittingSlotsExact(catalogue: seq<Slot>, req: map<JobId, Slot>, ch: StateChange, s: SlotId)
    requires ch.jobToVm.Keys <= req.Keys && FillsSlots(catalogue, req, ch) && FittingJobs(catalogue, req, NewJobs(ch))
    requires |catalogue| > 0 && Complete(catalogue) && s in ch.desired
    ensures ch.desired[s].total.IsSum(ch.desired[s].idle, Load(ch, req, New(s)))
  {
    forall j | j in Preimage(ch.jobToVm, New(s))
      ensures j in req && Placeable(catalogue, req[j])
    {
      assert j in NewJobs(ch);
      FittingIsPlaceable(catalogue, req[j]);
    }
    assert PlaceableJobs(catalogue, req, Preimage(ch.jobToVm, New(s)));
  }

  lemma {:induction false} ExactIffFitting(catalogue: seq<Slot>, req: map<JobId, Slot>, ch: StateChange)
    requires AssignsAll(req, ch) && FillsSlots(catalogue, req, ch) && OversizedLose(catalogue, req, ch)
    requires |catalogue| > 0 && Complete(catalogue)
    ensures SlotsExact(req, ch) <==> FittingJobs(catalogue, req, NewJobs(ch))
  {
    if SlotsExact(req, ch) {
      forall j | j in NewJobs(ch) ensures j in req && FitsSome(catalogue, req[j]) {
        ExactSlotsFit(catalogue, req, ch, j);
      }
    }
    if FittingJobs(catalogue, req, NewJobs(ch)) {
      forall s | s in ch.desired
        ensures ch.desired[s].total.IsSum(ch.desired[s].idle, Load(ch, req, New(s)))
      {
        FittingSlotsExact(catalogue, req, ch, s);
      }
    }
  }

  /** With a complete catalogue it holds exactly when every job that gets a new slot fits some size. */
  lemma {:induction false} ConservedIffFitting(
    catalogue: seq<Slot>, req: map<JobId, Slot>, snap: map<VmId, ActiveVm>, ch: StateChange)
    requires PlanSound(catalogue, req, snap, ch) && OversizedLose(catalogue, req, ch)
    requires |catalogue| > 0 && Complete(catalogue)
    ensures Conserved(req, snap, ch) <==> FittingJobs(catalogue, req, NewJobs(ch))
  {
    assert Conserved(req, snap, ch) <==> SlotsExact(req, ch) by { ConservedExactly(catalogue, req, snap, ch); }
    assert SlotsExact(req, ch) <==> FittingJobs(catalogue, req, NewJobs(ch)) by { ExactIffFitting(catalogue, req, ch); }
  }

  /** A VM of the catalogue's sizes only takes jobs that fit some size. */
  lemma {:induction false} ChargedFit(
    catalogue: seq<Slot>, req: map<JobId, Slot>, snap: map<VmId, ActiveVm>, ch: StateChange, j: JobId)
    requires AssignsAll(req, ch) && ChargesVms(req, snap, ch) && j in ch.jobToVm && ch.jobToVm[j].Existing?
    requires forall v :: v in snap ==> FitsSome(catalogue, snap[v].idle)
    ensures j in req && FitsSome(catalogue, req[j])
  {
    var v := ch.jobToVm[j].vm;
    assert j in req.Keys && v in ch.updatedIdle;
    TotalTake(Preimage(ch.jobToVm, Existing(v)), j, req);
    assert snap[v].idle.IsSum(ch.updatedIdle[v], Load(ch, req, Existing(v)));
    var size :| size in catalogue && snap[v].idle.Fits(size);
    assert req[j].Fits(size);
  }

  /** So the jobs that get new slots fit exactly when the whole queue does. */
  lemma {:induction false} QueueFits(
    catalogue: seq<Slot>, req: map<JobId, Slot>, snap: map<VmId, ActiveVm>, ch: StateChange)
    requires AssignsAll(req, ch) && ChargesVms(req, snap, ch)
    requires forall v :: v in snap ==> FitsSome(catalogue, snap[v].idle)
    ensures FittingJobs(catalogue, req, NewJobs(ch)) <==> FittingJobs(catalogue, req, req.Keys)
  {
    forall j | j in req
      ensures j in NewJobs(ch) || FitsSome(catalogue, req[j])
    {
      assert j in ch.jobToVm.Keys;
      if ch.jobToVm[j].Existing? {
        ChargedFit(catalogue, req, snap, ch, j);
      }
    }
    assert forall j :: j in NewJobs(ch) ==> j in ch.jobToVm.Keys;
  }

  /** Conservation as a condition on the input: with VMs of the catalogue's sizes, a complete catalogue and the packing
      planner, capacity is conserved exactly when every queued job fits some size. */
  lemma {:induction false} ConservedIffQueueFits(
    catalogue: seq<Slot>, req: map<JobId, Slot>, snap: map<VmId, ActiveVm>, ch: StateChange)
    requires PlanSound(catalogue, req, snap, ch) && OversizedLose(catalogue, req, ch)
    requires |catalogue| > 0 && Complete(catalogue) && forall v :: v in snap ==> FitsSome(catalogue, snap[v].idle)
    ensures Conserved(req, snap, ch) <==> FittingJobs(catalogue, req, req.Keys)
  {
    assert Conserved(req, snap, ch) <==> FittingJobs(catalogue, req, NewJobs(ch)) by {
      ConservedIffFitting(catalogue, req, snap, ch);
    }
    assert FittingJobs(catalogue, req, NewJobs(ch)) <==> FittingJobs(catalogue, req, req.Keys) by {
      QueueFits(catalogue, req, snap, ch);
    }
  }

  /** One job of (2, 2), the size (1, 1) and no active VM: no plan of the packing planner conserves capacity. */
  lemma {:induction false} OversizedNotConserved(ch: StateChange)
    requires var req: map<JobId, Slot> := map[1 := Slot(2, 2)];
             PlanSound([Slot(1, 1)], req, map[], ch) && OversizedLose([Slot(1, 1)], req, ch)
    ensures !Conserved(map[1 := Slot(2, 2)], map[], ch)
  {
    var catalogue, req: map<JobId, Slot> := [Slot(1, 1)], map[1 := Slot(2, 2)];
    assert Caught(catalogue, catalogue[0], 0, 1);
    ConservedIffQueueFits(catalogue, req, map[], ch);
    assert 1 in req.Keys && !FitsSome(catalogue, req[1]);
  }

  /** A complete catalogue is needed: for a job of a size the search misses, no plan of the packing planner conserves
      capacity although the job fits that size. */
  lemma {:induction false} MissedNotConserved(catalogue: seq<Slot>, size: Slot, ch: StateChange)
    requires size in catalogue && !Placeable(catalogue, size)
    requires var req: map<JobId, Slot> := map[1 := size];
             PlanSound(catalogue, req, map[], ch) && OversizedLose(catalogue, req, ch)
    ensures FitsSome(catalogue, size) && !Complete(catalogue) && !Conserved(map[1 := size], map[], ch)
  {
    var req: map<JobId, Slot>, snap: map<VmId, ActiveVm> := map[1 := size], map[];
    PlaceableIffFitting(catalogue);
    assert 1 in ch.jobToVm.Keys && ch.jobToVm.Keys == {1};
    assert ch.jobToVm[1].New?;
    var s := ch.jobToVm[1].slot;
    assert Preimage(ch.jobToVm, New(s)) == {1};
    ConservedExactly(catalogue, req, snap, ch);
  }

  /** New slots never outnumber the jobs that no existing VM took. */
  lemma {:induction false} NewSlotsBounded(
    catalogue: seq<Slot>, req: map<JobId, Slot>, snap: map<VmId, ActiveVm>, ch: StateChange)
    requires PlanSound(catalogue, req, snap, ch)
    ensures |ch.desired| <= |NewJobs(ch)|
  {
    FewerSlotsThanJobs(ch.jobToVm, ch.desired.Keys, NewJobs(ch));
  }

  lemma {:induction false} FewerSlotsThanJobs(f: map<JobId, Target>, slots: set<SlotId>, jobs: set<JobId>)
    requires forall s :: s in slots ==> Preimage(f, New(s)) != {}
    requires forall j :: j in f && f[j].New? && f[j].slot in slots ==> j in jobs
    ensures |slots| <= |jobs|
    decreases slots
  {
    if slots != {} {
      var s := Pick(slots);
      var j := Pick(Preimage(f, New(s)));
      FewerSlotsThanJobs(f, slots - {s}, jobs - {j});
    }
  }
}
