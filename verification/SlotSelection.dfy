/** Packing the jobs that no active VM takes into new slots, merging equal slots into doubled ones. */
module SlotSelection {
  import opened Capacity
  import opened Plan
  import opened Ordering

  /** A node of the list of open slots; `node` stands for the iterator that identifies it. */
  datatype Entry = Entry(node: nat, slot: DesiredSlot, jobs: seq<JobId>)

  /** The multimap from slot sizes to list nodes. */
  type Index = set<(Slot, nat)>

  function Keyed(index: Index, size: Slot): Index {
    set p | p in index && p.0 == size
  }

  ghost predicate DistinctNodes(slots: seq<Entry>) {
    forall i, j :: 0 <= i < j < |slots| ==> slots[i].node != slots[j].node
  }

  /** The multimap has exactly one entry per node, keyed by the node's total. */
  ghost predicate Agrees(slots: seq<Entry>, index: Index, next: nat) {
    && DistinctNodes(slots)
    && (forall e :: e in slots ==> e.node < next && (e.slot.total, e.node) in index)
    && (forall p :: p in index ==> exists e :: e in slots && p == (e.slot.total, e.node))
  }

  ghost function SumSeq(jobs: seq<JobId>, req: map<JobId, Slot>): Slot
    requires forall j :: j in jobs ==> j in req
  {
    if jobs == [] then ZERO
    else
      var last := jobs[|jobs| - 1];
      assert last in jobs;
      SumSeq(jobs[..|jobs| - 1], req).Plus(req[last])
  }

  lemma {:induction false} SumSeqConcat(a: seq<JobId>, b: seq<JobId>, req: map<JobId, Slot>)
    requires forall j :: j in a || j in b ==> j in req
    ensures forall j :: j in a + b ==> j in req
    ensures SumSeq(a + b, req).IsSum(SumSeq(a, req), SumSeq(b, req))
    decreases |b|
  {
    if b == [] {
      assert a + b == a;
    } else {
      var init := b[..|b| - 1];
      assert (a + b)[..|a + b| - 1] == a + init;
      SumSeqConcat(a, init, req);
    }
  }

  ghost function JobSet(jobs: seq<JobId>): set<JobId> {
    set j | j in jobs
  }

  lemma {:induction false} LastDropped(jobs: seq<JobId>, init: seq<JobId>, last: JobId)
    requires jobs == init + [last]
    requires forall i, j :: 0 <= i < j < |jobs| ==> jobs[i] != jobs[j]
    ensures last !in init && JobSet(jobs) == JobSet(init) + {last}
  {
    assert jobs[|jobs| - 1] == last;
    forall i | 0 <= i < |init| ensures init[i] != last { assert jobs[i] == init[i]; }
  }

  /** Without repetitions the sum along the list is the sum over the set. */
  lemma {:induction false} SumSeqIsTotal(jobs: seq<JobId>, req: map<JobId, Slot>)
    requires forall j :: j in jobs ==> j in req
    requires forall i, j :: 0 <= i < j < |jobs| ==> jobs[i] != jobs[j]
    ensures SumSeq(jobs, req).IsSum(Total(JobSet(jobs), req), ZERO)
    decreases |jobs|
  {
    var ids := JobSet(jobs);
    if jobs == [] {
      assert ids == {};
    } else {
      var init, last := jobs[..|jobs| - 1], jobs[|jobs| - 1];
      var rest := JobSet(init);
      LastDropped(jobs, init, last);
      assert SumSeq(init, req).IsSum(Total(rest, req), ZERO) by { SumSeqIsTotal(init, req); }
      assert Total(ids, req).IsSum(req[last], Total(rest, req)) by {
        TotalTake(ids, last, req);
        assert ids - {last} == rest;
      }
    }
  }

  /** The ledger of one open slot: nothing is lost if its jobs are placeable, and something is if one fits no size. */
  ghost predicate Ledger(catalogue: seq<Slot>, req: map<JobId, Slot>, e: Entry) {
    && e.slot.total in catalogue
    && |e.jobs| > 0
    && (forall j :: j in e.jobs ==> j in req)
    && e.slot.idle.Fits(e.slot.total)
    && e.slot.total.Within(e.slot.idle, SumSeq(e.jobs, req))
    && (PlaceableJobs(catalogue, req, JobSet(e.jobs)) ==> e.slot.total.IsSum(e.slot.idle, SumSeq(e.jobs, req)))
    && (e.slot.total.IsSum(e.slot.idle, SumSeq(e.jobs, req)) ==>
          && FittingJobs(catalogue, req, JobSet(e.jobs))
          && (|e.jobs| == 1 ==> PlaceableJobs(catalogue, req, JobSet(e.jobs))))
  }

  ghost predicate Ledgers(catalogue: seq<Slot>, req: map<JobId, Slot>, slots: seq<Entry>) {
    forall e :: e in slots ==> Ledger(catalogue, req, e)
  }

  /** All jobs of all slots, with multiplicity. */
  ghost function AllJobs(slots: seq<Entry>): multiset<JobId> {
    if slots == [] then multiset{} else AllJobs(slots[..|slots| - 1]) + multiset(slots[|slots| - 1].jobs)
  }

  lemma {:induction false} AllJobsConcat(a: seq<Entry>, b: seq<Entry>)
    ensures AllJobs(a + b) == AllJobs(a) + AllJobs(b)
    decreases |b|
  {
    if b == [] {
      assert a + b == a;
    } else {
      assert (a + b)[..|a + b| - 1] == a + b[..|b| - 1];
      AllJobsConcat(a, b[..|b| - 1]);
    }
  }

  /** Taking one entry out of the list, or changing it, takes out or changes its jobs. */
  lemma {:induction false} AllJobsAt(slots: seq<Entry>, i: nat)
    requires i < |slots|
    ensures AllJobs(slots) == AllJobs(slots[..i] + slots[i + 1..]) + multiset(slots[i].jobs)
  {
    assert slots == slots[..i] + ([slots[i]] + slots[i + 1..]);
    AllJobsConcat(slots[..i], [slots[i]] + slots[i + 1..]);
    AllJobsConcat([slots[i]], slots[i + 1..]);
    AllJobsConcat(slots[..i], slots[i + 1..]);
    assert [slots[i]][..0] == [];
    assert AllJobs([slots[i]]) == multiset(slots[i].jobs);
  }

  /** A size is crowded when two slots of that size are open although one doubled slot could replace them. */
  ghost predicate Crowded(catalogue: seq<Slot>, index: Index, size: Slot) {
    size.Double() in catalogue && |Keyed(index, size)| > 1
  }

  ghost predicate Merged(catalogue: seq<Slot>, index: Index) {
    forall size :: !Crowded(catalogue, index, size)
  }

  /** Before a merge at `start` only that size may be crowded, and only by one slot too many. */
  ghost predicate MergedExcept(catalogue: seq<Slot>, index: Index, start: Slot) {
    && (forall size :: size != start ==> !Crowded(catalogue, index, size))
    && 1 <= |Keyed(index, start)|
    && (start.Double() in catalogue ==> |Keyed(index, start)| <= 2)
  }

  lemma {:induction false} KeyedAdded(index: Index, size: Slot, node: nat, other: Slot)
    requires (size, node) !in index
    ensures Keyed(index + {(size, node)}, other) ==
            if other == size then Keyed(index, other) + {(size, node)} else Keyed(index, other)
    ensures |Keyed(index + {(size, node)}, other)| == |Keyed(index, other)| + if other == size then 1 else 0
  {
    if other == size {
      assert Keyed(index + {(size, node)}, other) == Keyed(index, other) + {(size, node)};
    } else {
      assert Keyed(index + {(size, node)}, other) == Keyed(index, other);
    }
  }

  lemma {:induction false} KeyedRemoved(index: Index, size: Slot, node: nat, other: Slot)
    requires (size, node) in index
    ensures |Keyed(index - {(size, node)}, other)| == |Keyed(index, other)| - if other == size then 1 else 0
  {
    var smaller := index - {(size, node)};
    KeyedAdded(smaller, size, node, other);
    assert smaller + {(size, node)} == index;
  }

  /** Opening a slot of a size after a full merge leaves only that size to merge. */
  lemma {:induction false} MergedThenAdded(catalogue: seq<Slot>, index: Index, size: Slot, node: nat)
    requires Merged(catalogue, index) && (size, node) !in index
    ensures MergedExcept(catalogue, index + {(size, node)}, size)
  {
    forall other
      ensures other != size ==> !Crowded(catalogue, index + {(size, node)}, other)
      ensures other == size ==>
                |Keyed(index + {(size, node)}, other)| >= 1 &&
                (other.Double() in catalogue ==> |Keyed(index + {(size, node)}, other)| <= 2)
    {
      KeyedAdded(index, size, node, other);
      assert !Crowded(catalogue, index, other);
    }
  }

  /** Replacing the two slots of a size by a doubled one moves the exception to the doubled size. */
  lemma {:induction false} MergedOneUp(catalogue: seq<Slot>, index: Index, start: Slot, a: nat, b: nat, node: nat)
    requires MergedExcept(catalogue, index, start) && start.Double() in catalogue
    requires a != b && (start, a) in index && (start, b) in index && (start.Double(), node) !in index
    ensures MergedExcept(catalogue, index - {(start, a)} - {(start, b)} + {(start.Double(), node)}, start.Double())
  {
    var one := index - {(start, a)};
    var two := one - {(start, b)};
    forall size
      ensures !Crowded(catalogue, two, size)
    {
      KeyedRemoved(index, start, a, size);
      KeyedRemoved(one, start, b, size);
      assert size != start ==> !Crowded(catalogue, index, size);
    }
    MergedThenAdded(catalogue, two, start.Double(), node);
  }

  lemma {:induction false} ErasedNodes(slots: seq<Entry>, i: nat)
    requires DistinctNodes(slots) && i < |slots|
    ensures DistinctNodes(slots[..i] + slots[i + 1..])
    ensures forall e :: e in slots[..i] + slots[i + 1..] ==> e in slots && e.node != slots[i].node
    ensures forall e :: e in slots && e.node != slots[i].node ==> e in slots[..i] + slots[i + 1..]
  {
    var rest := slots[..i] + slots[i + 1..];
    forall e | e in slots && e.node != slots[i].node
      ensures e in rest
    {
      var n :| 0 <= n < |slots| && slots[n] == e;
      assert e == rest[if n < i then n else n - 1];
    }
  }

  /** One entry removed from the list and its pair from the multimap. */
  lemma {:induction false} AgreesErased(slots: seq<Entry>, index: Index, next: nat, i: nat)
    requires Agrees(slots, index, next) && i < |slots|
    ensures Agrees(slots[..i] + slots[i + 1..], index - {(slots[i].slot.total, slots[i].node)}, next)
  {
    ErasedNodes(slots, i);
    forall p | p in index - {(slots[i].slot.total, slots[i].node)}
      ensures exists e :: e in slots[..i] + slots[i + 1..] && p == (e.slot.total, e.node)
    {
      var e :| e in slots && p == (e.slot.total, e.node);
    }
  }

  lemma {:induction false} AgreesAppended(slots: seq<Entry>, index: Index, next: nat, e: Entry)
    requires Agrees(slots, index, next) && e.node == next
    ensures (e.slot.total, next) !in index
    ensures Agrees(slots + [e], index + {(e.slot.total, next)}, next + 1)
  {
    assert forall x :: x in slots ==> x.node != next;
    assert (slots + [e])[|slots|] == e;
    forall x | x in slots ensures x in slots + [e] {}
  }

  /** The merged entry: idle capacities and jobs joined, total doubled. */
  function Join(node: nat, a: Entry, b: Entry): Entry {
    Entry(node, DesiredSlot(a.slot.total.Double(), a.slot.idle.Plus(b.slot.idle)), a.jobs + b.jobs)
  }

  lemma {:induction false} JoinKeepsLedger(catalogue: seq<Slot>, req: map<JobId, Slot>, node: nat, a: Entry, b: Entry)
    requires Ledger(catalogue, req, a) && Ledger(catalogue, req, b)
    requires a.slot.total == b.slot.total && a.slot.total.Double() in catalogue
    ensures Ledger(catalogue, req, Join(node, a, b))
  {
    SumSeqConcat(a.jobs, b.jobs, req);
  }

  lemma {:induction false} JoinKeepsLedgers(
    catalogue: seq<Slot>, req: map<JobId, Slot>, slots: seq<Entry>, node: nat, a: Entry, b: Entry, rest: seq<Entry>)
    requires Ledgers(catalogue, req, slots) && a in slots && b in slots && forall x :: x in rest ==> x in slots
    requires a.slot.total == b.slot.total && a.slot.total.Double() in catalogue
    ensures Ledgers(catalogue, req, rest + [Join(node, a, b)])
  {
    JoinKeepsLedger(catalogue, req, node, a, b);
  }

  /** A list without its element at `i`. */
  function Erase<T>(s: seq<T>, i: nat): seq<T>
    requires i < |s|
  {
    s[..i] + s[i + 1..]
  }

  /** An open slot as the plan sees it: its capacities and its jobs in no order. */
  datatype Open = Open(slot: DesiredSlot, jobs: multiset<JobId>)

  ghost function View(e: Entry): Open {
    Open(e.slot, multiset(e.jobs))
  }

  ghost function Views(slots: seq<Entry>): (r: seq<Open>)
    ensures |r| == |slots| && forall i :: 0 <= i < |r| ==> r[i] == View(slots[i])
  {
    seq(|slots|, i requires 0 <= i < |slots| => View(slots[i]))
  }

  /** The first slot of a size, |open| when there is none. */
  ghost function SizeAt(open: seq<Open>, size: Slot): (i: nat)
    ensures i <= |open| && (i < |open| ==> open[i].slot.total == size)
    ensures forall k :: 0 <= k < i ==> open[k].slot.total != size
  {
    if open == [] || open[0].slot.total == size then 0 else 1 + SizeAt(open[1..], size)
  }

  ghost function JoinOpen(a: Open, b: Open): Open {
    Open(DesiredSlot(a.slot.total.Double(), a.slot.idle.Plus(b.slot.idle)), a.jobs + b.jobs)
  }

  /** Merging by the book: a slot absorbs the first slot of its size, if there is one and the doubled size is offered, and
      goes on with the doubled size. The slots that stay keep their order and the merged slot comes last. */
  ghost function MergeInto(catalogue: seq<Slot>, others: seq<Open>, mine: Open): seq<Open>
    decreases |others|
  {
    var i := SizeAt(others, mine.slot.total);
    if i < |others| && mine.slot.total.Double() in catalogue then
      MergeInto(catalogue, Erase(others, i), JoinOpen(mine, others[i]))
    else others + [mine]
  }

  /** The sizes of the open slots. */
  ghost function Totals(slots: seq<Entry>): (r: seq<Slot>)
    ensures |r| == |slots| && forall i :: 0 <= i < |r| ==> r[i] == slots[i].slot.total
  {
    seq(|slots|, i requires 0 <= i < |slots| => slots[i].slot.total)
  }

  lemma {:induction false} ErasedAt(slots: seq<Entry>, i: nat)
    requires i < |slots|
    ensures multiset(slots) == multiset(slots[..i] + slots[i + 1..]) + multiset{slots[i]}
    ensures multiset(Totals(slots)) == multiset(Totals(slots[..i] + slots[i + 1..])) + multiset{slots[i].slot.total}
  {
    assert slots == slots[..i] + [slots[i]] + slots[i + 1..];
    var sizes := Totals(slots);
    assert sizes == sizes[..i] + [sizes[i]] + sizes[i + 1..];
    assert Totals(slots[..i] + slots[i + 1..]) == sizes[..i] + sizes[i + 1..];
  }

  lemma {:induction false} LastApart(slots: seq<Entry>)
    requires |slots| > 0
    ensures var last := slots[|slots| - 1];
            && multiset(slots) == multiset(Others(slots)) + multiset{last}
            && multiset(Totals(slots)) == multiset(Totals(Others(slots))) + multiset{last.slot.total}
  {
    ErasedAt(slots, |slots| - 1);
    assert slots[..|slots| - 1] + slots[|slots|..] == Others(slots);
  }

  /** All slots but the last. */
  ghost function Others(slots: seq<Entry>): seq<Entry>
    requires |slots| > 0
  {
    slots[..|slots| - 1]
  }

  /** A slot and its pair, found through the multimap. */
  method FindSlot(slots: seq<Entry>, index: Index, size: Slot, ghost next: nat) returns (i: nat)
    requires Agrees(slots, index, next) && |Keyed(index, size)| >= 1
    ensures i < |slots| && slots[i].slot.total == size && (size, slots[i].node) in index
  {
    var found :| found in Keyed(index, size);
    i :| 0 <= i < |slots| && slots[i].node == found.1;
    assert slots[i] in slots;
  }

  /** Finds some slot of a size through the multimap and erases it from both containers. */
  method TakeSlot(slots: seq<Entry>, index: Index, size: Slot, ghost next: nat)
    returns (e: Entry, slots': seq<Entry>, index': Index, ghost i: nat)
    requires Agrees(slots, index, next) && |Keyed(index, size)| >= 1
    ensures i < |slots| && e == slots[i] && slots' == Erase(slots, i)
    ensures e in slots && e.slot.total == size && (size, e.node) in index
    ensures index' == index - {(size, e.node)} && Agrees(slots', index', next)
    ensures forall x :: x in slots' ==> x in slots && x.node != e.node
    ensures AllJobs(slots) == AllJobs(slots') + multiset(e.jobs)
  {
    var at := FindSlot(slots, index, size, next);
    i := at;
    e := slots[at];
    slots' := Erase(slots, at);
    index' := index - {(size, e.node)};
    ErasedNodes(slots, i);
    AgreesErased(slots, index, next, i);
    AllJobsAt(slots, i);
  }

  /** Two different slots of one size. */
  method TakeTwo(slots: seq<Entry>, index: Index, size: Slot, ghost next: nat)
    returns (a: Entry, b: Entry, slots': seq<Entry>, index': Index, ghost i: nat, ghost k: nat)
    requires Agrees(slots, index, next) && |Keyed(index, size)| > 1
    ensures i < |slots| && a == slots[i] && k < |slots| - 1 && b == Erase(slots, i)[k]
    ensures slots' == Erase(Erase(slots, i), k)
    ensures a in slots && b in slots && a.slot.total == b.slot.total == size && a.node != b.node
    ensures (size, a.node) in index && (size, b.node) in index
    ensures index' == index - {(size, a.node)} - {(size, b.node)} && Agrees(slots', index', next)
    ensures |slots'| == |slots| - 2 && (forall x :: x in slots' ==> x in slots && x.node != a.node && x.node != b.node)
    ensures AllJobs(slots) == AllJobs(slots') + multiset(a.jobs) + multiset(b.jobs)
  {
    a, slots', index', i := TakeSlot(slots, index, size, next);
    KeyedRemoved(index, size, a.node, size);
    var once := slots';
    b, slots', index', k := TakeSlot(once, index', size, next);
  }

  /** One merge: the last slot absorbed the other slot at `k`, and nothing else changed. */
  ghost predicate Joined(slots: seq<Entry>, k: nat, slots': seq<Entry>) {
    && |slots| > 0 && |slots'| > 0 && k < |slots| - 1
    && Others(slots') == Erase(Others(slots), k)
    && var mine, other, joined := slots[|slots| - 1], slots[k], slots'[|slots'| - 1];
    && other.slot.total == mine.slot.total && joined.slot.total == mine.slot.total.Double()
    && joined.slot.idle.IsSum(mine.slot.idle, other.slot.idle)
    && multiset(joined.jobs) == multiset(mine.jobs) + multiset(other.jobs)
  }

  /** The sizes of the slots absorbed: each as large as the slot had grown, from `start` up to `end`. */
  ghost predicate Ladder(catalogue: seq<Slot>, start: Slot, gone: seq<Entry>, end: Slot)
    decreases |gone|
  {
    if gone == [] then end == start
    else
      gone[0].slot.total == start && start.Double() in catalogue && Ladder(catalogue, start.Double(), gone[1..], end)
  }

  ghost function IdleSum(slots: seq<Entry>): Slot {
    if slots == [] then ZERO else slots[0].slot.idle.Plus(IdleSum(slots[1..]))
  }

  /** What merging a new slot did: `gone` left the other slots, and the last slot is the new one with their idle
      capacity and jobs, doubled once for each of them. */
  ghost predicate Carried(catalogue: seq<Slot>, others: seq<Entry>, mine: Entry, gone: seq<Entry>, after: seq<Entry>) {
    && |after| > 0
    && var last := after[|after| - 1];
    && multiset(others) == multiset(Others(after)) + multiset(gone)
    && Ladder(catalogue, mine.slot.total, gone, last.slot.total)
    && last.slot.idle.IsSum(mine.slot.idle, IdleSum(gone))
    && multiset(last.jobs) == multiset(mine.jobs) + AllJobs(gone)
  }

  /** The sizes open after a slot of size `start` is opened: a carry, as in a binary counter. */
  ghost function Carry(catalogue: seq<Slot>, sizes: multiset<Slot>, start: Slot): multiset<Slot>
    decreases |sizes|
  {
    if start in sizes && start.Double() in catalogue then Carry(catalogue, sizes - multiset{start}, start.Double())
    else sizes + multiset{start}
  }

  lemma {:induction false} CarriedStep(
    catalogue: seq<Slot>, slots: seq<Entry>, k: nat, slots': seq<Entry>, gone: seq<Entry>, after: seq<Entry>)
    requires Joined(slots, k, slots') && slots[|slots| - 1].slot.total.Double() in catalogue
    requires Carried(catalogue, Others(slots'), slots'[|slots'| - 1], gone, after)
    ensures Carried(catalogue, Others(slots), slots[|slots| - 1], [slots[k]] + gone, after)
  {
    var other := slots[k];
    ErasedAt(Others(slots), k);
    GoneJobs(other, gone);
    GoneIdle(catalogue, other, gone, after[|after| - 1].slot.total);
    assert multiset([other] + gone) == multiset{other} + multiset(gone);
  }

  lemma {:induction false} GoneJobs(other: Entry, gone: seq<Entry>)
    ensures AllJobs([other] + gone) == multiset(other.jobs) + AllJobs(gone)
  {
    AllJobsConcat([other], gone);
    assert [other][..0] == [];
    assert AllJobs([other]) == multiset(other.jobs);
  }

  lemma {:induction false} GoneIdle(catalogue: seq<Slot>, other: Entry, gone: seq<Entry>, end: Slot)
    requires other.slot.total.Double() in catalogue && Ladder(catalogue, other.slot.total.Double(), gone, end)
    ensures IdleSum([other] + gone).IsSum(other.slot.idle, IdleSum(gone))
    ensures Ladder(catalogue, other.slot.total, [other] + gone, end)
  {
    assert ([other] + gone)[1..] == gone;
  }

  /** Of two slots of one size, when there are no others, one is the last slot. */
  lemma {:induction false} LastTaken(slots: seq<Entry>, index: Index, next: nat, size: Slot, a: Entry, b: Entry)
    requires Agrees(slots, index, next) && |Keyed(index, size)| == 2 && |slots| > 0
    requires slots[|slots| - 1].slot.total == size && a in slots && b in slots && a.node != b.node
    requires (size, a.node) in index && (size, b.node) in index
    ensures slots[|slots| - 1] == a || slots[|slots| - 1] == b
  {
    var last := slots[|slots| - 1];
    assert last in slots && (size, last.node) in Keyed(index, size);
    if last.node != a.node && last.node != b.node {
      AtLeastThree(Keyed(index, size), (size, last.node), (size, a.node), (size, b.node));
    } else {
      SameNode(slots, last, if last.node == a.node then a else b);
    }
  }

  lemma {:induction false} SameNode(slots: seq<Entry>, x: Entry, y: Entry)
    requires DistinctNodes(slots) && x in slots && y in slots && x.node == y.node
    ensures x == y
  {
    var i, k :| 0 <= i < |slots| && 0 <= k < |slots| && slots[i] == x && slots[k] == y;
  }

  /** Where the other slot stood among the slots before the last. */
  ghost function OtherAt(slots: seq<Entry>, i: nat, k: nat): nat {
    if i == |slots| - 1 then k else i
  }

  /** Erasing the last slot and another one, in any order, erases the other one from the slots before the last. */
  lemma {:induction false} LastAndOther(slots: seq<Entry>, i: nat, k: nat)
    requires i < |slots| && k < |slots| - 1 && (i == |slots| - 1 || k == |slots| - 2)
    ensures OtherAt(slots, i, k) < |slots| - 1
    ensures Erase(Erase(slots, i), k) == Erase(Others(slots), OtherAt(slots, i, k))
    ensures if i == |slots| - 1 then Erase(slots, i)[k] == slots[k] else Erase(slots, i)[k] == slots[|slots| - 1]
  {
    if i == |slots| - 1 {
      assert Erase(slots, i) == Others(slots);
    } else {
      assert Erase(slots, i)[..k] == Erase(Others(slots), i);
      assert Erase(Erase(slots, i), k) == Erase(slots, i)[..k];
    }
  }

  /** Which of two places holds the last slot. */
  lemma {:induction false} LastPlace(slots: seq<Entry>, i: nat, k: nat)
    requires DistinctNodes(slots) && i < |slots| && k < |slots| - 1
    requires slots[|slots| - 1] == slots[i] || slots[|slots| - 1] == Erase(slots, i)[k]
    ensures i == |slots| - 1 || k == |slots| - 2
  {
    assert Erase(slots, i)[k] == if k < i then slots[k] else slots[k + 1];
  }

  lemma {:induction false} JoinedLast(slots: seq<Entry>, i: nat, k: nat, node: nat)
    requires i < |slots| && k < |slots| - 1 && (i == |slots| - 1 || k == |slots| - 2)
    requires slots[i].slot.total == Erase(slots, i)[k].slot.total
    ensures var a, b := slots[i], Erase(slots, i)[k];
            Joined(slots, OtherAt(slots, i, k), Erase(Erase(slots, i), k) + [Join(node, a, b)])
  {
    LastAndOther(slots, i, k);
    var slots' := Erase(Erase(slots, i), k) + [Join(node, slots[i], Erase(slots, i)[k])];
    assert Others(slots') == Erase(Erase(slots, i), k);
  }

  /** Replaces two slots of a size, one of them the last, by one of the doubled size. */
  method JoinTwo(
    catalogue: seq<Slot>, slots: seq<Entry>, index: Index, next: nat, start: Slot, ghost req: map<JobId, Slot>)
    returns (slots': seq<Entry>, index': Index, ghost at: nat)
    requires Agrees(slots, index, next) && Ledgers(catalogue, req, slots)
    requires MergedExcept(catalogue, index, start)
    requires |Keyed(index, start)| > 1 && start.Double() in catalogue
    requires |slots| > 0 && slots[|slots| - 1].slot.total == start
    ensures Agrees(slots', index', next + 1) && Ledgers(catalogue, req, slots')
    ensures MergedExcept(catalogue, index', start.Double())
    ensures AllJobs(slots') == AllJobs(slots) && |slots'| == |slots| - 1
    ensures Joined(slots, at, slots')
  {
    var a, b, rest, pairs;
    ghost var i, k;
    a, b, rest, pairs, i, k := TakeTwo(slots, index, start, next);
    var joined := Join(next, a, b);
    slots' := rest + [joined];
    index' := pairs + {(start.Double(), next)};
    at := OtherAt(slots, i, k);
    assert Ledgers(catalogue, req, slots') by { JoinKeepsLedgers(catalogue, req, slots, next, a, b, rest); }
    assert AllJobs(slots') == AllJobs(slots) by { AppendedJobs(rest, joined); }
    AgreesAppended(rest, pairs, next, joined);
    assert MergedExcept(catalogue, index', start.Double()) by {
      MergedOneUp(catalogue, index, start, a.node, b.node, next);
    }
    assert Joined(slots, at, slots') by { JoinedTaken(slots, index, next, start, i, k); }
  }

  lemma {:induction false} JoinedTaken(slots: seq<Entry>, index: Index, next: nat, start: Slot, i: nat, k: nat)
    requires Agrees(slots, index, next) && |Keyed(index, start)| == 2 && i < |slots| && k < |slots| - 1
    requires slots[i].slot.total == Erase(slots, i)[k].slot.total == slots[|slots| - 1].slot.total == start
    requires Erase(slots, i)[k] in slots && slots[i].node != Erase(slots, i)[k].node
    requires (start, slots[i].node) in index && (start, Erase(slots, i)[k].node) in index
    ensures Joined(slots, OtherAt(slots, i, k), Erase(Erase(slots, i), k) + [Join(next, slots[i], Erase(slots, i)[k])])
  {
    LastTaken(slots, index, next, start, slots[i], Erase(slots, i)[k]);
    LastPlace(slots, i, k);
    JoinedLast(slots, i, k, next);
  }

  /** With two slots of a size in the multimap, one of them the last, only one other slot has that size. */
  lemma {:induction false} OnlyOther(slots: seq<Entry>, index: Index, next: nat, at: nat, k: nat)
    requires Agrees(slots, index, next) && at < |slots| - 1 && k < |slots| - 1
    requires |Keyed(index, slots[|slots| - 1].slot.total)| <= 2
    requires slots[at].slot.total == slots[k].slot.total == slots[|slots| - 1].slot.total
    ensures at == k
  {
    if at != k {
      var n := |slots| - 1;
      var size := slots[n].slot.total;
      assert slots[n] in slots && slots[at] in slots && slots[k] in slots;
      AtLeastThree(Keyed(index, size), (size, slots[n].node), (size, slots[at].node), (size, slots[k].node));
    }
  }

  lemma {:induction false} AtLeastThree<T>(s: set<T>, a: T, b: T, c: T)
    requires a in s && b in s && c in s && a != b && a != c && b != c
    ensures |s| >= 3
  {
    assert s == (s - {a} - {b} - {c}) + {c} + {b} + {a};
  }

  /** With one slot of a size in the multimap, the last one, no other slot has that size. */
  lemma {:induction false} OnlyLast(slots: seq<Entry>, index: Index, next: nat)
    requires Agrees(slots, index, next) && |slots| > 0 && |Keyed(index, slots[|slots| - 1].slot.total)| == 1
    ensures slots[|slots| - 1].slot.total !in multiset(Totals(Others(slots)))
  {
    var n := |slots| - 1;
    var size := slots[n].slot.total;
    var all, mine := Keyed(index, size), (size, slots[n].node);
    assert mine in all && |all - {mine}| == 0;
    forall i | 0 <= i < n
      ensures Totals(Others(slots))[i] != size
    {
      assert Others(slots)[i] == slots[i] && slots[i] in slots;
      assert slots[i].slot.total == size ==> (size, slots[i].node) in all - {mine};
    }
  }

  /** The merge of views follows the merge of slots. */
  lemma {:induction false} ViewsJoined(catalogue: seq<Slot>, slots: seq<Entry>, index: Index, next: nat, k: nat, slots': seq<Entry>)
    requires Agrees(slots, index, next) && Joined(slots, k, slots') && slots[|slots| - 1].slot.total.Double() in catalogue
    requires |Keyed(index, slots[|slots| - 1].slot.total)| <= 2
    ensures MergeInto(catalogue, Views(Others(slots)), View(slots[|slots| - 1])) ==
            MergeInto(catalogue, Views(Others(slots')), View(slots'[|slots'| - 1]))
  {
    var open, mine := Views(Others(slots)), View(slots[|slots| - 1]);
    var i := SizeAt(open, mine.slot.total);
    assert open[k].slot.total == mine.slot.total;
    assert i < |open| && open[i].slot.total == slots[i].slot.total;
    assert i == k by { OnlyOther(slots, index, next, k, i); }
    ErasedViews(Others(slots), k);
    JoinedViews(slots[|slots| - 1], slots[k], slots'[|slots'| - 1]);
  }

  lemma {:induction false} ErasedViews(slots: seq<Entry>, k: nat)
    requires k < |slots|
    ensures Views(Erase(slots, k)) == Erase(Views(slots), k)
  {
  }

  lemma {:induction false} JoinedViews(mine: Entry, other: Entry, joined: Entry)
    requires joined.slot.total == mine.slot.total.Double() && joined.slot.idle.IsSum(mine.slot.idle, other.slot.idle)
    requires multiset(joined.jobs) == multiset(mine.jobs) + multiset(other.jobs)
    ensures View(joined) == JoinOpen(View(mine), View(other))
  {
  }

  /** Carries equal slots upward, like a binary counter, until no size is crowded. Only the last slot grows, by
      exactly the slots that disappear; the others keep their order; and slots and sizes are those of the merge by the
      book whatever the multimap finds. */
  method Merge(
    catalogue: seq<Slot>, slots: seq<Entry>, index: Index, next: nat, start: Slot, ghost req: map<JobId, Slot>)
    returns (slots': seq<Entry>, index': Index, next': nat, ghost gone: seq<Entry>)
    requires Agrees(slots, index, next) && Ledgers(catalogue, req, slots)
    requires MergedExcept(catalogue, index, start)
    requires |slots| > 0 && slots[|slots| - 1].slot.total == start
    ensures Agrees(slots', index', next') && Ledgers(catalogue, req, slots')
    ensures Merged(catalogue, index')
    ensures AllJobs(slots') == AllJobs(slots) && |slots'| <= |slots|
    ensures Carried(catalogue, Others(slots), slots[|slots| - 1], gone, slots')
    ensures multiset(Totals(slots')) == Carry(catalogue, multiset(Totals(Others(slots))), start)
    ensures Views(slots') == MergeInto(catalogue, Views(Others(slots)), View(slots[|slots| - 1]))
    decreases |slots|
  {
    gone := [];
    if |Keyed(index, start)| == 1 || start.Double() !in catalogue {
      MergeStops(catalogue, slots, index, next);
      return slots, index, next, gone;
    }
    ghost var at;
    slots', index', at := JoinTwo(catalogue, slots, index, next, start, req);
    ghost var joined := slots';
    slots', index', next', gone := Merge(catalogue, slots', index', next + 1, start.Double(), req);
    assert Views(slots') == MergeInto(catalogue, Views(Others(slots)), View(slots[|slots| - 1])) by {
      ViewsJoined(catalogue, slots, index, next, at, joined);
    }
    assert multiset(Totals(slots')) == Carry(catalogue, multiset(Totals(Others(slots))), start) by {
      ErasedAt(Others(slots), at);
      CarryStep(catalogue, multiset(Totals(Others(slots))), multiset(Totals(Others(joined))), start);
    }
    CarriedStep(catalogue, slots, at, joined, gone, slots');
    gone := [slots[at]] + gone;
  }

  lemma {:induction false} MergeStops(catalogue: seq<Slot>, slots: seq<Entry>, index: Index, next: nat)
    requires Agrees(slots, index, next) && |slots| > 0
    requires var start := slots[|slots| - 1].slot.total;
             |Keyed(index, start)| == 1 || start.Double() !in catalogue
    ensures Carried(catalogue, Others(slots), slots[|slots| - 1], [], slots)
    ensures multiset(Totals(slots)) == Carry(catalogue, multiset(Totals(Others(slots))), slots[|slots| - 1].slot.total)
    ensures Views(slots) == MergeInto(catalogue, Views(Others(slots)), View(slots[|slots| - 1]))
  {
    LastApart(slots);
    if slots[|slots| - 1].slot.total.Double() in catalogue {
      OnlyLast(slots, index, next);
    }
    ViewsStop(catalogue, slots);
  }

  lemma {:induction false} ViewsStop(catalogue: seq<Slot>, slots: seq<Entry>)
    requires |slots| > 0
    requires var size := slots[|slots| - 1].slot.total;
             size.Double() in catalogue ==> size !in multiset(Totals(Others(slots)))
    ensures Views(slots) == MergeInto(catalogue, Views(Others(slots)), View(slots[|slots| - 1]))
  {
    var n := |slots| - 1;
    var open, size := Views(Others(slots)), slots[n].slot.total;
    var i := SizeAt(open, size);
    assert i < n ==> Totals(Others(slots))[i] == size;
    assert Views(slots) == open + [View(slots[n])];
  }

  lemma {:induction false} CarryStep(catalogue: seq<Slot>, sizes: multiset<Slot>, rest: multiset<Slot>, start: Slot)
    requires sizes == rest + multiset{start} && start.Double() in catalogue
    ensures Carry(catalogue, sizes, start) == Carry(catalogue, rest, start.Double())
  {
    assert sizes - multiset{start} == rest;
  }

  lemma {:induction false} AppendedJobs(slots: seq<Entry>, e: Entry)
    ensures AllJobs(slots + [e]) == AllJobs(slots) + multiset(e.jobs)
  {
    assert (slots + [e])[..|slots|] == slots;
  }

  /** What holds of the open slots after any number of jobs `done`. */
  ghost predicate Packed(
    catalogue: seq<Slot>, req: map<JobId, Slot>, done: multiset<JobId>, slots: seq<Entry>, index: Index, next: nat)
  {
    && Agrees(slots, index, next)
    && Ledgers(catalogue, req, slots)
    && Merged(catalogue, index)
    && AllJobs(slots) == done
    && |slots| <= |done|
  }

  ghost predicate NoneOpen(slots: seq<Entry>, req: Slot) {
    forall k :: 0 <= k < |slots| ==> !req.Fits(slots[k].slot.idle)
  }

  /** Of the slots that hold the job, the first one of least idle capacity. */
  ghost predicate BestOpen(slots: seq<Entry>, req: Slot, i: nat) {
    && i < |slots| && req.Fits(slots[i].slot.idle)
    && (forall k :: 0 <= k < |slots| && req.Fits(slots[k].slot.idle) ==> !slots[k].slot.idle.Less(slots[i].slot.idle))
    && (forall k :: 0 <= k < i && req.Fits(slots[k].slot.idle) ==> slots[i].slot.idle.Less(slots[k].slot.idle))
  }

  /** The scan over the open slots. */
  method BestOpenSlot(slots: seq<Entry>, req: Slot) returns (best: Option<nat>)
    ensures best == None ==> NoneOpen(slots, req)
    ensures best.Some? ==> BestOpen(slots, req, best.value)
  {
    best := None;
    for i := 0 to |slots|
      invariant best == None ==> forall k :: 0 <= k < i ==> !req.Fits(slots[k].slot.idle)
      invariant best.Some? ==>
                  && best.value < i && req.Fits(slots[best.value].slot.idle)
                  && (forall k :: 0 <= k < i && req.Fits(slots[k].slot.idle) ==>
                        !slots[k].slot.idle.Less(slots[best.value].slot.idle))
                  && (forall k :: 0 <= k < best.value && req.Fits(slots[k].slot.idle) ==>
                        slots[best.value].slot.idle.Less(slots[k].slot.idle))
    {
      if req.Fits(slots[i].slot.idle) && (best == None || slots[i].slot.idle.Less(slots[best.value].slot.idle)) {
        best := Some(i);
      }
    }
  }

  /** An open slot takes one more job. */
  function TakeJob(e: Entry, job: QueuedJob): Entry {
    e.(slot := e.slot.(idle := e.slot.idle.Minus(job.req)), jobs := e.jobs + [job.id])
  }

  lemma {:induction false} TakeJobKeepsLedger(catalogue: seq<Slot>, req: map<JobId, Slot>, e: Entry, job: QueuedJob)
    requires Ledger(catalogue, req, e) && job.req.Fits(e.slot.idle)
    requires job.id in req && req[job.id] == job.req
    ensures Ledger(catalogue, req, TakeJob(e, job))
  {
    assert (e.jobs + [job.id])[..|e.jobs|] == e.jobs;
  }

  /** A new slot for one job: the size found by the search, or the largest size if there is none. */
  function OpenSlot(catalogue: seq<Slot>, node: nat, job: QueuedJob): Entry
    requires |catalogue| > 0
  {
    var size := MinFitSlot(catalogue, job.req);
    Entry(node, DesiredSlot(size, size.Minus(job.req)), [job.id])
  }

  lemma {:induction false} OpenSlotHasLedger(catalogue: seq<Slot>, req: map<JobId, Slot>, node: nat, job: QueuedJob)
    requires |catalogue| > 0 && job.id in req && req[job.id] == job.req
    ensures Ledger(catalogue, req, OpenSlot(catalogue, node, job))
  {
    PlaceableExactly(catalogue, job.req);
    assert [job.id][..0] == [];
  }

  lemma {:induction false} AgreesTaken(slots: seq<Entry>, index: Index, next: nat, i: nat, job: QueuedJob)
    requires Agrees(slots, index, next) && i < |slots|
    ensures Agrees(slots[i := TakeJob(slots[i], job)], index, next)
  {
    var slots' := slots[i := TakeJob(slots[i], job)];
    forall p | p in index
      ensures exists e :: e in slots' && p == (e.slot.total, e.node)
    {
      var n :| 0 <= n < |slots| && p == (slots[n].slot.total, slots[n].node);
      assert slots'[n] in slots' && p == (slots'[n].slot.total, slots'[n].node);
    }
  }

  lemma {:induction false} AllJobsTaken(slots: seq<Entry>, i: nat, job: QueuedJob)
    requires i < |slots|
    ensures AllJobs(slots[i := TakeJob(slots[i], job)]) == AllJobs(slots) + multiset{job.id}
  {
    var slots' := slots[i := TakeJob(slots[i], job)];
    AllJobsAt(slots, i);
    AllJobsAt(slots', i);
    assert slots'[..i] + slots'[i + 1..] == slots[..i] + slots[i + 1..];
  }

  /** What one job does to the open slots: it goes into the best of those that hold it, and only if none does
      a slot of the size the search chose is opened for it and merged. */
  ghost predicate Placed(
    catalogue: seq<Slot>, before: seq<Entry>, job: QueuedJob, gone: seq<Entry>, after: seq<Entry>)
    requires |catalogue| > 0
  {
    if NoneOpen(before, job.req) then
      && Carried(catalogue, before, OpenSlot(catalogue, 0, job), gone, after)
      && multiset(Totals(after)) == Carry(catalogue, multiset(Totals(before)), MinFitSlot(catalogue, job.req))
      && Views(after) == MergeInto(catalogue, Views(before), View(OpenSlot(catalogue, 0, job)))
    else
      gone == [] && exists i: nat :: BestOpen(before, job.req, i) && after == before[i := TakeJob(before[i], job)]
  }

  lemma {:induction false} PackedTaken(
    catalogue: seq<Slot>, req: map<JobId, Slot>, done: multiset<JobId>, slots: seq<Entry>, index: Index, next: nat,
    i: nat, job: QueuedJob)
    requires |catalogue| > 0 && Packed(catalogue, req, done, slots, index, next)
    requires job.id in req && req[job.id] == job.req && i < |slots| && job.req.Fits(slots[i].slot.idle)
    ensures Packed(catalogue, req, done + multiset{job.id}, slots[i := TakeJob(slots[i], job)], index, next)
  {
    TakeJobKeepsLedger(catalogue, req, slots[i], job);
    AgreesTaken(slots, index, next, i, job);
    AllJobsTaken(slots, i, job);
  }

  /** Puts one job into an open slot or opens one for it. */
  method PlaceJob(
    catalogue: seq<Slot>, slots: seq<Entry>, index: Index, next: nat, job: QueuedJob,
    ghost req: map<JobId, Slot>, ghost done: multiset<JobId>)
    returns (slots': seq<Entry>, index': Index, next': nat, ghost gone: seq<Entry>)
    requires |catalogue| > 0 && Packed(catalogue, req, done, slots, index, next)
    requires job.id in req && req[job.id] == job.req
    ensures Packed(catalogue, req, done + multiset{job.id}, slots', index', next')
    ensures Placed(catalogue, slots, job, gone, slots')
    ensures Views(slots') == PlaceInto(catalogue, Views(slots), job)
  {
    gone := [];
    var best := BestOpenSlot(slots, job.req);
    if best.Some? {
      var i := best.value;
      slots', index', next' := slots[i := TakeJob(slots[i], job)], index, next;
      PackedTaken(catalogue, req, done, slots, index, next, i, job);
    } else {
      slots', index', next', gone := OpenAndMerge(catalogue, slots, index, next, job, req, done);
    }
    PlacedByTheBook(catalogue, slots, job, gone, slots');
  }

  /** The branch that opens a slot. */
  method OpenAndMerge(
    catalogue: seq<Slot>, slots: seq<Entry>, index: Index, next: nat, job: QueuedJob,
    ghost req: map<JobId, Slot>, ghost done: multiset<JobId>)
    returns (slots': seq<Entry>, index': Index, next': nat, ghost gone: seq<Entry>)
    requires |catalogue| > 0 && Packed(catalogue, req, done, slots, index, next)
    requires job.id in req && req[job.id] == job.req
    ensures Packed(catalogue, req, done + multiset{job.id}, slots', index', next')
    ensures Carried(catalogue, slots, OpenSlot(catalogue, 0, job), gone, slots')
    ensures multiset(Totals(slots')) == Carry(catalogue, multiset(Totals(slots)), MinFitSlot(catalogue, job.req))
    ensures Views(slots') == MergeInto(catalogue, Views(slots), View(OpenSlot(catalogue, 0, job)))
  {
    var e := OpenSlot(catalogue, next, job);
    var wider := slots + [e];
    OpenSlotHasLedger(catalogue, req, next, job);
    AgreesAppended(slots, index, next, e);
    AppendedJobs(slots, e);
    MergedThenAdded(catalogue, index, e.slot.total, next);
    assert Others(wider) == slots;
    slots', index', next', gone :=
      Merge(catalogue, wider, index + {(e.slot.total, next)}, next + 1, e.slot.total, req);
  }

  lemma {:induction false} PrefixJobs(slots: seq<Entry>, k: nat)
    requires k < |slots|
    ensures AllJobs(slots[..k + 1]) == AllJobs(slots[..k]) + multiset(slots[k].jobs) <= AllJobs(slots)
  {
    assert slots[..k + 1] == slots[..k] + [slots[k]];
    AppendedJobs(slots[..k], slots[k]);
    assert slots == slots[..k + 1] + slots[k + 1..];
    AllJobsConcat(slots[..k + 1], slots[k + 1..]);
  }

  /** A job id met once over all slots stands in one slot only, and once. */
  lemma {:induction false} JobsApart(slots: seq<Entry>, i: nat, k: nat, j: JobId)
    requires i < k < |slots| && j in slots[i].jobs && AllJobs(slots)[j] <= 1
    ensures j !in slots[k].jobs
  {
    PrefixJobs(slots, k);
    JobCounted(slots[..k], i, j);
    assert slots[..k][i] == slots[i];
  }

  lemma {:induction false} JobCounted(slots: seq<Entry>, i: nat, j: JobId)
    requires i < |slots| && j in slots[i].jobs
    ensures j in AllJobs(slots) && AllJobs(slots)[j] >= multiset(slots[i].jobs)[j]
  {
    AllJobsAt(slots, i);
    assert j in multiset(slots[i].jobs);
  }

  lemma {:induction false} JobLocated(slots: seq<Entry>, j: JobId)
    requires j in AllJobs(slots)
    ensures exists i :: 0 <= i < |slots| && j in slots[i].jobs
    decreases |slots|
  {
    var last := |slots| - 1;
    if j in multiset(slots[last].jobs) {
      assert j in slots[last].jobs;
    } else {
      JobLocated(slots[..last], j);
      var i :| 0 <= i < last && j in slots[..last][i].jobs;
      assert j in slots[i].jobs;
    }
  }

  /** `r` extends an assignment by sending all `jobs` to one slot. */
  ghost predicate Extends(assignments: map<JobId, SlotId>, jobs: seq<JobId>, s: SlotId, r: map<JobId, SlotId>) {
    && (forall j :: j in r <==> j in assignments || j in jobs)
    && (forall j :: j in r ==> r[j] == if j in jobs then s else assignments[j])
  }

  method AssignTo(assignments: map<JobId, SlotId>, jobs: seq<JobId>, s: SlotId) returns (r: map<JobId, SlotId>)
    ensures Extends(assignments, jobs, s, r)
  {
    r := assignments;
    for i := 0 to |jobs|
      invariant Extends(assignments, jobs[..i], s, r)
    {
      r := r[jobs[i] := s];
      assert jobs[..i + 1] == jobs[..i] + [jobs[i]];
    }
    assert jobs[..|jobs|] == jobs;
  }

  /** The first `k` slots are numbered: a job is assigned i exactly when it is in slot i. */
  ghost predicate Numbered(slots: seq<Entry>, k: nat, assignments: map<JobId, SlotId>) {
    && k <= |slots|
    && (forall j :: j in assignments ==> 0 <= assignments[j] < k && j in slots[assignments[j]].jobs)
    && (forall i, j :: 0 <= i < k && j in slots[i].jobs ==> j in assignments && assignments[j] == i)
  }

  ghost predicate OncePerJob(jobs: multiset<JobId>) {
    forall j :: jobs[j] <= 1
  }

  lemma {:induction false} NumberedStep(slots: seq<Entry>, k: nat, assignments: map<JobId, SlotId>, r: map<JobId, SlotId>)
    requires Numbered(slots, k, assignments) && k < |slots| && OncePerJob(AllJobs(slots))
    requires Extends(assignments, slots[k].jobs, k, r)
    ensures Numbered(slots, k + 1, r)
  {
    forall i, j | 0 <= i < k && j in slots[i].jobs
      ensures j !in slots[k].jobs
    {
      JobsApart(slots, i, k, j);
    }
  }

  ghost predicate Described(slots: seq<Entry>, k: nat, desired: map<SlotId, DesiredSlot>) {
    && k <= |slots| && |desired| == k
    && (forall s :: s in desired <==> 0 <= s < k)
    && (forall s :: s in desired ==> desired[s] == slots[s].slot)
  }

  /** One round of the numbering loop. */
  method NumberOne(slots: seq<Entry>, k: nat, assignments: map<JobId, SlotId>, desired: map<SlotId, DesiredSlot>)
    returns (assignments': map<JobId, SlotId>, desired': map<SlotId, DesiredSlot>)
    requires OncePerJob(AllJobs(slots)) && k < |slots|
    requires Numbered(slots, k, assignments) && Described(slots, k, desired)
    ensures Numbered(slots, k + 1, assignments') && Described(slots, k + 1, desired')
  {
    assignments' := AssignTo(assignments, slots[k].jobs, k);
    assert Numbered(slots, k + 1, assignments') by { NumberedStep(slots, k, assignments, assignments'); }
    desired' := desired[k := slots[k].slot];
    DescribedStep(slots, k, desired);
  }

  lemma {:induction false} DescribedStep(slots: seq<Entry>, k: nat, desired: map<SlotId, DesiredSlot>)
    requires Described(slots, k, desired) && k < |slots|
    ensures Described(slots, k + 1, desired[k := slots[k].slot])
  {
  }

  /** Numbers the open slots in list order and points their jobs at the numbers. */
  method NumberSlots(slots: seq<Entry>) returns (assignments: map<JobId, SlotId>, desired: map<SlotId, DesiredSlot>)
    requires OncePerJob(AllJobs(slots))
    ensures Described(slots, |slots|, desired)
    ensures Numbered(slots, |slots|, assignments)
  {
    assignments, desired := map[], map[];
    for k := 0 to |slots|
      invariant Described(slots, k, desired)
      invariant Numbered(slots, k, assignments)
    {
      assignments, desired := NumberOne(slots, k, assignments, desired);
    }
  }

  lemma {:induction false} NoRepeats(slots: seq<Entry>, k: nat, x: nat, y: nat)
    requires k < |slots| && x < y < |slots[k].jobs| && OncePerJob(AllJobs(slots))
    ensures slots[k].jobs[x] != slots[k].jobs[y]
  {
    if slots[k].jobs[x] == slots[k].jobs[y] {
      TwiceCounted(slots[k].jobs, x, y);
      JobCounted(slots, k, slots[k].jobs[x]);
    }
  }

  /** The load of a numbered slot is the sum along its job list. */
  lemma {:induction false} NumberedLoad(req: map<JobId, Slot>, slots: seq<Entry>, assignments: map<JobId, SlotId>, k: nat)
    requires Numbered(slots, |slots|, assignments) && k < |slots|
    requires OncePerJob(AllJobs(slots)) && forall j :: j in slots[k].jobs ==> j in req
    ensures Preimage(assignments, k) == JobSet(slots[k].jobs)
    ensures SumSeq(slots[k].jobs, req).IsSum(Total(Preimage(assignments, k), req), ZERO)
  {
    var jobs := slots[k].jobs;
    forall x, y | 0 <= x < y < |jobs| ensures jobs[x] != jobs[y] { NoRepeats(slots, k, x, y); }
    forall j
      ensures j in Preimage(assignments, k) <==> j in slots[k].jobs
    {
    }
    SumSeqIsTotal(jobs, req);
  }

  /** A new slot as part of a plan. */
  ghost predicate SlotSound(
    catalogue: seq<Slot>, req: map<JobId, Slot>, assignments: map<JobId, SlotId>, s: SlotId, slot: DesiredSlot)
  {
    && Preimage(assignments, s) <= req.Keys
    && Preimage(assignments, s) != {}
    && slot.total in catalogue
    && slot.idle.Fits(slot.total)
    && slot.total.Within(slot.idle, Total(Preimage(assignments, s), req))
    && (PlaceableJobs(catalogue, req, Preimage(assignments, s)) ==>
          slot.total.IsSum(slot.idle, Total(Preimage(assignments, s), req)))
    && (slot.total.IsSum(slot.idle, Total(Preimage(assignments, s), req)) ==>
          && FittingJobs(catalogue, req, Preimage(assignments, s))
          && (|Preimage(assignments, s)| == 1 ==> PlaceableJobs(catalogue, req, Preimage(assignments, s))))
  }

  lemma {:induction false} NumberedSound(
    catalogue: seq<Slot>, req: map<JobId, Slot>, slots: seq<Entry>, assignments: map<JobId, SlotId>, k: nat)
    requires Numbered(slots, |slots|, assignments) && k < |slots| && Ledger(catalogue, req, slots[k])
    requires OncePerJob(AllJobs(slots))
    ensures SlotSound(catalogue, req, assignments, k, slots[k].slot)
  {
    NumberedLoad(req, slots, assignments, k);
    var jobs, put := slots[k].jobs, Preimage(assignments, k);
    assert jobs[0] in put;
    if |jobs| > 1 {
      NoRepeats(slots, k, 0, 1);
      assert jobs[1] in put - {jobs[0]};
      assert |put| == |put - {jobs[0]}| + 1 > 1;
    }
  }

  /** No two slots of one size are open when the doubled size is in the catalogue. */
  lemma {:induction false} MergedApart(catalogue: seq<Slot>, slots: seq<Entry>, index: Index, next: nat, i: nat, k: nat)
    requires Agrees(slots, index, next) && Merged(catalogue, index) && i < k < |slots|
    requires slots[i].slot.total == slots[k].slot.total
    ensures slots[i].slot.total.Double() !in catalogue
  {
    var size := slots[i].slot.total;
    var a, b := (size, slots[i].node), (size, slots[k].node);
    assert a in Keyed(index, size) && b in Keyed(index, size) - {a};
    assert |Keyed(index, size)| == |Keyed(index, size) - {a}| + 1 > 1;
    assert !Crowded(catalogue, index, size);
  }

  function JobIds(jobs: seq<QueuedJob>): (ids: seq<JobId>)
    ensures |ids| == |jobs| && forall i :: 0 <= i < |ids| ==> ids[i] == jobs[i].id
  {
    seq(|jobs|, i requires 0 <= i < |jobs| => jobs[i].id)
  }

  lemma {:induction false} DistinctOnce(ids: seq<JobId>)
    requires forall i, j :: 0 <= i < j < |ids| ==> ids[i] != ids[j]
    ensures OncePerJob(multiset(ids))
  {
    if ids != [] {
      var last := |ids| - 1;
      DistinctOnce(ids[..last]);
      assert ids == ids[..last] + [ids[last]];
      assert ids[last] !in ids[..last];
    }
  }

  lemma {:induction false} RequirementAt(jobs: seq<QueuedJob>, i: nat)
    requires DistinctJobs(jobs) && i < |jobs|
    ensures jobs[i].id in ReqMap(jobs) && ReqMap(jobs)[jobs[i].id] == jobs[i].req
  {
    assert jobs[i] in jobs;
  }

  ghost predicate BestOf(open: seq<Open>, req: Slot, i: nat) {
    && i < |open| && req.Fits(open[i].slot.idle)
    && (forall k :: 0 <= k < |open| && req.Fits(open[k].slot.idle) ==> !open[k].slot.idle.Less(open[i].slot.idle))
    && (forall k :: 0 <= k < i && req.Fits(open[k].slot.idle) ==> open[i].slot.idle.Less(open[k].slot.idle))
  }

  lemma {:induction false} BestUnique(open: seq<Open>, req: Slot, i: nat, k: nat)
    requires BestOf(open, req, i) && BestOf(open, req, k)
    ensures i == k
  {
  }

  ghost function WithJob(o: Open, job: QueuedJob): Open {
    Open(o.slot.(idle := o.slot.idle.Minus(job.req)), o.jobs + multiset{job.id})
  }

  /** Placing a job by the book. */
  ghost function PlaceInto(catalogue: seq<Slot>, open: seq<Open>, job: QueuedJob): seq<Open>
    requires |catalogue| > 0
  {
    if exists i: nat :: BestOf(open, job.req, i) then
      var i: nat :| BestOf(open, job.req, i);
      open[i := WithJob(open[i], job)]
    else MergeInto(catalogue, open, View(OpenSlot(catalogue, 0, job)))
  }

  /** Packing by the book: the slots a list of jobs ends up in, without nodes, multimap and choices. */
  ghost function PackAll(catalogue: seq<Slot>, jobs: seq<QueuedJob>): seq<Open>
    requires |catalogue| > 0
  {
    if jobs == [] then []
    else PlaceInto(catalogue, PackAll(catalogue, jobs[..|jobs| - 1]), jobs[|jobs| - 1])
  }

  /** One placement of the packing loop is the placement by the book. */
  lemma {:induction false} PlacedByTheBook(
    catalogue: seq<Slot>, before: seq<Entry>, job: QueuedJob, gone: seq<Entry>, after: seq<Entry>)
    requires |catalogue| > 0 && Placed(catalogue, before, job, gone, after)
    ensures Views(after) == PlaceInto(catalogue, Views(before), job)
  {
    var open := Views(before);
    if NoneOpen(before, job.req) {
      forall i: nat ensures !BestOf(open, job.req, i) {
        assert i < |before| ==> !job.req.Fits(before[i].slot.idle);
      }
    } else {
      var i: nat :| BestOpen(before, job.req, i) && after == before[i := TakeJob(before[i], job)];
      assert BestOf(open, job.req, i);
      forall k: nat | BestOf(open, job.req, k) ensures k == i { BestUnique(open, job.req, i, k); }
      TakenView(before[i], job);
      assert Views(after) == open[i := WithJob(open[i], job)];
    }
  }

  lemma {:induction false} TakenView(e: Entry, job: QueuedJob)
    ensures View(TakeJob(e, job)) == WithJob(View(e), job)
  {
  }

  /** The packing loop after `i` jobs. */
  ghost predicate PackedUpTo(
    catalogue: seq<Slot>, jobs: seq<QueuedJob>, i: nat, slots: seq<Entry>, index: Index, next: nat)
    requires |catalogue| > 0 && DistinctJobs(jobs)
  {
    && i <= |jobs|
    && Packed(catalogue, ReqMap(jobs), multiset(JobIds(jobs)[..i]), slots, index, next)
    && Views(slots) == PackAll(catalogue, jobs[..i])
  }

  lemma {:induction false} PrefixGrows(jobs: seq<QueuedJob>, i: nat)
    requires i < |jobs|
    ensures jobs[..i] + [jobs[i]] == jobs[..i + 1]
    ensures multiset(JobIds(jobs)[..i]) + multiset{jobs[i].id} == multiset(JobIds(jobs)[..i + 1])
  {
    assert JobIds(jobs)[..i + 1] == JobIds(jobs)[..i] + [jobs[i].id];
  }

  lemma {:induction false} PackAllStep(catalogue: seq<Slot>, jobs: seq<QueuedJob>, i: nat)
    requires |catalogue| > 0 && i < |jobs|
    ensures PackAll(catalogue, jobs[..i + 1]) == PlaceInto(catalogue, PackAll(catalogue, jobs[..i]), jobs[i])
  {
    assert jobs[..i + 1][..i] == jobs[..i];
  }

  /** One round of the packing loop. */
  method PackNext(catalogue: seq<Slot>, jobs: seq<QueuedJob>, i: nat, slots: seq<Entry>, index: Index, next: nat)
    returns (slots': seq<Entry>, index': Index, next': nat)
    requires |catalogue| > 0 && DistinctJobs(jobs) && i < |jobs|
    requires PackedUpTo(catalogue, jobs, i, slots, index, next)
    ensures PackedUpTo(catalogue, jobs, i + 1, slots', index', next')
  {
    RequirementAt(jobs, i);
    ghost var gone;
    slots', index', next', gone :=
      PlaceJob(catalogue, slots, index, next, jobs[i], ReqMap(jobs), multiset(JobIds(jobs)[..i]));
    PrefixGrows(jobs, i);
    PackAllStep(catalogue, jobs, i);
  }

  /** The packing loop over the jobs in the given order refines packing by the book. */
  method PackJobs(catalogue: seq<Slot>, jobs: seq<QueuedJob>)
    returns (slots: seq<Entry>, ghost index: Index, ghost next: nat)
    requires |catalogue| > 0 && DistinctJobs(jobs)
    ensures Packed(catalogue, ReqMap(jobs), multiset(JobIds(jobs)), slots, index, next)
    ensures Views(slots) == PackAll(catalogue, jobs)
    ensures AllJobs(slots) == multiset(JobIds(jobs)) && Ledgers(catalogue, ReqMap(jobs), slots) && |slots| <= |jobs|
  {
    var pairs: Index, unused: nat := {}, 0;
    slots := [];
    for i := 0 to |jobs|
      invariant PackedUpTo(catalogue, jobs, i, slots, pairs, unused)
    {
      slots, pairs, unused := PackNext(catalogue, jobs, i, slots, pairs, unused);
    }
    assert JobIds(jobs)[..|jobs|] == JobIds(jobs) && jobs[..|jobs|] == jobs;
    index, next := pairs, unused;
  }

  /** Jobs met once each are in the plan exactly when they are in some slot. */
  lemma {:induction false} NumberedKeys(slots: seq<Entry>, assignments: map<JobId, SlotId>, jobs: seq<QueuedJob>)
    requires DistinctJobs(jobs) && AllJobs(slots) == multiset(JobIds(jobs))
    requires Numbered(slots, |slots|, assignments)
    ensures assignments.Keys == ReqMap(jobs).Keys
  {
    var ids := JobIds(jobs);
    forall q | q in jobs
      ensures q.id in assignments
    {
      var n :| 0 <= n < |jobs| && jobs[n] == q;
      assert ids[n] in multiset(ids);
      JobLocated(slots, q.id);
    }
    forall j | j in assignments
      ensures j in ReqMap(jobs)
    {
      JobCounted(slots, assignments[j], j);
      assert j in multiset(ids);
      var n :| 0 <= n < |ids| && ids[n] == j;
      assert jobs[n] in jobs;
    }
  }

  /** Numbered slots as a plan for the jobs they were packed from. */
  lemma {:induction false} SelectionSound(
    catalogue: seq<Slot>, jobs: seq<QueuedJob>, slots: seq<Entry>, index: Index, next: nat,
    assignments: map<JobId, SlotId>, desired: map<SlotId, DesiredSlot>)
    requires DistinctJobs(jobs) && OncePerJob(multiset(JobIds(jobs)))
    requires Packed(catalogue, ReqMap(jobs), multiset(JobIds(jobs)), slots, index, next)
    requires Numbered(slots, |slots|, assignments)
    requires Described(slots, |slots|, desired)
    ensures forall s :: s in desired ==> SlotSound(catalogue, ReqMap(jobs), assignments, s, desired[s])
    ensures FullyMerged(catalogue, desired)
  {
    forall s | s in desired
      ensures SlotSound(catalogue, ReqMap(jobs), assignments, s, desired[s])
    {
      assert slots[s] in slots;
      NumberedSound(catalogue, ReqMap(jobs), slots, assignments, s);
    }
    forall s, t | 0 <= s < t < |slots| && slots[s].slot.total == slots[t].slot.total
      ensures slots[s].slot.total.Double() !in catalogue
    {
      MergedApart(catalogue, slots, index, next, s, t);
    }
  }

  /** No two planned slots of one size could be replaced by one of the doubled size. */
  ghost predicate FullyMerged(catalogue: seq<Slot>, desired: map<SlotId, DesiredSlot>) {
    forall s, t :: s in desired && t in desired && s != t && desired[s].total == desired[t].total ==>
      desired[s].total.Double() !in catalogue
  }

  /** The plan lists the slots that packing by the book ends up with, greatest requirement packed first. */
  ghost predicate PackedPlan(
    catalogue: seq<Slot>, sorted: seq<QueuedJob>, slots: seq<Entry>,
    assignments: map<JobId, SlotId>, desired: map<SlotId, DesiredSlot>)
    requires |catalogue| > 0
  {
    && SortedBy(sorted, RequirementOf, true) && Views(slots) == PackAll(catalogue, sorted)
    && Numbered(slots, |slots|, assignments) && Described(slots, |slots|, desired)
  }

  /** Slot selection: every job in one new slot, the ledger of every slot, and nothing left to merge;
      the slots come from packing the jobs one by one, greatest requirement first. */
  method Select(catalogue: seq<Slot>, jobs: seq<QueuedJob>)
    returns (assignments: map<JobId, SlotId>, desired: map<SlotId, DesiredSlot>,
             ghost sorted: seq<QueuedJob>, ghost slots: seq<Entry>)
    requires |catalogue| > 0 && DistinctJobs(jobs)
    ensures assignments.Keys == ReqMap(jobs).Keys
    ensures forall j :: j in assignments ==> assignments[j] in desired
    ensures forall s :: s in desired ==> SlotSound(catalogue, ReqMap(jobs), assignments, s, desired[s])
    ensures FullyMerged(catalogue, desired)
    ensures |desired| <= |jobs|
    ensures multiset(sorted) == multiset(jobs) && PackedPlan(catalogue, sorted, slots, assignments, desired)
    ensures forall i, k :: 0 <= i < k < |sorted| ==> !sorted[i].req.Less(sorted[k].req)
  {
    var queue := Sort(jobs, RequirementOf, true);
    PermutedJobs(jobs, queue);
    var open;
    ghost var index, next;
    open, index, next := PackJobs(catalogue, queue);
    DistinctOnce(JobIds(queue));
    assignments, desired := NumberSlots(open);
    sorted, slots := queue, open;
    NumberedKeys(open, assignments, queue);
    SelectionSound(catalogue, queue, open, index, next, assignments, desired);
  }

  /** Packing goes from the greatest requirement to the least. */
  lemma {:induction false} GreatestFirst(
    catalogue: seq<Slot>, sorted: seq<QueuedJob>, slots: seq<Entry>, assignments: map<JobId, SlotId>,
    desired: map<SlotId, DesiredSlot>, i: nat, k: nat)
    requires |catalogue| > 0 && PackedPlan(catalogue, sorted, slots, assignments, desired) && i < k < |sorted|
    ensures !sorted[i].req.Less(sorted[k].req)
  {
    assert !Before(RequirementOf(sorted[k]), RequirementOf(sorted[i]), true);
  }

  /** A numbering is determined by what is in the slots. */
  lemma {:induction false} NumberingDetermined(
    slots: seq<Entry>, slots': seq<Entry>, a: map<JobId, SlotId>, a': map<JobId, SlotId>)
    requires Views(slots) == Views(slots') && Numbered(slots, |slots|, a) && Numbered(slots', |slots'|, a')
    ensures a == a'
  {
    forall j | j in a ensures j in a' && a'[j] == a[j] { NumberedAlike(slots, slots', a, a', j); }
    forall j | j in a' ensures j in a { NumberedAlike(slots', slots, a', a, j); }
    assert a.Keys == a'.Keys;
  }

  lemma {:induction false} NumberedAlike(
    slots: seq<Entry>, slots': seq<Entry>, a: map<JobId, SlotId>, a': map<JobId, SlotId>, j: JobId)
    requires Views(slots) == Views(slots') && Numbered(slots, |slots|, a) && Numbered(slots', |slots'|, a') && j in a
    ensures j in a' && a'[j] == a[j]
  {
    var i := a[j];
    assert View(slots[i]) == Views(slots)[i] == Views(slots')[i] == View(slots'[i]);
    assert j in multiset(slots[i].jobs);
    assert j in slots'[i].jobs;
  }

  lemma {:induction false} DescriptionDetermined(
    slots: seq<Entry>, slots': seq<Entry>, d: map<SlotId, DesiredSlot>, d': map<SlotId, DesiredSlot>)
    requires Views(slots) == Views(slots') && Described(slots, |slots|, d) && Described(slots', |slots'|, d')
    ensures d == d'
  {
    assert |slots| == |Views(slots)| == |slots'|;
    forall s | s in d ensures s in d' && d[s] == d'[s] {
      assert View(slots[s]) == Views(slots)[s] == Views(slots')[s] == View(slots'[s]);
    }
    forall s | s in d' ensures s in d {}
    assert d.Keys == d'.Keys;
  }

  /** Slot selection is deterministic once the sort has decided the order of equal requirements: whichever slots the
      multimap finds, slots and assignments are the same. */
  lemma {:induction false} SelectionDetermined(
    catalogue: seq<Slot>, sorted: seq<QueuedJob>, slots: seq<Entry>, slots': seq<Entry>,
    a: map<JobId, SlotId>, a': map<JobId, SlotId>, d: map<SlotId, DesiredSlot>, d': map<SlotId, DesiredSlot>)
    requires |catalogue| > 0 && PackedPlan(catalogue, sorted, slots, a, d) && PackedPlan(catalogue, sorted, slots', a', d')
    ensures a == a' && d == d'
  {
    NumberingDetermined(slots, slots', a, a');
    DescriptionDetermined(slots, slots', d, d');
  }
}
