/** Sorting by capacity: the job orderings and the ordered containers of VMs. */
module Ordering {
  import opened Capacity
  import opened Plan

  datatype JobOrdering = Fifo | Ascending | Descending

  predicate Before(a: Slot, b: Slot, descending: bool) {
    if descending then b.Less(a) else a.Less(b)
  }

  ghost predicate SortedBy<T>(s: seq<T>, key: T -> Slot, descending: bool) {
    forall i, j :: 0 <= i < j < |s| ==> !Before(key(s[j]), key(s[i]), descending)
  }

  function RequirementOf(job: QueuedJob): Slot { job.req }

  function IdleOf(vm: ActiveVm): Slot { vm.idle }

  /** Insertion after all elements that are not greater, as std::multiset::insert does. */
  method InsertSorted<T>(s: seq<T>, x: T, key: T -> Slot, descending: bool) returns (r: seq<T>, k: nat)
    requires SortedBy(s, key, descending)
    ensures SortedBy(r, key, descending)
    ensures k <= |s| && r == s[..k] + [x] + s[k..]
    ensures (forall i :: 0 <= i < k ==> !Before(key(x), key(s[i]), descending))
    ensures k < |s| ==> Before(key(x), key(s[k]), descending)
  {
    k := 0;
    while k < |s| && !Before(key(x), key(s[k]), descending)
      invariant 0 <= k <= |s|
      invariant forall i :: 0 <= i < k ==> !Before(key(x), key(s[i]), descending)
    {
      k := k + 1;
    }
    r := s[..k] + [x] + s[k..];
  }

  /** Insertion as sorting sees it. */
  method InsertOne<T(==)>(s: seq<T>, x: T, key: T -> Slot, descending: bool) returns (r: seq<T>)
    requires SortedBy(s, key, descending)
    ensures SortedBy(r, key, descending) && multiset(r) == multiset(s) + multiset{x}
  {
    var k;
    r, k := InsertSorted(s, x, key, descending);
    assert s == s[..k] + s[k..];
  }

  /** std::sort: some sorted permutation; callers learn nothing about the order of equal keys. */
  method Sort<T(==)>(s: seq<T>, key: T -> Slot, descending: bool) returns (r: seq<T>)
    ensures SortedBy(r, key, descending)
    ensures multiset(r) == multiset(s)
  {
    r := [];
    for i := 0 to |s|
      invariant SortedBy(r, key, descending)
      invariant multiset(r) == multiset(s[..i])
    {
      r := InsertOne(r, s[i], key, descending);
      assert s[..i + 1] == s[..i] + [s[i]];
    }
    assert s[..|s|] == s;
  }

  /** A permutation of the queue, sorted the way the ordering's name says. */
  ghost predicate OrderedBy(ordering: JobOrdering, jobs: seq<QueuedJob>, r: seq<QueuedJob>) {
    && multiset(r) == multiset(jobs)
    && match ordering
       case Fifo => r == jobs
       case Ascending => SortedBy(r, RequirementOf, false)
       case Descending => SortedBy(r, RequirementOf, true)
  }

  /** What ascending and descending mean for any two elements. */
  lemma {:induction false} SortedMeans<T>(s: seq<T>, key: T -> Slot, descending: bool)
    ensures SortedBy(s, key, descending) <==>
            forall i, j :: 0 <= i < j < |s| ==>
              if descending then !key(s[i]).Less(key(s[j])) else !key(s[j]).Less(key(s[i]))
  {
    assert forall a, b :: Before(a, b, true) <==> b.Less(a);
    assert forall a, b :: Before(a, b, false) <==> a.Less(b);
  }

  method OrderJobs(ordering: JobOrdering, jobs: seq<QueuedJob>) returns (r: seq<QueuedJob>)
    ensures OrderedBy(ordering, jobs, r)
    ensures forall i, j :: 0 <= i < j < |r| ==>
              && (ordering == Ascending ==> !r[j].req.Less(r[i].req))
              && (ordering == Descending ==> !r[i].req.Less(r[j].req))
  {
    match ordering
    case Fifo => r := jobs;
    case Ascending => r := Sort(jobs, RequirementOf, false);
    case Descending => r := Sort(jobs, RequirementOf, true);
  }

  /** A permutation keeps ids distinct and stands for the same map. */
  lemma {:induction false} PermutedJobs(a: seq<QueuedJob>, b: seq<QueuedJob>)
    requires multiset(a) == multiset(b) && DistinctJobs(a)
    ensures DistinctJobs(b) && ReqMap(b) == ReqMap(a) && |a| == |b|
  {
    forall i, j | 0 <= i < j < |b|
      ensures b[i].id != b[j].id
    {
      assert b[i] in multiset(a) && b[j] in multiset(a);
      if b[i] == b[j] {
        TwiceInMultiset(a, b, i, j);
      }
    }
    assert |multiset(a)| == |multiset(b)|;
    forall q | q in a ensures q in b { assert q in multiset(a); }
    forall q | q in b ensures q in a { assert q in multiset(b); }
  }

  /** Equal elements at two places of a permutation stand at two places of the original. */
  lemma {:induction false} TwiceInMultiset<T>(a: seq<T>, b: seq<T>, i: nat, j: nat)
    requires multiset(a) == multiset(b) && i < j < |b| && b[i] == b[j]
    ensures exists k, l :: 0 <= k < l < |a| && a[k] == a[l] == b[i]
  {
    TwiceCounted(b, i, j);
    var k :| 0 <= k < |a| && a[k] == b[i];
    assert a == a[..k] + [a[k]] + a[k + 1..];
    var rest := a[..k] + a[k + 1..];
    assert multiset(a) == multiset(rest) + multiset{a[k]};
    assert b[i] in multiset(rest);
    var l :| 0 <= l < |rest| && rest[l] == b[i];
    if l < k {
      assert a[l] == a[k] == b[i];
    } else {
      assert a[k] == a[l + 1] == b[i];
    }
  }

  lemma {:induction false} TwiceCounted<T>(s: seq<T>, i: nat, j: nat)
    requires i < j < |s| && s[i] == s[j]
    ensures multiset(s)[s[i]] >= 2
  {
    assert s == s[..i] + [s[i]] + s[i + 1..j] + [s[j]] + s[j + 1..];
  }
}
