/** The halving search of std::lower_bound, on ranges that need not be partitioned. */
module Search {
  import opened Capacity

  /** Integer division by two. */
  function Half(n: nat): (h: nat)
    ensures 2 * h <= n <= 2 * h + 1
  {
    if n < 2 then 0 else 1 + Half(n - 2)
  }

  /** The element probed first between `lo` and `hi`. */
  function Mid(lo: nat, hi: nat): (m: nat)
    requires lo < hi
    ensures lo <= m < hi
  {
    lo + Half(hi - lo)
  }

  /** Where halving ends between `lo` and `hi`; `ok[i]` tells that element i is not below the probe. */
  function Halving(ok: seq<bool>, lo: nat, hi: nat): nat
    requires lo <= hi <= |ok|
    decreases hi - lo
  {
    if lo == hi then lo
    else if ok[Mid(lo, hi)] then Halving(ok, lo, Mid(lo, hi))
    else Halving(ok, Mid(lo, hi) + 1, hi)
  }

  lemma {:induction false} MidIsHalf(lo: nat, len: nat)
    requires len > 0
    ensures Mid(lo, lo + len) == lo + len / 2 && 0 <= len / 2 < len
  {
  }

  /** One probe of the loop. */
  lemma {:induction false} HalvingStep(ok: seq<bool>, r: nat, len: nat, half: nat)
    requires r + len <= |ok| && half < len && Mid(r, r + len) == r + half
    ensures Halving(ok, r, r + len) ==
            if ok[r + half] then Halving(ok, r, r + half) else Halving(ok, r + half + 1, r + len)
  {
  }

  /** The loop of std::lower_bound. */
  method HalvingLoop(ok: seq<bool>) returns (r: nat)
    ensures r == Halving(ok, 0, |ok|)
  {
    var len: nat := |ok|;
    r := 0;
    while len > 0
      invariant r + len <= |ok|
      invariant Halving(ok, r, r + len) == Halving(ok, 0, |ok|)
    {
      MidIsHalf(r, len);
      var half: nat := len / 2;
      HalvingStep(ok, r, len, half);
      if ok[r + half] {
        len := half;
      } else {
        r := r + half + 1;
        len := len - half - 1;
      }
    }
  }

  /** The search as its callers see it: it stops at a boundary, and the element in the middle decides the half. */
  method LowerBound(ok: seq<bool>) returns (r: nat)
    ensures r == Halving(ok, 0, |ok|)
    ensures Boundary(ok, r)
    ensures |ok| > 0 ==> (ok[|ok| / 2] <==> r <= |ok| / 2)
  {
    r := HalvingLoop(ok);
    ProbesMiddle(ok, 0, |ok|);
    HalvingBoundary(ok);
  }

  /** `r` is accepted or the end of the range, and not preceded by an accepted element. */
  ghost predicate Boundary(ok: seq<bool>, r: nat) {
    r <= |ok| && (r < |ok| ==> ok[r]) && (r > 0 ==> !ok[r - 1])
  }

  /** Halving stays between two ends of which the lower is preceded by a rejected element and the upper is accepted. */
  lemma {:induction false} HalvingBetween(ok: seq<bool>, lo: nat, hi: nat)
    requires lo <= hi <= |ok| && (hi < |ok| ==> ok[hi]) && (lo > 0 ==> !ok[lo - 1])
    ensures Boundary(ok, Halving(ok, lo, hi))
    decreases hi - lo
  {
    if lo < hi {
      var mid := Mid(lo, hi);
      if ok[mid] {
        HalvingBetween(ok, lo, mid);
      } else {
        HalvingBetween(ok, mid + 1, hi);
      }
    }
  }

  /** On any range the search stops at a boundary: an accepted element, or the end, just after a rejected one. */
  lemma {:induction false} HalvingBoundary(ok: seq<bool>)
    ensures Boundary(ok, Halving(ok, 0, |ok|))
  {
    HalvingBetween(ok, 0, |ok|);
  }

  /** Every accepted element is followed only by accepted ones. */
  ghost predicate Partitioned(ok: seq<bool>) {
    forall i, j :: 0 <= i < j < |ok| && ok[i] ==> ok[j]
  }

  /** On a partitioned range the search finds the first accepted element. */
  lemma {:induction false} HalvingIsLeast(ok: seq<bool>, k: nat)
    requires Partitioned(ok) && k < |ok|
    ensures ok[k] <==> Halving(ok, 0, |ok|) <= k
  {
    HalvingBoundary(ok);
  }

  /** Which capacities of a range can hold `req`. */
  function FitFlags(range: seq<Slot>, req: Slot): (ok: seq<bool>)
    ensures |ok| == |range|
    ensures forall i :: 0 <= i < |ok| ==> ok[i] == req.Fits(range[i])
  {
    seq(|range|, i requires 0 <= i < |range| => req.Fits(range[i]))
  }

  lemma {:induction false} HalvingRange(ok: seq<bool>, lo: nat, hi: nat)
    requires lo <= hi <= |ok|
    ensures lo <= Halving(ok, lo, hi) <= hi
    decreases hi - lo
  {
    if lo < hi {
      var mid := Mid(lo, hi);
      if ok[mid] {
        HalvingRange(ok, lo, mid);
      } else {
        HalvingRange(ok, mid + 1, hi);
      }
    }
  }

  /** Where the search probes: on every part the element in the middle, the later one of two, decides whether the search
      ends at or before it, and which part is searched on. */
  lemma {:induction false} ProbesMiddle(ok: seq<bool>, lo: nat, hi: nat)
    requires lo <= hi <= |ok|
    ensures lo < hi ==> (ok[lo + (hi - lo) / 2] <==> Halving(ok, lo, hi) <= lo + (hi - lo) / 2)
    ensures lo < hi && ok[lo + (hi - lo) / 2] ==> Halving(ok, lo, hi) == Halving(ok, lo, lo + (hi - lo) / 2)
    ensures lo < hi && !ok[lo + (hi - lo) / 2] ==> Halving(ok, lo, hi) == Halving(ok, lo + (hi - lo) / 2 + 1, hi)
  {
    if lo < hi {
      var mid := Mid(lo, hi);
      assert mid == lo + (hi - lo) / 2;
      HalvingRange(ok, lo, mid);
      HalvingRange(ok, mid + 1, hi);
    }
  }

  /** An element equal to the probe just before the part searched: the search does not come this far for it. */
  predicate Passed(range: seq<Slot>, lo: nat, i: nat)
    requires lo <= i < |range|
  {
    lo > 0 && range[i] == range[lo - 1]
  }

  ghost predicate BeforeFit(range: seq<Slot>, lo: nat, mid: nat)
    requires mid < |range|
  {
    forall i :: lo <= i < mid ==> Passed(range, lo, i) || range[i].Fits(range[mid])
  }

  /** At every probe the elements before it, as far as they are searched, fit into the element probed. */
  ghost predicate Pivots(range: seq<Slot>, lo: nat, hi: nat)
    requires lo <= hi <= |range|
    decreases hi - lo
  {
    lo < hi ==>
      && BeforeFit(range, lo, Mid(lo, hi))
      && Pivots(range, lo, Mid(lo, hi))
      && Pivots(range, Mid(lo, hi) + 1, hi)
  }

  /** The search never ends after an element that holds the requirement. */
  ghost predicate FindsFirst(range: seq<Slot>) {
    forall req: Slot, k :: 0 <= k < |range| && req.Fits(range[k]) ==> Halving(FitFlags(range, req), 0, |range|) <= k
  }

  /** Where the search for a requirement ends in a part of the range. */
  function Ends(range: seq<Slot>, req: Slot, lo: nat, hi: nat): nat
    requires lo <= hi <= |range|
  {
    Halving(FitFlags(range, req), lo, hi)
  }

  /** One probe of the search. */
  lemma {:induction false} ProbeStep(range: seq<Slot>, req: Slot, lo: nat, mid: nat, hi: nat)
    requires lo < hi <= |range| && mid == Mid(lo, hi)
    ensures if req.Fits(range[mid]) then Ends(range, req, lo, hi) == Ends(range, req, lo, mid) <= mid
            else Ends(range, req, lo, hi) == Ends(range, req, mid + 1, hi) > mid
  {
    HalvingRange(FitFlags(range, req), lo, mid);
    HalvingRange(FitFlags(range, req), mid + 1, hi);
  }

  lemma {:induction false} PivotsFind(range: seq<Slot>, lo: nat, hi: nat, req: Slot, k: nat)
    requires lo <= hi <= |range| && Pivots(range, lo, hi)
    requires lo <= k < hi && req.Fits(range[k]) && (lo > 0 ==> !req.Fits(range[lo - 1]))
    ensures Ends(range, req, lo, hi) <= k
    decreases hi - lo
  {
    var mid := Mid(lo, hi);
    ProbeStep(range, req, lo, mid, hi);
    if !req.Fits(range[mid]) {
      assert k > mid by { assert BeforeFit(range, lo, mid); }
      PivotsFind(range, mid + 1, hi, req, k);
    } else if k < mid {
      PivotsFind(range, lo, mid, req, k);
    }
  }

  /** Requirements of the elements' own sizes are found in a part of the range. */
  ghost predicate FindsOwn(range: seq<Slot>, lo: nat, hi: nat)
    requires lo <= hi <= |range|
  {
    forall i :: lo <= i < hi && !Passed(range, lo, i) ==> Ends(range, range[i], lo, hi) <= i
  }

  lemma {:induction false} OwnBefore(range: seq<Slot>, lo: nat, mid: nat, hi: nat)
    requires lo < hi <= |range| && mid == Mid(lo, hi) && FindsOwn(range, lo, hi)
    ensures FindsOwn(range, lo, mid) && BeforeFit(range, lo, mid)
  {
    forall i | lo <= i < mid && !Passed(range, lo, i)
      ensures range[i].Fits(range[mid]) && Ends(range, range[i], lo, mid) <= i
    {
      ProbeStep(range, range[i], lo, mid, hi);
    }
  }

  lemma {:induction false} OwnBehind(range: seq<Slot>, lo: nat, mid: nat, hi: nat)
    requires Sorted(range) && lo < hi <= |range| && mid == Mid(lo, hi) && FindsOwn(range, lo, hi)
    ensures FindsOwn(range, mid + 1, hi)
  {
    forall i | mid < i < hi && range[i] != range[mid]
      ensures Ends(range, range[i], mid + 1, hi) <= i
    {
      assert !range[i].Less(range[mid]);
      assert lo > 0 ==> !range[mid].Less(range[lo - 1]);
      ProbeStep(range, range[i], lo, mid, hi);
    }
  }

  lemma {:induction false} OwnPivots(range: seq<Slot>, lo: nat, hi: nat)
    requires Sorted(range) && lo <= hi <= |range| && FindsOwn(range, lo, hi)
    ensures Pivots(range, lo, hi)
    decreases hi - lo
  {
    if lo < hi {
      var mid := Mid(lo, hi);
      OwnBefore(range, lo, mid, hi);
      OwnBehind(range, lo, mid, hi);
      OwnPivots(range, lo, mid);
      OwnPivots(range, mid + 1, hi);
    }
  }

  /** On a sorted range the search finds the first element that holds the requirement, for every requirement, exactly
      when the elements before each probe fit into it. */
  lemma {:induction false} FindsFirstExactly(range: seq<Slot>)
    requires Sorted(range)
    ensures FindsFirst(range) <==> Pivots(range, 0, |range|)
  {
    if FindsFirst(range) {
      OwnPivots(range, 0, |range|);
    }
    if Pivots(range, 0, |range|) {
      forall req: Slot, k | 0 <= k < |range| && req.Fits(range[k])
        ensures Halving(FitFlags(range, req), 0, |range|) <= k
      {
        PivotsFind(range, 0, |range|, req, k);
      }
    }
  }

  /** Of the probes of a search that is rejected again and again, one holds the requirement. */
  predicate Caught(range: seq<Slot>, req: Slot, lo: nat, hi: nat)
    requires lo <= hi <= |range|
    decreases hi - lo
  {
    lo < hi && (req.Fits(range[Mid(lo, hi)]) || Caught(range, req, Mid(lo, hi) + 1, hi))
  }

  /** The search finds something exactly when a probe on its way to the end holds the requirement. */
  lemma {:induction false} CaughtExactly(range: seq<Slot>, req: Slot, lo: nat, hi: nat)
    requires lo <= hi <= |range|
    ensures Halving(FitFlags(range, req), lo, hi) < hi <==> Caught(range, req, lo, hi)
    decreases hi - lo
  {
    if lo < hi {
      var mid := Mid(lo, hi);
      ProbeStep(range, req, lo, mid, hi);
      if !req.Fits(range[mid]) {
        CaughtExactly(range, req, mid + 1, hi);
      }
    }
  }

  lemma {:induction false} CaughtBelow(range: seq<Slot>, req: Slot, larger: Slot, lo: nat, hi: nat)
    requires lo <= hi <= |range| && req.Fits(larger) && Caught(range, larger, lo, hi)
    ensures Caught(range, req, lo, hi)
    decreases hi - lo
  {
    if !larger.Fits(range[Mid(lo, hi)]) {
      CaughtBelow(range, req, larger, Mid(lo, hi) + 1, hi);
    }
  }

  /** Each element of the range is caught. */
  predicate Complete(range: seq<Slot>) {
    forall i :: 0 <= i < |range| ==> Caught(range, range[i], 0, |range|)
  }

  /** The search finds something that holds the requirement whenever there is something. */
  ghost predicate FindsSome(range: seq<Slot>) {
    forall req: Slot, k :: 0 <= k < |range| && req.Fits(range[k]) ==> Halving(FitFlags(range, req), 0, |range|) < |range|
  }

  lemma {:induction false} FindsSomeExactly(range: seq<Slot>)
    ensures FindsSome(range) <==> Complete(range)
  {
    if FindsSome(range) {
      forall i | 0 <= i < |range| ensures Caught(range, range[i], 0, |range|) {
        CaughtExactly(range, range[i], 0, |range|);
      }
    }
    if Complete(range) {
      forall req: Slot, k | 0 <= k < |range| && req.Fits(range[k])
        ensures Halving(FitFlags(range, req), 0, |range|) < |range|
      {
        CaughtBelow(range, req, range[k], 0, |range|);
        CaughtExactly(range, req, 0, |range|);
      }
    }
  }

  /** Finding the first implies finding some. */
  lemma {:induction false} PivotsComplete(range: seq<Slot>)
    requires Pivots(range, 0, |range|)
    ensures Complete(range)
  {
    forall i | 0 <= i < |range| ensures Caught(range, range[i], 0, |range|) {
      PivotsFind(range, 0, |range|, range[i], i);
      CaughtExactly(range, range[i], 0, |range|);
    }
  }

  /** Any two capacities are comparable by Fits. */
  ghost predicate Chain(range: seq<Slot>) {
    forall i, j :: 0 <= i < j < |range| ==> range[i].Fits(range[j]) || range[j].Fits(range[i])
  }

  /** A lexicographically sorted chain meets the condition at every probe. */
  lemma {:induction false} SortedChainPivots(range: seq<Slot>, lo: nat, hi: nat)
    requires Sorted(range) && Chain(range) && lo <= hi <= |range|
    ensures Pivots(range, lo, hi)
    decreases hi - lo
  {
    if lo < hi {
      var mid := Mid(lo, hi);
      assert BeforeFit(range, lo, mid) by {
        forall i | lo <= i < mid ensures range[i].Fits(range[mid]) { assert !range[mid].Less(range[i]); }
      }
      SortedChainPivots(range, lo, mid);
      SortedChainPivots(range, mid + 1, hi);
    }
  }

  /** A chain is not needed. */
  lemma {:induction false} PivotsWithoutChain()
    ensures var range := [Slot(1, 1), Slot(2, 5), Slot(3, 2)];
            Sorted(range) && !Chain(range) && FindsFirst(range)
  {
    var range := [Slot(1, 1), Slot(2, 5), Slot(3, 2)];
    assert !range[1].Fits(range[2]) && !range[2].Fits(range[1]);
    assert Mid(0, 3) == 1 && Pivots(range, 0, 1) && Pivots(range, 2, 3) && BeforeFit(range, 0, 1);
    assert Pivots(range, 0, 3);
    FindsFirstExactly(range);
  }
}
