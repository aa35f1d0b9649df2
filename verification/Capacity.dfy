/** Slot capacities (cpu cores and megabytes of ram), their two orders, and sums of capacities. */
module Capacity {

  datatype Option<+T> = None | Some(value: T)

  /** A capacity of cpu cores and ram, as in libs/common/include/slot.h. */
  datatype Slot = Slot(cpu: nat, ram: nat) {

    /** The partial order: this capacity can be carved out of `other`. */
    predicate Fits(other: Slot) {
      cpu <= other.cpu && ram <= other.ram
    }

    /** The defaulted comparison: lexicographic, cpu first. A total order that `Fits` does not refine. */
    predicate Less(other: Slot) {
      cpu < other.cpu || (cpu == other.cpu && ram < other.ram)
    }

    function Plus(other: Slot): Slot {
      Slot(cpu + other.cpu, ram + other.ram)
    }

    /** This capacity is the sum of two, stated by component. */
    ghost predicate IsSum(x: Slot, y: Slot) {
      cpu == x.cpu + y.cpu && ram == x.ram + y.ram
    }

    /** This capacity is at most the sum of two. */
    ghost predicate Within(x: Slot, y: Slot) {
      cpu <= x.cpu + y.cpu && ram <= x.ram + y.ram
    }

    /** This capacity holds two others side by side. */
    ghost predicate Covers(x: Slot, y: Slot) {
      x.cpu + y.cpu <= cpu && x.ram + y.ram <= ram
    }

    /** Subtraction that stops at zero in each component. */
    function Minus(other: Slot): Slot {
      Slot(if cpu < other.cpu then 0 else cpu - other.cpu,
           if ram < other.ram then 0 else ram - other.ram)
    }

    function Double(): Slot {
      Slot(2 * cpu, 2 * ram)
    }

    /** The componentwise minimum, SQL's LEAST on both columns. */
    function Least(other: Slot): Slot {
      Slot(if cpu < other.cpu then cpu else other.cpu,
           if ram < other.ram then ram else other.ram)
    }
  }

  /** Cpu decides first and ram second, and of two different capacities exactly one is less. */
  lemma {:induction false} LessIsLexicographic(a: Slot, b: Slot)
    ensures a.cpu < b.cpu ==> a.Less(b)
    ensures a.cpu == b.cpu ==> (a.Less(b) <==> a.ram < b.ram)
    ensures a != b <==> (a.Less(b) <==> !b.Less(a))
    ensures a.Fits(b) && a != b ==> a.Less(b)
  {
  }

  const ZERO := Slot(0, 0)

  /** Sorted by the lexicographic order, equal neighbours allowed. */
  ghost predicate Sorted(s: seq<Slot>) {
    forall i, j :: 0 <= i < j < |s| ==> !s[j].Less(s[i])
  }

  ghost function Pick<K>(s: set<K>): (k: K)
    requires s != {}
    ensures k in s
  {
    var k :| k in s; k
  }

  /** Some element of a set; callers learn nothing about which. */
  method TakeOne<K(==)>(s: set<K>) returns (k: K)
    requires s != {}
    ensures k in s
  {
    k :| k in s;
  }

  /** The sum of the weights of a set of keys. */
  ghost function Total<K>(ids: set<K>, w: map<K, Slot>): Slot
    requires ids <= w.Keys
  {
    if ids == {} then ZERO
    else
      w[Pick(ids)].Plus(Total(ids - {Pick(ids)}, w))
  }

  /** The sum does not depend on which key is taken first. */
  lemma {:induction false} TotalTake<K>(ids: set<K>, k: K, w: map<K, Slot>)
    requires k in ids && ids <= w.Keys
    ensures Total(ids, w).IsSum(w[k], Total(ids - {k}, w))
    decreases ids
  {
    var first := Pick(ids);
    if first != k {
      TotalTake(ids - {first}, k, w);
      TotalTake(ids - {k}, first, w);
      assert ids - {first} - {k} == ids - {k} - {first};
    }
  }

  lemma {:induction false} TotalUnion<K>(a: set<K>, b: set<K>, w: map<K, Slot>)
    requires a !! b && a + b <= w.Keys
    ensures Total(a + b, w).IsSum(Total(a, w), Total(b, w))
    decreases a
  {
    if a == {} {
      assert a + b == b;
    } else {
      var k := Pick(a);
      var rest := a - {k};
      assert a + b - {k} == rest + b;
      TotalTake(a + b, k, w);
      TotalUnion(rest, b, w);
    }
  }

  /** A set weighs no more than a superset, even when the union double counts. */
  lemma {:induction false} TotalSubset<K>(a: set<K>, b: set<K>, w: map<K, Slot>)
    requires a <= b <= w.Keys
    ensures Total(a, w).Fits(Total(b, w))
  {
    TotalUnion(a, b - a, w);
    assert a + (b - a) == b;
  }

  lemma {:induction false} TotalSplit<K>(c: set<K>, a: set<K>, b: set<K>, w: map<K, Slot>)
    requires c <= a + b <= w.Keys
    ensures Total(c, w).Within(Total(a, w), Total(b, w))
  {
    TotalSubset(c, a + b, w);
    TotalUnion(a, b - a, w);
    assert a + (b - a) == a + b;
    TotalSubset(b - a, b, w);
  }

  lemma {:induction false} TotalAgree<K>(ids: set<K>, w: map<K, Slot>, w': map<K, Slot>)
    requires ids <= w.Keys && ids <= w'.Keys
    requires forall k :: k in ids ==> w[k] == w'[k]
    ensures Total(ids, w) == Total(ids, w')
    decreases ids
  {
    if ids != {} {
      var k :| k in ids;
      TotalTake(ids, k, w);
      TotalTake(ids, k, w');
      TotalAgree(ids - {k}, w, w');
    }
  }

  lemma {:induction false} TotalSingle<K>(k: K, w: map<K, Slot>)
    requires k in w
    ensures Total({k}, w) == w[k]
  {
    TotalTake({k}, k, w);
    assert {k} - {k} == {};
  }

  /** The keys that a map sends to one target. */
  ghost function Preimage<K, T>(f: map<K, T>, t: T): set<K> {
    set k | k in f && f[k] == t
  }

  /** Grouping keys by their image and summing the groups gives the whole sum. */
  lemma {:induction false} TotalGrouped<K, T>(
    f: map<K, T>, inside: set<K>, targets: set<T>, w: map<K, Slot>, group: map<T, Slot>)
    requires inside <= f.Keys && inside <= w.Keys && targets <= group.Keys
    requires forall k :: k in f ==> (k in inside <==> f[k] in targets)
    requires forall t :: t in targets ==> Preimage(f, t) <= w.Keys && group[t] == Total(Preimage(f, t), w)
    ensures Total(inside, w).IsSum(Total(targets, group), ZERO)
    decreases targets
  {
    if targets == {} {
      assert inside == {};
    } else {
      var t := Pick(targets);
      var rest := inside - Preimage(f, t);
      assert Preimage(f, t) + rest == inside;
      TotalGrouped(f, rest, targets - {t}, w, group);
      TotalTake(targets, t, group);
      TotalUnion(Preimage(f, t), rest, w);
    }
  }

  /** Summing smaller weights gives a smaller sum, and the same sum only if the weights are the same. */
  lemma {:induction false} TotalDominated<K>(ids: set<K>, w: map<K, Slot>, w': map<K, Slot>)
    requires ids <= w.Keys && ids <= w'.Keys
    requires forall k :: k in ids ==> w[k].Fits(w'[k])
    ensures Total(ids, w).Fits(Total(ids, w'))
    ensures Total(ids, w').Fits(Total(ids, w)) <==> forall k :: k in ids ==> w'[k].Fits(w[k])
    decreases ids
  {
    if ids != {} {
      var k := Pick(ids);
      TotalDominated(ids - {k}, w, w');
      TotalTake(ids, k, w);
      TotalTake(ids, k, w');
    }
  }

  lemma {:induction false} TotalZero<K>(ids: set<K>, w: map<K, Slot>)
    requires ids <= w.Keys && forall k :: k in ids ==> w[k].Fits(ZERO)
    ensures Total(ids, w).Fits(ZERO)
    decreases ids
  {
    if ids != {} {
      TotalZero(ids - {Pick(ids)}, w);
    }
  }

  /** Groups that take no more than their keys weigh take everything exactly when none takes less. */
  lemma {:induction false} TotalTaken<K, T>(f: map<K, T>, w: map<K, Slot>, taken: map<T, Slot>, loads: map<T, Slot>)
    requires f.Keys == w.Keys && taken.Keys == loads.Keys
    requires forall k :: k in f ==> f[k] in taken
    requires forall t :: t in taken ==> loads[t] == Total(Preimage(f, t), w) && taken[t].Fits(loads[t])
    ensures Total(w.Keys, w).IsSum(Total(taken.Keys, taken), ZERO) <==>
            forall t :: t in taken ==> loads[t].Fits(taken[t])
  {
    var whole, got, load := Total(w.Keys, w), Total(taken.Keys, taken), Total(taken.Keys, loads);
    assert whole.IsSum(load, ZERO) by { TotalGrouped(f, w.Keys, taken.Keys, w, loads); }
    assert got.Fits(load) by { TotalDominated(taken.Keys, taken, loads); }
    SumBetween(whole, load, got);
    TotalDominated(taken.Keys, taken, loads);
  }

  lemma {:induction false} SumBetween(whole: Slot, load: Slot, got: Slot)
    requires whole.IsSum(load, ZERO) && got.Fits(load)
    ensures whole.IsSum(got, ZERO) <==> load.Fits(got)
  {
  }
}
