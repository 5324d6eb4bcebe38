/** Counting dictionaries: the `d[k] = d.get(k, 0) + 1` idiom the scanner, the analytics and
    the severity breakdown all use, with the facts about their totals. */
module Histograms {

  /** Number of occurrences of `x` in `xs`. */
  function Count<T(==)>(xs: seq<T>, x: T): nat
    ensures Count(xs, x) <= |xs|
    ensures Count(xs, x) == 0 <==> x !in xs
  {
    if xs == [] then 0 else Count(xs[..|xs| - 1], x) + (if xs[|xs| - 1] == x then 1 else 0)
  }

  /** `m[k] = m.get(k, 0) + 1`. */
  function Tally<K>(m: map<K, nat>, k: K): (r: map<K, nat>)
    ensures r.Keys == m.Keys + {k}
    ensures r[k] == (if k in m then m[k] else 0) + 1
    ensures forall j :: j in m && j != k ==> r[j] == m[j]
  {
    m[k := (if k in m then m[k] else 0) + 1]
  }

  /** The dictionary after tallying every element of `xs`, in order, into `m`. */
  function TallyAll<K>(m: map<K, nat>, xs: seq<K>): map<K, nat> {
    if xs == [] then m else Tally(TallyAll(m, xs[..|xs| - 1]), xs[|xs| - 1])
  }

  /** Sum of the values of a counting dictionary (`sum(d.values())`). */
  ghost function MapSum<K>(m: map<K, nat>): nat
    decreases |m.Keys|
  {
    if m == map[] then 0
    else
      var k :| k in m;
      assert (m - {k}).Keys == m.Keys - {k};
      m[k] + MapSum(m - {k})
  }

  /** The sum does not depend on which key is taken out first. */
  lemma {:induction false} MapSumRemove<K>(m: map<K, nat>, k: K)
    requires k in m
    ensures MapSum(m) == m[k] + MapSum(m - {k})
    decreases |m.Keys|
  {
    var j :| j in m && MapSum(m) == m[j] + MapSum(m - {j});
    assert (m - {j}).Keys == m.Keys - {j};
    assert (m - {k}).Keys == m.Keys - {k};
    if j != k {
      MapSumRemove(m - {j}, k);
      MapSumRemove(m - {k}, j);
      assert m - {j} - {k} == m - {k} - {j};
    }
  }

  /** A dictionary of zero counts sums to zero. */
  lemma {:induction false} MapSumZero<K>(m: map<K, nat>)
    requires forall k :: k in m ==> m[k] == 0
    ensures MapSum(m) == 0
    decreases |m.Keys|
  {
    if m != map[] {
      var k :| k in m;
      MapSumRemove(m, k);
      assert (m - {k}).Keys == m.Keys - {k};
      MapSumZero(m - {k});
    }
  }

  lemma MapSumTally<K>(m: map<K, nat>, k: K)
    ensures MapSum(Tally(m, k)) == MapSum(m) + 1
  {
    var r := Tally(m, k);
    MapSumRemove(r, k);
    assert r - {k} == m - {k};
    if k in m {
      MapSumRemove(m, k);
    } else {
      assert m - {k} == m;
    }
  }

  lemma TallyAllSnoc<K>(m: map<K, nat>, xs: seq<K>, x: K)
    ensures TallyAll(m, xs + [x]) == Tally(TallyAll(m, xs), x)
  {
    assert (xs + [x])[..|xs|] == xs;
  }

  /** Tallying `xs` adds exactly `|xs|` to the total. */
  lemma {:induction false} TallyAllSum<K>(m: map<K, nat>, xs: seq<K>)
    ensures MapSum(TallyAll(m, xs)) == MapSum(m) + |xs|
  {
    if xs != [] {
      TallyAllSum(m, xs[..|xs| - 1]);
      MapSumTally(TallyAll(m, xs[..|xs| - 1]), xs[|xs| - 1]);
    }
  }

  /** After tallying, the keys are the old keys and the tallied values, and each entry is
      its old value (0 when absent) plus its number of occurrences. */
  lemma {:induction false} TallyAllAt<K>(m: map<K, nat>, xs: seq<K>, k: K)
    ensures k in TallyAll(m, xs) <==> k in m || k in xs
    ensures k in TallyAll(m, xs) ==> TallyAll(m, xs)[k] == (if k in m then m[k] else 0) + Count(xs, k)
  {
    if xs != [] {
      var init := xs[..|xs| - 1];
      TallyAllAt(m, init, k);
      assert xs == init + [xs[|xs| - 1]];
      assert k in xs <==> k in init || k == xs[|xs| - 1];
    }
  }

  /** Tallying onto a dictionary of zero counts: the old keys stay, every other key is a
      tallied value, each entry counts its value and the entries sum to `|xs|`. */
  lemma TallyOntoZeros<K>(m: map<K, nat>, xs: seq<K>)
    requires forall k :: k in m ==> m[k] == 0
    ensures var r := TallyAll(m, xs);
      (forall k :: k in m ==> k in r)
      && (forall k :: k in r <==> k in m || k in xs)
      && (forall k :: k in r ==> r[k] == Count(xs, k))
      && MapSum(r) == |xs|
  {
    var r := TallyAll(m, xs);
    forall k ensures (k in r <==> k in m || k in xs) && (k in r ==> r[k] == Count(xs, k)) {
      TallyAllAt(m, xs, k);
    }
    TallyAllSum(m, xs);
    MapSumZero(m);
  }

  lemma {:induction false} CountAppend<T>(xs: seq<T>, ys: seq<T>, x: T)
    ensures Count(xs + ys, x) == Count(xs, x) + Count(ys, x)
    decreases |ys|
  {
    if ys != [] {
      var init := ys[..|ys| - 1];
      assert (xs + ys)[..|xs + ys| - 1] == xs + init;
      CountAppend(xs, init, x);
      assert (xs + ys)[|xs + ys| - 1] == ys[|ys| - 1];
    } else {
      assert xs + ys == xs;
    }
  }
}
