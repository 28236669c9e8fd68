/**
 * String-keyed count maps as the aggregation code uses them:
 * `getOrDefault(k, 0)`, `put(k, getOrDefault(k, 0) + q)` and
 * `merge(k, q, Integer::sum)` (the two updates agree), and the sum of the values.
 */
module Counts {
  type CountMap = map<string, int>

  /** `m.getOrDefault(k, 0)`. */
  function Get(m: CountMap, k: string): int {
    if k in m then m[k] else 0
  }

  /** Adds `q` to the entry of `k`, creating it when absent. */
  function Add(m: CountMap, k: string, q: int): (r: CountMap)
    ensures r.Keys == m.Keys + {k}
    ensures Get(r, k) == Get(m, k) + q
    ensures forall j :: j != k ==> Get(r, j) == Get(m, j)
  {
    m[k := Get(m, k) + q]
  }

  /** Adds 1 to the entry of every element of `keys`, first to last. */
  function AddEach(m: CountMap, keys: seq<string>): CountMap
    decreases |keys|
  {
    if keys == [] then m else Add(AddEach(m, keys[..|keys| - 1]), keys[|keys| - 1], 1)
  }

  /** The sum of all values (the `values().stream().sum()` of the source). */
  ghost function SumValues(m: CountMap): int
    decreases |m|
  {
    if m == map[] then 0
    else
      var k :| k in m;
      m[k] + SumValues(m - {k})
  }

  /** Two count maps are equal when they have the same keys and the same counts. */
  lemma Extensional(m: CountMap, n: CountMap)
    requires m.Keys == n.Keys
    requires forall k :: Get(m, k) == Get(n, k)
    ensures m == n
  {
    forall k | k in m ensures m[k] == n[k] {
      assert Get(m, k) == Get(n, k);
    }
  }

  /** The sum does not depend on which key is taken out first. */
  lemma {:induction false} SumValuesRemove(m: CountMap, k: string)
    requires k in m
    ensures SumValues(m) == m[k] + SumValues(m - {k})
    decreases |m|
  {
    var j :| j in m && SumValues(m) == m[j] + SumValues(m - {j});
    if j != k {
      var mj, mk := m - {j}, m - {k};
      assert |mj| < |m| by { assert mj.Keys == m.Keys - {j}; }
      assert |mk| < |m| by { assert mk.Keys == m.Keys - {k}; }
      SumValuesRemove(mj, k);
      SumValuesRemove(mk, j);
      assert mj - {k} == mk - {j};
    }
  }

  /** Adding `q` to one entry adds `q` to the sum. */
  lemma SumAdd(m: CountMap, k: string, q: int)
    ensures SumValues(Add(m, k, q)) == SumValues(m) + q
  {
    var r := Add(m, k, q);
    assert r - {k} == m - {k};
    SumValuesRemove(r, k);
    if k in m {
      SumValuesRemove(m, k);
    } else {
      assert m - {k} == m;
    }
  }

  /** Every element of `keys` adds one to the sum. */
  lemma {:induction false} SumAddEach(m: CountMap, keys: seq<string>)
    ensures SumValues(AddEach(m, keys)) == SumValues(m) + |keys|
    decreases |keys|
  {
    if keys != [] {
      SumAddEach(m, keys[..|keys| - 1]);
      SumAdd(AddEach(m, keys[..|keys| - 1]), keys[|keys| - 1], 1);
    }
  }

  /** The entry of `k` grows by the number of times `k` occurs in `keys`; the new keys are those of `keys`. */
  lemma {:induction false} AddEachGet(m: CountMap, keys: seq<string>)
    ensures AddEach(m, keys).Keys == m.Keys + set i | 0 <= i < |keys| :: keys[i]
    ensures forall k :: Get(AddEach(m, keys), k) == Get(m, k) + multiset(keys)[k]
    decreases |keys|
  {
    if keys != [] {
      var init, last := keys[..|keys| - 1], keys[|keys| - 1];
      AddEachGet(m, init);
      assert keys == init + [last];
      assert multiset(keys) == multiset(init) + multiset{last};
      assert (set i | 0 <= i < |keys| :: keys[i]) == (set i | 0 <= i < |init| :: init[i]) + {last};
    }
  }

  /** Applying two batches of single increments in either order gives the same map. */
  lemma AddEachCommutes(m: CountMap, xs: seq<string>, ys: seq<string>)
    ensures AddEach(AddEach(m, xs), ys) == AddEach(AddEach(m, ys), xs)
  {
    AddEachGet(m, xs);
    AddEachGet(m, ys);
    AddEachGet(AddEach(m, xs), ys);
    AddEachGet(AddEach(m, ys), xs);
    Extensional(AddEach(AddEach(m, xs), ys), AddEach(AddEach(m, ys), xs));
  }

  /** Two additions commute. */
  lemma AddCommutes(m: CountMap, a: string, p: int, b: string, q: int)
    ensures Add(Add(m, a, p), b, q) == Add(Add(m, b, q), a, p)
  {
    Extensional(Add(Add(m, a, p), b, q), Add(Add(m, b, q), a, p));
  }
}
