// Sums and counts over the rows of a table, a table being a finite map from keys to rows.
module Sums {

  datatype Option<+T> = None | Some(value: T)

  // ---------- Sums ----------

  ghost function MapSum<K, V>(m: map<K, V>, f: V -> int): int
    decreases |m|
  {
    if m == map[] then 0 else
      var k :| k in m;
      assert |m - {k}| < |m| by { KeysShrink(m, k); }
      f(m[k]) + MapSum(m - {k}, f)
  }

  lemma KeysShrink<K, V>(m: map<K, V>, k: K)
    requires k in m
    ensures |m - {k}| == |m| - 1
  {
    assert (m - {k}).Keys == m.Keys - {k};
  }

  lemma {:induction false} MapSumRemove<K, V>(m: map<K, V>, f: V -> int, k: K)
    requires k in m
    ensures MapSum(m, f) == f(m[k]) + MapSum(m - {k}, f)
    decreases |m|
  {
    var j :| j in m && MapSum(m, f) == f(m[j]) + MapSum(m - {j}, f);
    if j != k {
      KeysShrink(m, j);
      KeysShrink(m, k);
      MapSumRemove(m - {j}, f, k);
      MapSumRemove(m - {k}, f, j);
      assert m - {j} - {k} == m - {k} - {j};
    }
  }

  /** Writing one row changes a sum by the difference between the new row and the old one. */
  lemma MapSumUpdate<K, V>(m: map<K, V>, f: V -> int, k: K, v: V)
    ensures MapSum(m[k := v], f) == MapSum(m, f) - (if k in m then f(m[k]) else 0) + f(v)
  {
    MapSumRemove(m[k := v], f, k);
    if k in m {
      MapSumRemove(m, f, k);
      assert m[k := v] - {k} == m - {k};
    } else {
      assert m[k := v] - {k} == m;
    }
  }

  lemma SomeElement<T>(s: set<T>) returns (x: T)
    requires s != {}
    ensures x in s
  {
    x :| x in s;
  }

  // ---------- Counts ----------

  function KeysWhere<K(==), V>(m: map<K, V>, p: V -> bool): set<K> {
    set k | k in m && p(m[k])
  }

  function Count<K(==), V>(m: map<K, V>, p: V -> bool): nat {
    |KeysWhere(m, p)|
  }

  lemma CountUpdate<K, V>(m: map<K, V>, p: V -> bool, k: K, v: V)
    ensures Count(m[k := v], p) == Count(m, p) - (if k in m && p(m[k]) then 1 else 0) + (if p(v) then 1 else 0)
  {
    var others := KeysWhere(m, p) - {k};
    if k in m && p(m[k]) {
      assert KeysWhere(m, p) == others + {k};
    } else {
      assert KeysWhere(m, p) == others;
    }
    if p(v) {
      assert KeysWhere(m[k := v], p) == others + {k};
    } else {
      assert KeysWhere(m[k := v], p) == others;
    }
  }

  lemma CountRemove<K, V>(m: map<K, V>, p: V -> bool, k: K)
    requires k in m
    ensures Count(m, p) == Count(m - {k}, p) + if p(m[k]) then 1 else 0
  {
    assert KeysWhere(m, p) == KeysWhere(m - {k}, p) + if p(m[k]) then {k} else {};
  }

  lemma SubsetCardinality<T>(a: set<T>, b: set<T>)
    requires a <= b
    ensures |a| <= |b|
  {
    assert b == a + (b - a);
  }

  /** A count does not grow when every row that is counted afterwards was counted before. */
  lemma CountShrinks<K, V>(m: map<K, V>, p: V -> bool, m': map<K, V>, p': V -> bool)
    requires forall k :: k in m' && p'(m'[k]) ==> k in m && p(m[k])
    ensures Count(m', p') <= Count(m, p)
  {
    SubsetCardinality(KeysWhere(m', p'), KeysWhere(m, p));
  }

  lemma CountAtLeastTwo<K, V>(m: map<K, V>, p: V -> bool, a: K, b: K)
    requires a in m && b in m && a != b && p(m[a]) && p(m[b])
    ensures Count(m, p) >= 2
  {
    SubsetCardinality({a, b}, KeysWhere(m, p));
  }
}
