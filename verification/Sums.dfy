/** Sums over the values of a map, and sizes of sets. */
module Sums {
  ghost function Sum<K>(m: map<K, nat>): nat
    decreases |m|
  {
    if m == map[] then 0 else
      var k :| k in m;
      m[k] + Sum(m - {k})
  }

  /** Any key may be taken out first. */
  lemma {:induction false} SumTake<K>(m: map<K, nat>, k: K)
    requires k in m
    ensures Sum(m) == m[k] + Sum(m - {k})
    decreases |m|
  {
    var j :| j in m && Sum(m) == m[j] + Sum(m - {j});
    if j != k {
      SumTake(m - {j}, k);
      SumTake(m - {k}, j);
      assert m - {j} - {k} == m - {k} - {j};
    }
  }

  lemma SumPut<K>(m: map<K, nat>, k: K, v: nat)
    ensures Sum(m[k := v]) == Sum(m) - (if k in m then m[k] else 0) + v
  {
    SumTake(m[k := v], k);
    assert m[k := v] - {k} == m - {k};
    if k in m { SumTake(m, k); } else { assert m - {k} == m; }
  }

  /** With at most `n` keys and no value above `most`, the sum is at most n * most. */
  lemma {:induction false} SumBound<K>(m: map<K, nat>, n: nat, most: nat)
    requires |m| <= n && forall k :: k in m ==> m[k] <= most
    ensures Sum(m) <= n * most
    decreases |m|
  {
    if m == map[] {
      Product(0, n, most);
    } else {
      var k :| k in m && Sum(m) == m[k] + Sum(m - {k});
      SumBound(m - {k}, |m| - 1, most);
      Product(|m| - 1, n - 1, most);
    }
  }

  lemma Product(i: nat, n: int, most: nat)
    requires i <= n
    ensures i * most <= n * most && (n + 1) * most == n * most + most
  {}

  lemma {:induction false} SubsetSize<T>(part: set<T>, whole: set<T>)
    requires part <= whole
    ensures |part| <= |whole|
  {
    if part != {} {
      var x :| x in part;
      SubsetSize(part - {x}, whole - {x});
    }
  }
}
