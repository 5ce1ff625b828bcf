/** Sums of integer weights kept in a finite map. */
module Sums {

  ghost function Sum(m: map<string, int>): int
    decreases |m|
  {
    if m == map[] then 0
    else
      var k :| k in m;
      m[k] + Sum(m - {k})
  }

  function Get(m: map<string, int>, k: string): int {
    if k in m then m[k] else 0
  }

  lemma {:induction false} Split(m: map<string, int>, k: string)
    ensures Sum(m) == Get(m, k) + Sum(m - {k})
    decreases |m|
  {
    if k !in m {
      assert m - {k} == m;
    } else {
      var j :| j in m && Sum(m) == m[j] + Sum(m - {j});
      if j != k {
        Split(m - {j}, k);
        Split(m - {k}, j);
        assert m - {j} - {k} == m - {k} - {j};
      }
    }
  }

  lemma Put(m: map<string, int>, k: string, v: int)
    ensures Sum(m[k := v]) == Sum(m) - Get(m, k) + v
  {
    Split(m, k);
    Split(m[k := v], k);
    assert m[k := v] - {k} == m - {k};
  }

  lemma {:induction false} NonNegative(m: map<string, int>)
    requires forall k :: k in m ==> 0 <= m[k]
    ensures 0 <= Sum(m)
    decreases |m|
  {
    if m == map[] {
    } else {
      var k :| k in m && Sum(m) == m[k] + Sum(m - {k});
      NonNegative(m - {k});
    }
  }
}
