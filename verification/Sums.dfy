/** Sums over the account tables: one named projection per column. */
module Sums {

  /** The sum of `f` over the values of `m`. */
  ghost function Sum<K, V>(m: map<K, V>, f: V -> int): int
    decreases |m|
  {
    if m == map[] then 0
    else
      var k :| k in m;
      f(m[k]) + Sum(m - {k}, f)
  }

  /** What key `k` contributes; an absent row contributes nothing. */
  function At<K, V>(m: map<K, V>, k: K, f: V -> int): int {
    if k in m then f(m[k]) else 0
  }

  /** The column that is the row itself. */
  function Whole(n: nat): int {
    n
  }

  /** Any row can be taken out first. */
  lemma {:induction false} SumTakeOut<K, V>(m: map<K, V>, k: K, f: V -> int)
    requires k in m
    ensures Sum(m, f) == f(m[k]) + Sum(m - {k}, f)
    decreases |m|
  {
    var j :| j in m && Sum(m, f) == f(m[j]) + Sum(m - {j}, f);
    if j != k {
      SumTakeOut(m - {j}, k, f);
      SumTakeOut(m - {k}, j, f);
      assert m - {j} - {k} == m - {k} - {j};
    }
  }

  /** Writing one row moves the sum by the difference of that row. */
  lemma SumUpdate<K, V>(m: map<K, V>, k: K, v: V, f: V -> int)
    ensures Sum(m[k := v], f) == Sum(m, f) - At(m, k, f) + f(v)
  {
    var n := m[k := v];
    SumTakeOut(n, k, f);
    assert n - {k} == m - {k};
    if k in m {
      SumTakeOut(m, k, f);
    } else {
      assert m - {k} == m;
    }
  }

  /** A sum of non-negative terms is at least any one of them. */
  lemma {:induction false} SumAtLeast<K, V>(m: map<K, V>, k: K, f: V -> int)
    requires forall j :: j in m ==> f(m[j]) >= 0
    ensures 0 <= At(m, k, f) <= Sum(m, f)
    decreases |m|
  {
    if m != map[] {
      var j := if k in m then k else var i :| i in m; i;
      SumTakeOut(m, j, f);
      SumAtLeast(m - {j}, k, f);
    }
  }

  lemma {:induction false} SumOfZeros<K, V>(m: map<K, V>, f: V -> int)
    requires forall k :: k in m ==> f(m[k]) == 0
    ensures Sum(m, f) == 0
    decreases |m|
  {
    if m != map[] {
      var k :| k in m;
      SumTakeOut<K, V>(m, k, f);
      SumOfZeros(m - {k}, f);
    }
  }

  // ----- over a sequence

  function Total<T>(s: seq<T>, f: T -> int): int {
    if s == [] then 0 else f(s[0]) + Total(s[1..], f)
  }

  lemma {:induction false} TotalConcat<T>(s: seq<T>, t: seq<T>, f: T -> int)
    ensures Total(s + t, f) == Total(s, f) + Total(t, f)
  {
    if s == [] {
      assert s + t == t;
    } else {
      assert (s + t)[1..] == s[1..] + t;
      TotalConcat(s[1..], t, f);
    }
  }

  /** Taking one entry out of a list takes its term out of the sum. */
  lemma TotalRemove<T>(s: seq<T>, k: nat, f: T -> int)
    requires k < |s|
    ensures Total(s[..k] + s[k + 1..], f) == Total(s, f) - f(s[k])
  {
    assert s == s[..k] + ([s[k]] + s[k + 1..]);
    TotalConcat(s[..k], [s[k]] + s[k + 1..], f);
    TotalConcat([s[k]], s[k + 1..], f);
    TotalConcat(s[..k], s[k + 1..], f);
    assert Total([s[k]], f) == f(s[k]);
  }

  lemma {:induction false} TotalAtLeast<T>(s: seq<T>, k: nat, f: T -> int)
    requires k < |s| && forall j :: 0 <= j < |s| ==> f(s[j]) >= 0
    ensures 0 <= f(s[k]) <= Total(s, f)
    decreases |s|
  {
    TotalNonNegative(s[1..], f);
    if k > 0 {
      TotalAtLeast(s[1..], k - 1, f);
    }
  }

  lemma {:induction false} TotalNonNegative<T>(s: seq<T>, f: T -> int)
    requires forall j :: 0 <= j < |s| ==> f(s[j]) >= 0
    ensures Total(s, f) >= 0
    decreases |s|
  {
    if s != [] {
      TotalNonNegative(s[1..], f);
    }
  }
}
