/** Sums of an integer weight over the rows of a table.

A table is a finite map from primary key to row. The database has no order on its rows, so the sum picks rows in an
unspecified order; the lemmas say how it reacts to inserting or updating one row, which is all that SQL statements do.
*/
module Sums {

  ghost function SumRows<K, V>(m: map<K, V>, weight: (K, V) -> int): int
    decreases |m|
  {
    if m == map[] then 0
    else
      var k :| k in m;
      weight(k, m[k]) + SumRows(m - {k}, weight)
  }

  /** Any row may be counted first. */
  lemma {:induction false} SumRowsTakeOut<K, V>(m: map<K, V>, weight: (K, V) -> int, k: K)
    requires k in m
    ensures SumRows(m, weight) == weight(k, m[k]) + SumRows(m - {k}, weight)
    decreases |m|
  {
    var j :| j in m && SumRows(m, weight) == weight(j, m[j]) + SumRows(m - {j}, weight);
    if j != k {
      SumRowsTakeOut(m - {j}, weight, k);
      SumRowsTakeOut(m - {k}, weight, j);
      assert m - {j} - {k} == m - {k} - {j};
    }
  }

  /** Writing one row changes the sum by the difference of the row's weights. */
  lemma SumRowsUpdate<K, V>(m: map<K, V>, weight: (K, V) -> int, k: K, row: V)
    ensures SumRows(m[k := row], weight)
         == SumRows(m, weight) + weight(k, row) - (if k in m then weight(k, m[k]) else 0)
  {
    SumRowsTakeOut(m[k := row], weight, k);
    assert m[k := row] - {k} == m - {k};
    if k in m {
      SumRowsTakeOut(m, weight, k);
    } else {
      assert m - {k} == m;
    }
  }

  lemma {:induction false} SumRowsNonNegative<K, V>(m: map<K, V>, weight: (K, V) -> int)
    requires forall k :: k in m ==> 0 <= weight(k, m[k])
    ensures 0 <= SumRows(m, weight)
    decreases |m|
  {
    if m != map[] {
      var k :| k in m;
      SumRowsTakeOut(m, weight, k);
      SumRowsNonNegative(m - {k}, weight);
    }
  }

  /** With no negative weights, a single row weighs at most as much as the table. */
  lemma {:induction false} SumRowsAtLeastOne<K, V>(m: map<K, V>, weight: (K, V) -> int, k: K)
    requires forall j :: j in m ==> 0 <= weight(j, m[j])
    requires k in m
    ensures weight(k, m[k]) <= SumRows(m, weight)
  {
    SumRowsTakeOut(m, weight, k);
    SumRowsNonNegative(m - {k}, weight);
  }

  /** Two weights that compare the same way on every row compare that way on the table. */
  lemma {:induction false} SumRowsMonotone<K, V>(m: map<K, V>, low: (K, V) -> int, high: (K, V) -> int)
    requires forall k :: k in m ==> low(k, m[k]) <= high(k, m[k])
    ensures SumRows(m, low) <= SumRows(m, high)
    decreases |m|
  {
    if m != map[] {
      var k :| k in m;
      SumRowsTakeOut(m, low, k);
      SumRowsTakeOut(m, high, k);
      SumRowsMonotone(m - {k}, low, high);
    }
  }

  lemma {:induction false} SumRowsZero<K, V>(m: map<K, V>, weight: (K, V) -> int)
    requires forall k :: k in m ==> weight(k, m[k]) == 0
    ensures SumRows(m, weight) == 0
    decreases |m|
  {
    if m != map[] {
      var k :| k in m;
      SumRowsTakeOut(m, weight, k);
      SumRowsZero(m - {k}, weight);
    }
  }

  /** Tables with the same keys and the same weight row by row have the same sum. */
  lemma {:induction false} SumRowsSame<K, V>(a: map<K, V>, b: map<K, V>, weight: (K, V) -> int)
    requires a.Keys == b.Keys && forall k :: k in a ==> weight(k, a[k]) == weight(k, b[k])
    ensures SumRows(a, weight) == SumRows(b, weight)
    decreases |a|
  {
    if a != map[] {
      var k :| k in a;
      SumRowsTakeOut(a, weight, k);
      SumRowsTakeOut(b, weight, k);
      SumRowsSame(a - {k}, b - {k}, weight);
    }
  }
}
