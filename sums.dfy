/** Sums over the rows of a table. A table is a map, so a sum over its rows
    does not depend on the order the database returns them in: SumMap picks
    the rows in an arbitrary order and SumMapRemove shows that any order gives
    the same total. */
module Sums {

  /** The sum of the values of m. */
  ghost function SumMap<K>(m: map<K, real>): real
    decreases |m|
  {
    if m == map[] then 0.0
    else
      var k :| k in m;
      m[k] + SumMap(m - {k})
  }

  /** Any row may be taken out first. */
  lemma {:induction false} SumMapRemove<K>(m: map<K, real>, k: K)
    requires k in m
    ensures SumMap(m) == m[k] + SumMap(m - {k})
    decreases |m|
  {
    var j :| j in m && SumMap(m) == m[j] + SumMap(m - {j});
    if j != k {
      SumMapRemove(m - {j}, k);
      SumMapRemove(m - {k}, j);
      assert m - {j} - {k} == m - {k} - {j};
    }
  }

  /** Adding a row adds its value. */
  lemma SumMapInsert<K>(m: map<K, real>, k: K, v: real)
    requires k !in m
    ensures SumMap(m[k := v]) == SumMap(m) + v
  {
    SumMapRemove(m[k := v], k);
    assert m[k := v] - {k} == m;
  }

  /** A table whose values are all zero sums to zero. */
  lemma {:induction false} SumMapZero<K>(m: map<K, real>)
    requires forall k :: k in m ==> m[k] == 0.0
    ensures SumMap(m) == 0.0
    decreases |m|
  {
    if m != map[] {
      var k :| k in m;
      SumMapRemove(m, k);
      SumMapZero(m - {k});
    }
  }

  /** `rows.reduce((sum, r) => sum + r.value, 0)`: the rows are visited in
      whatever order the query returned them. */
  method SumValues<K>(m: map<K, real>) returns (sum: real)
    ensures sum == SumMap(m)
  {
    sum := 0.0;
    var rest := m;
    while rest != map[]
      invariant sum + SumMap(rest) == SumMap(m)
      decreases |rest|
    {
      var k :| k in rest;
      SumMapRemove(rest, k);
      sum := sum + rest[k];
      rest := rest - {k};
    }
  }

  /** The elements of s are pairwise distinct. */
  predicate Distinct<T(==)>(s: seq<T>) {
    forall i, j :: 0 <= i < j < |s| ==> s[i] != s[j]
  }

  /** A sequence without repetitions has as many elements as its set. */
  lemma {:induction false} DistinctCardinality<T>(s: seq<T>)
    requires Distinct(s)
    ensures |set x | x in s| == |s|
  {
    if s != [] {
      var init := s[..|s| - 1];
      var last := s[|s| - 1];
      assert Distinct(init);
      DistinctCardinality(init);
      assert (set x | x in s) == (set x | x in init) + {last};
      assert last !in (set x | x in init) by {
        forall i | 0 <= i < |init| ensures init[i] != last {
          assert init[i] == s[i];
        }
      }
    }
  }

  /** A sequence with a repetition has fewer elements in its set than its length. */
  lemma {:induction false} RepeatedCardinality<T>(s: seq<T>)
    requires !Distinct(s)
    ensures |set x | x in s| < |s|
  {
    var init := s[..|s| - 1];
    var last := s[|s| - 1];
    assert (set x | x in s) == (set x | x in init) + {last};
    SetOfSeqBound(init);
    if Distinct(init) {
      var i, j :| 0 <= i < j < |s| && s[i] == s[j];
      assert forall a :: 0 <= a < |init| ==> init[a] == s[a];
      assert j == |s| - 1;
      assert last in (set x | x in init) by {
        assert init[i] == last;
      }
    } else {
      RepeatedCardinality(init);
    }
  }

  /** A sequence has at most as many distinct elements as its length. */
  lemma {:induction false} SetOfSeqBound<T>(s: seq<T>)
    ensures |set x | x in s| <= |s|
  {
    if s != [] {
      var init := s[..|s| - 1];
      SetOfSeqBound(init);
      assert (set x | x in s) == (set x | x in init) + {s[|s| - 1]};
    }
  }
}
