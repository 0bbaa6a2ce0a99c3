/**
 * Sums of integers: over a sequence, and over the values of a map, which
 * is what Python's `sum(d.values())` computes.
 */
module Sums {
  import opened Seqs

  function Sum(s: seq<int>): int {
    if s == [] then 0 else Sum(s[..|s| - 1]) + s[|s| - 1]
  }

  /** The sum of the values of `m`, taken key by key in an arbitrary order. */
  ghost function MapSum<K>(m: map<K, int>): int
    decreases |m|
  {
    if m == map[] then 0
    else
      var k :| k in m;
      assert (m - {k}).Keys == m.Keys - {k};
      m[k] + MapSum(m - {k})
  }

  /** The order in which MapSum takes the keys does not matter: any key may come first. */
  lemma {:induction false} MapSumRemove<K>(m: map<K, int>, k: K)
    requires k in m
    ensures MapSum(m) == m[k] + MapSum(m - {k})
    decreases |m|
  {
    var k' :| k' in m && MapSum(m) == m[k'] + MapSum(m - {k'});
    if k' != k {
      assert (m - {k}).Keys == m.Keys - {k};
      assert (m - {k'}).Keys == m.Keys - {k'};
      MapSumRemove(m - {k'}, k);
      MapSumRemove(m - {k}, k');
      assert m - {k'} - {k} == m - {k} - {k'};
    }
  }

  /**
   * When `keys` lists every key of `m` once and `vals` lists the matching
   * values, the values of `m` sum to the sum of `vals`.
   */
  lemma {:induction false} MapSumOfEnumeration<K>(m: map<K, int>, keys: seq<K>, vals: seq<int>)
    requires |keys| == |vals| && Distinct(keys)
    requires m.Keys == Elems(keys)
    requires forall i :: 0 <= i < |keys| ==> m[keys[i]] == vals[i]
    ensures MapSum(m) == Sum(vals)
  {
    if keys == [] {
      assert m == map[];
    } else {
      var n := |keys|;
      var last := keys[n - 1];
      assert last in Elems(keys);
      MapSumRemove(m, last);
      var rest := m - {last};
      assert Elems(keys[..n - 1]) == Elems(keys) - {last} by {
        assert keys == keys[..n - 1] + [last];
        assert last !in keys[..n - 1];
      }
      MapSumOfEnumeration(rest, keys[..n - 1], vals[..n - 1]);
    }
  }

  /** Adds up the values of a map, one key at a time. */
  method SumValues<K>(m: map<K, int>) returns (s: int)
    ensures s == MapSum(m)
  {
    s := 0;
    var rest := m;
    while rest != map[]
      invariant s + MapSum(rest) == MapSum(m)
      decreases |rest|
    {
      var k :| k in rest;
      MapSumRemove(rest, k);
      assert (rest - {k}).Keys == rest.Keys - {k};
      s := s + rest[k];
      rest := rest - {k};
    }
  }
}
