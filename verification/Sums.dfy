/** Finite sums over maps and sequences, shared by the inventory and the traffic models. */
module Sums {

  datatype Option<+T> = None | Some(value: T)

  ghost function PickKey<K>(m: map<K, int>): K
    requires m != map[]
    ensures PickKey(m) in m
  {
    assert m.Keys != {};
    var k :| k in m;
    k
  }

  /** The sum of all values of a map. */
  ghost function Total<K>(m: map<K, int>): int
    decreases |m|
  {
    if m == map[] then 0
    else
      var k := PickKey(m);
      assert (m - {k}).Keys == m.Keys - {k};
      m[k] + Total(m - {k})
  }

  /** Any key may be taken out first. */
  lemma {:induction false} TotalRemove<K>(m: map<K, int>, k: K)
    requires k in m
    ensures Total(m) == m[k] + Total(m - {k})
    decreases |m|
  {
    var p := PickKey(m);
    if p != k {
      assert (m - {p}).Keys == m.Keys - {p};
      TotalRemove(m - {p}, k);
      TotalRemove2(m, p, k);
      TotalRemove(m - {k}, p);
    }
  }

  lemma TotalRemove2<K>(m: map<K, int>, p: K, k: K)
    requires p in m && k in m && p != k
    ensures m - {p} - {k} == m - {k} - {p}
    ensures |m - {k}| < |m|
  {
    assert (m - {k}).Keys == m.Keys - {k};
  }

  /** Writing one key changes the sum by the difference at that key. */
  lemma {:induction false} TotalUpdate<K>(m: map<K, int>, k: K, v: int)
    ensures Total(m[k := v]) == Total(m) - (if k in m then m[k] else 0) + v
  {
    TotalRemove(m[k := v], k);
    assert m[k := v] - {k} == m - {k};
    if k in m {
      TotalRemove(m, k);
    } else {
      assert m - {k} == m;
    }
  }

  /** The sum of a sequence of numbers. */
  function Sum(s: seq<int>): int {
    if s == [] then 0 else Sum(s[..|s| - 1]) + s[|s| - 1]
  }

  /** Summing a map along a sequence that lists each of its keys once gives the map's total. */
  lemma {:induction false} SumOfListing<K>(m: map<K, int>, keys: seq<K>)
    requires forall i, j :: 0 <= i < j < |keys| ==> keys[i] != keys[j]
    requires forall k :: k in keys <==> k in m
    ensures Sum(seq(|keys|, i requires 0 <= i < |keys| => m[keys[i]])) == Total(m)
    decreases |keys|
  {
    var s := seq(|keys|, i requires 0 <= i < |keys| => m[keys[i]]);
    if keys == [] {
      assert m.Keys == {};
    } else {
      var n := |keys| - 1;
      var rest := keys[..n];
      var m' := m - {keys[n]};
      forall k ensures k in rest <==> k in m' {
        assert keys == rest + [keys[n]];
      }
      SumOfListing(m', rest);
      assert s[..n] == seq(n, i requires 0 <= i < n => m'[rest[i]]);
      TotalRemove(m, keys[n]);
    }
  }

  /** Entries that are zero may be left out of a sum. */
  lemma {:induction false} TotalWithoutZeros<K>(m: map<K, int>, part: map<K, int>)
    requires part.Keys <= m.Keys && forall k :: k in part ==> part[k] == m[k]
    requires forall k :: k in m && k !in part ==> m[k] == 0
    ensures Total(part) == Total(m)
    decreases |m|
  {
    if m == part {
    } else {
      var k :| k in m && k !in part;
      assert (m - {k}).Keys == m.Keys - {k};
      TotalWithoutZeros(m - {k}, part);
      TotalRemove(m, k);
    }
  }
}
