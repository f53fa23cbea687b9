/** Taking turns: what a counter reduced modulo `n` hands out. */
module Turns {

  /** The distance from the counter's place to place `r`, going round. */
  function Distance(p: nat, r: nat, n: nat): (d: nat)
    requires p < n && r < n
    ensures d < n
  {
    if p <= r then r - p else r + n - p
  }

  lemma {:induction false} ProductsGrow(a: int, b: int, n: nat)
    requires a <= b
    ensures a * n <= b * n
    decreases n
  {
    if n > 0 { ProductsGrow(a, b, n - 1); }
  }

  /** Multiples of `n` that lie less than `n` apart. */
  lemma CompareProducts(a: int, b: int, n: nat)
    requires a * n < b * n + n
    ensures a <= b
  {
    if b < a {
      ProductsGrow(b + 1, a, n);
      assert false;
    }
  }

  lemma DivideBy(k: int, q: int, r: nat, n: nat)
    requires r < n && k == q * n + r
    ensures k / n == q && k % n == r
  {
    CompareProducts(k / n, q, n);
    CompareProducts(q, k / n, n);
  }

  /** The place after the last one is the first one. */
  lemma NextPlace(k: nat, n: nat)
    requires 0 < n
    ensures (k + 1) % n == if k % n + 1 == n then 0 else k % n + 1
  {
    var q, r := k / n, k % n;
    if r + 1 == n {
      assert (q + 1) * n == q * n + n;
      DivideBy(k + 1, q + 1, 0, n);
    } else {
      DivideBy(k + 1, q, r + 1, n);
    }
  }

  /** Two counters stand at the same place exactly when they differ by a multiple of `n`. */
  lemma SamePlaceIff(i: nat, j: nat, n: nat)
    requires 0 < n
    ensures i % n == j % n <==> (i - j) % n == 0
  {
    if i % n == j % n {
      DivideBy(i - j, i / n - j / n, 0, n);
    }
    if (i - j) % n == 0 {
      DivideBy(i, (i - j) / n + j / n, j % n, n);
    }
  }

  /** The places of `m` consecutive counter values. */
  function Places(start: nat, m: nat, n: nat): (s: seq<nat>)
    requires 0 < n
    ensures |s| == m && forall k :: 0 <= k < m ==> s[k] == (start + k) % n && s[k] < n
    decreases m
  {
    if m == 0 then [] else [start % n] + Places(start + 1, m - 1, n)
  }

  function Count<T(==)>(s: seq<T>, x: T): nat {
    if s == [] then 0 else (if s[0] == x then 1 else 0) + Count(s[1..], x)
  }

  /** `count` visits at distance `d`, `d + n`, `d + 2n`, ... are what fits before `m`. */
  predicate Fits(count: nat, d: nat, m: nat, n: nat) {
    m <= d + count * n && (0 < count ==> d + (count - 1) * n < m)
  }

  lemma {:induction false} VisitsFit(start: nat, m: nat, n: nat, r: nat)
    requires r < n
    ensures Fits(Count(Places(start, m, n), r), Distance(start % n, r, n), m, n)
    decreases m
  {
    if m > 0 {
      NextPlace(start, n);
      VisitsFit(start + 1, m - 1, n, r);
      var count := Count(Places(start + 1, m - 1, n), r);
      assert Places(start, m, n)[1..] == Places(start + 1, m - 1, n);
    }
  }

  lemma AtLeastFloor(count: nat, d: nat, m: nat, n: nat)
    requires d < n && m <= d + count * n
    ensures m / n <= count
  {
    assert m / n * n <= m;
    CompareProducts(m / n, count, n);
  }

  lemma AtMostCeiling(count: nat, d: nat, m: nat, n: nat)
    requires 0 < count && 0 < n && d + (count - 1) * n < m
    ensures count <= (m + n - 1) / n
  {
    var up := (m + n - 1) / n;
    assert m + n - 1 < up * n + n;
    CompareProducts(count - 1, up - 1, n);
  }

  lemma FitsIsShare(count: nat, d: nat, m: nat, n: nat)
    requires d < n && Fits(count, d, m, n)
    ensures m / n <= count <= (m + n - 1) / n
  {
    AtLeastFloor(count, d, m, n);
    if 0 < count { AtMostCeiling(count, d, m, n); }
  }

  /** From any starting value, `m` consecutive turns visit each of the `n` places the floor or the
      ceiling of `m / n` times. */
  lemma FairShare(start: nat, m: nat, n: nat, r: nat)
    requires r < n
    ensures m / n <= Count(Places(start, m, n), r) <= (m + n - 1) / n
  {
    VisitsFit(start, m, n, r);
    FitsIsShare(Count(Places(start, m, n), r), Distance(start % n, r, n), m, n);
  }

  predicate Distinct<T(==)>(s: seq<T>) {
    forall i, j :: 0 <= i < j < |s| ==> s[i] != s[j]
  }

  /** What the places hold. */
  function Picks<T>(xs: seq<T>, places: seq<nat>): (s: seq<T>)
    requires forall k :: 0 <= k < |places| ==> places[k] < |xs|
    ensures |s| == |places| && forall k :: 0 <= k < |s| ==> s[k] == xs[places[k]]
  {
    seq(|places|, k requires 0 <= k < |places| => xs[places[k]])
  }

  lemma {:induction false} CountPicks<T>(xs: seq<T>, places: seq<nat>, r: nat)
    requires Distinct(xs) && r < |xs| && forall k :: 0 <= k < |places| ==> places[k] < |xs|
    ensures Count(Picks(xs, places), xs[r]) == Count(places, r)
    decreases |places|
  {
    if places != [] {
      var p := places[0];
      assert Picks(xs, places)[1..] == Picks(xs, places[1..]);
      CountPicks(xs, places[1..], r);
    }
  }
}
