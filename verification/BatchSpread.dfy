/** Batch generation: entries take their egress IPs and ports in turns and are created port by port. */
module BatchSpread {
  import opened Sums
  import opened Turns

  datatype PortMode = Fixed(port: int) | Ranged(min: int, max: int)

  /** How many ports the counter visits before it starts over. */
  function Width(min: int, max: int): (w: nat)
    ensures 0 < w
  {
    if min <= max then max - min + 1 else 1
  }

  /** The port of the i-th entry. */
  function PortAt(mode: PortMode, i: nat): int {
    match mode
    case Fixed(port) => port
    case Ranged(min, max) => min + i % Width(min, max)
  }

  function Advance(min: int, max: int, counter: int): int {
    if counter + 1 > max then min else counter + 1
  }

  lemma AdvanceIsNextPlace(min: int, max: int, i: nat)
    ensures Advance(min, max, PortAt(Ranged(min, max), i)) == PortAt(Ranged(min, max), i + 1)
  {
    NextPlace(i, Width(min, max));
  }

  // ---------- Properties of the spread ----------

  /** Ports stay in the range for every entry exactly when the range is not empty; an empty range yields its
      lower bound over and over. */
  lemma PortsInRangeIff(min: int, max: int)
    ensures (forall i: nat :: min <= PortAt(Ranged(min, max), i) <= max) <==> min <= max
    ensures max < min ==> forall i: nat :: PortAt(Ranged(min, max), i) == min
  {
    assert PortAt(Ranged(min, max), 0) == min;
  }

  /** Two entries share a port exactly when their numbers differ by a multiple of the size of the range. */
  lemma SharePortIff(min: int, max: int, i: nat, j: nat)
    requires min <= max
    ensures PortAt(Ranged(min, max), i) == PortAt(Ranged(min, max), j) <==> (i - j) % (max - min + 1) == 0
  {
    SamePlaceIff(i, j, Width(min, max));
  }

  function Ports(mode: PortMode, m: nat): (r: seq<int>)
    ensures |r| == m && forall i :: 0 <= i < m ==> r[i] == PortAt(mode, i)
  {
    seq(m, (i: int) requires 0 <= i => PortAt(mode, i))
  }

  function Range(min: int, max: int): (r: seq<int>)
    requires min <= max
    ensures |r| == Width(min, max) && forall k :: 0 <= k < |r| ==> r[k] == min + k
  {
    seq(max - min + 1, k => min + k)
  }

  /** Every port of the range gets the floor or the ceiling of its share of `m` entries. */
  lemma PortsAreShared(min: int, max: int, m: nat, port: int)
    requires min <= port <= max
    ensures m / (max - min + 1) <= Count(Ports(Ranged(min, max), m), port) <= (m + (max - min)) / (max - min + 1)
  {
    var range, n := Range(min, max), Width(min, max);
    var places := Places(0, m, n);
    var ports := Ports(Ranged(min, max), m);
    assert ports == Picks(range, places) by {
      forall i | 0 <= i < m ensures ports[i] == Picks(range, places)[i] { assert range[places[i]] == min + i % n; }
    }
    assert range[port - min] == port;
    CountPicks(range, places, port - min);
    FairShare(0, m, n, port - min);
  }

  /** The egress IPs of `m` entries. */
  function Ips(ips: seq<string>, m: nat): (r: seq<string>)
    requires ips != []
    ensures |r| == m && forall i :: 0 <= i < m ==> r[i] == ips[i % |ips|]
  {
    Picks(ips, Places(0, m, |ips|))
  }

  predicate ShareOnlyByTurn(ips: seq<string>, i: nat, j: nat)
    requires ips != []
  {
    ips[i % |ips|] == ips[j % |ips|] <==> (i - j) % |ips| == 0
  }

  /** Two entries share an egress IP exactly when their numbers differ by a multiple of the number of IPs,
      if and only if no IP is listed twice. */
  lemma ShareIpIff(ips: seq<string>)
    requires ips != []
    ensures Distinct(ips) <==> forall i: nat, j: nat :: ShareOnlyByTurn(ips, i, j)
  {
    var n := |ips|;
    if Distinct(ips) {
      forall i: nat, j: nat ensures ShareOnlyByTurn(ips, i, j) {
        SamePlaceIff(i, j, n);
      }
    } else {
      var i, j :| 0 <= i < j < n && ips[i] == ips[j];
      DivideBy(i, 0, i, n);
      DivideBy(j, 0, j, n);
      SamePlaceIff(i, j, n);
      assert !ShareOnlyByTurn(ips, i, j);
    }
  }

  lemma IpsAreShared(ips: seq<string>, m: nat, r: nat)
    requires Distinct(ips) && r < |ips|
    ensures m / |ips| <= Count(Ips(ips, m), ips[r]) <= (m + |ips| - 1) / |ips|
  {
    CountPicks(ips, Places(0, m, |ips|), r);
    FairShare(0, m, |ips|, r);
  }

  // ---------- Grouping by port ----------

  /** The entries of one port, in their order. */
  function OfPort<T>(items: seq<(int, T)>, port: int): seq<(int, T)> {
    if items == [] then []
    else
      var last := items[|items| - 1];
      OfPort(items[..|items| - 1], port) + (if last.0 == port then [last] else [])
  }

  lemma {:induction false} OfPortIff<T>(items: seq<(int, T)>, port: int)
    ensures forall x :: x in OfPort(items, port) <==> x in items && x.0 == port
    decreases |items|
  {
    if items != [] {
      assert items == items[..|items| - 1] + [items[|items| - 1]];
      OfPortIff(items[..|items| - 1], port);
    }
  }

  /** All groups one after the other: the order in which resources are created. */
  function Flat<T>(order: seq<int>, items: seq<(int, T)>): seq<(int, T)> {
    if order == [] then [] else Flat(order[..|order| - 1], items) + OfPort(items, order[|order| - 1])
  }

  lemma {:induction false} FlatGrows<T>(order: seq<int>, items: seq<(int, T)>, x: (int, T))
    requires Distinct(order)
    ensures multiset(Flat(order, items + [x])) == multiset(Flat(order, items)) + (if x.0 in order then multiset{x} else multiset{})
    decreases |order|
  {
    assert (items + [x])[..|items|] == items;
    if order != [] {
      var n := |order| - 1;
      assert order == order[..n] + [order[n]];
      FlatGrows(order[..n], items, x);
    }
  }

  /** The ports in the order in which they first occur. */
  function FirstPorts<T>(items: seq<(int, T)>): (r: seq<int>)
    ensures Distinct(r)
  {
    if items == [] then []
    else
      var before, port := FirstPorts(items[..|items| - 1]), items[|items| - 1].0;
      if port in before then before else before + [port]
  }

  lemma {:induction false} FirstPortsIff<T>(items: seq<(int, T)>, port: int)
    ensures port in FirstPorts(items) <==> OfPort(items, port) != []
    decreases |items|
  {
    if items != [] { FirstPortsIff(items[..|items| - 1], port); }
  }

  /** The groups partition the entries: creating them group after group creates every entry exactly once. */
  lemma {:induction false} GroupsPartition<T>(items: seq<(int, T)>)
    ensures multiset(Flat(FirstPorts(items), items)) == multiset(items)
    decreases |items|
  {
    if items != [] {
      var before, x := items[..|items| - 1], items[|items| - 1];
      assert items == before + [x];
      GroupsPartition(before);
      var order := FirstPorts(before);
      if x.0 in order {
        FlatGrows(order, before, x);
      } else {
        FirstPortsIff(before, x.0);
        FlatGrows(order + [x.0], before, x);
      }
    }
  }
}
