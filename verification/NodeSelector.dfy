/** Choosing a node of a group: filters first, then the group's strategy. Loads are real numbers here;
    the random draw is a parameter. */
module NodeSelector {
  import opened Sums
  import opened Turns

  /** An online node of the group with everything that is read about it. A maximum of 0 is a missing one. */
  datatype Node = Node(
    id: string,
    cpu: real,
    memory: real,
    connections: real,
    avgUp: real,
    avgDown: real,
    socks5Count: nat,
    relayCount: nat,
    maxSocks5Slots: int,
    maxRelaySlots: int,
    maxBandwidthUp: int,
    maxBandwidthDown: int,
    unhealthyCount: int)

  datatype Stats = Stats(
    node: Node,
    maxSocks5Slots: int,
    maxRelaySlots: int,
    socks5Usage: real,
    relayUsage: real,
    upUsage: real,
    downUsage: real,
    isHealthy: bool)

  function OrDefault(x: int, default: int): int {
    if x == 0 then default else x
  }

  function Usage(used: real, max: int): real {
    if max > 0 then used / max as real else 0.0
  }

  function StatsOf(n: Node): Stats {
    var socks5, relay := OrDefault(n.maxSocks5Slots, 1000), OrDefault(n.maxRelaySlots, 1000);
    Stats(n, socks5, relay,
          Usage(n.socks5Count as real, socks5), Usage(n.relayCount as real, relay),
          Usage(n.avgUp, OrDefault(n.maxBandwidthUp, 10000)), Usage(n.avgDown, OrDefault(n.maxBandwidthDown, 10000)),
          n.unhealthyCount < 3)
  }

  datatype Settings = Settings(
    maxCpu: Option<real>,
    maxMem: Option<real>,
    maxSlot: Option<real>,
    maxBandwidth: Option<real>,
    cpuWeight: Option<real>,
    memWeight: Option<real>,
    connWeight: Option<real>,
    slotType: string,
    weights: Weights)

  datatype Weights = Weights(
    cpu: Option<real>,
    memory: Option<real>,
    connections: Option<real>,
    socks5: Option<real>,
    relay: Option<real>,
    bandwidth: Option<real>)

  datatype Options = Options(excluded: seq<string>, requireSocks5Slot: bool, requireRelaySlot: bool)

  datatype Strategy = RoundRobin | LeastLoad | LeastSlots | LeastBandwidth | Weighted | Drawn

  datatype Group = Group(id: string, nodes: seq<Node>, strategy: Strategy, settings: Settings)

  function Or(o: Option<real>, default: real): real {
    if o.Some? then o.value else default
  }

  // ---------- Filters ----------

  function Filter<T>(s: seq<T>, keep: T -> bool): seq<T> {
    if s == [] then []
    else Filter(s[..|s| - 1], keep) + (if keep(s[|s| - 1]) then [s[|s| - 1]] else [])
  }

  predicate WithinThresholds(n: Stats, settings: Settings) {
    if n.node.cpu > Or(settings.maxCpu, 90.0) then false
    else if n.node.memory > Or(settings.maxMem, 90.0) then false
    else if n.socks5Usage * 100.0 > Or(settings.maxSlot, 95.0) && n.relayUsage * 100.0 > Or(settings.maxSlot, 95.0) then false
    else !(n.upUsage * 100.0 > Or(settings.maxBandwidth, 90.0) || n.downUsage * 100.0 > Or(settings.maxBandwidth, 90.0))
  }

  function Keep<T>(s: seq<T>, active: bool, keep: T -> bool): seq<T> {
    if active then Filter(s, keep) else s
  }

  /** One filter after the other. */
  function Candidates(stats: seq<Stats>, options: Options, settings: Settings): seq<Stats> {
    var healthy := Filter(stats, (n: Stats) => n.isHealthy);
    var allowed := Keep(healthy, options.excluded != [], (n: Stats) => n.node.id !in options.excluded);
    var socks5 := Keep(allowed, options.requireSocks5Slot, (n: Stats) => n.node.socks5Count < n.maxSocks5Slots);
    var relay := Keep(socks5, options.requireRelaySlot, (n: Stats) => n.node.relayCount < n.maxRelaySlots);
    Filter(relay, (n: Stats) => WithinThresholds(n, settings))
  }

  /** The share of its slots, 1000 unless configured, and of its bandwidth, 10000 unless configured, that a node uses. */
  function Socks5Share(n: Node): real {
    if n.maxSocks5Slots == 0 then n.socks5Count as real / 1000.0 else if n.maxSocks5Slots < 0 then 0.0 else n.socks5Count as real / n.maxSocks5Slots as real
  }

  function RelayShare(n: Node): real {
    if n.maxRelaySlots == 0 then n.relayCount as real / 1000.0 else if n.maxRelaySlots < 0 then 0.0 else n.relayCount as real / n.maxRelaySlots as real
  }

  function UpShare(n: Node): real {
    if n.maxBandwidthUp == 0 then n.avgUp / 10000.0 else if n.maxBandwidthUp < 0 then 0.0 else n.avgUp / n.maxBandwidthUp as real
  }

  function DownShare(n: Node): real {
    if n.maxBandwidthDown == 0 then n.avgDown / 10000.0 else if n.maxBandwidthDown < 0 then 0.0 else n.avgDown / n.maxBandwidthDown as real
  }

  lemma SharesAreUsages(n: Node)
    ensures StatsOf(n).socks5Usage == Socks5Share(n) && StatsOf(n).relayUsage == RelayShare(n)
    ensures StatsOf(n).upUsage == UpShare(n) && StatsOf(n).downUsage == DownShare(n)
  {
  }

  /** What a caller of the selection may rely on: healthy, not excluded, with the slots asked for, and under every
      threshold, where slots are too full only if both kinds are. */
  predicate Acceptable(n: Node, options: Options, settings: Settings) {
    && n.unhealthyCount < 3
    && n.id !in options.excluded
    && (options.requireSocks5Slot ==> n.socks5Count < if n.maxSocks5Slots == 0 then 1000 else n.maxSocks5Slots)
    && (options.requireRelaySlot ==> n.relayCount < if n.maxRelaySlots == 0 then 1000 else n.maxRelaySlots)
    && n.cpu <= (if settings.maxCpu.Some? then settings.maxCpu.value else 90.0)
    && n.memory <= (if settings.maxMem.Some? then settings.maxMem.value else 90.0)
    && (var slot := if settings.maxSlot.Some? then settings.maxSlot.value else 95.0;
        Socks5Share(n) * 100.0 <= slot || RelayShare(n) * 100.0 <= slot)
    && (var bandwidth := if settings.maxBandwidth.Some? then settings.maxBandwidth.value else 90.0;
        UpShare(n) * 100.0 <= bandwidth && DownShare(n) * 100.0 <= bandwidth)
  }

  lemma {:induction false} FilterIff<T>(s: seq<T>, keep: T -> bool, x: T)
    ensures x in Filter(s, keep) <==> x in s && keep(x)
    decreases |s|
  {
    if s != [] {
      assert s == s[..|s| - 1] + [s[|s| - 1]];
      FilterIff(s[..|s| - 1], keep, x);
    }
  }

  lemma {:induction false} FilterDistinct<T>(s: seq<T>, keep: T -> bool)
    requires Distinct(s)
    ensures Distinct(Filter(s, keep))
    decreases |s|
  {
    if s != [] {
      var before, last := s[..|s| - 1], s[|s| - 1];
      FilterDistinct(before, keep);
      FilterIff(before, keep, last);
    }
  }

  lemma KeepIff<T>(s: seq<T>, active: bool, keep: T -> bool, x: T)
    ensures x in Keep(s, active, keep) <==> x in s && (active ==> keep(x))
    ensures Distinct(s) ==> Distinct(Keep(s, active, keep))
  {
    FilterIff(s, keep, x);
    if Distinct(s) { FilterDistinct(s, keep); }
  }

  lemma CandidateIff(stats: seq<Stats>, options: Options, settings: Settings, x: Stats)
    requires x == StatsOf(x.node)
    ensures x in Candidates(stats, options, settings) <==> x in stats && Acceptable(x.node, options, settings)
    ensures Distinct(stats) ==> Distinct(Candidates(stats, options, settings))
  {
    var healthy := Filter(stats, (n: Stats) => n.isHealthy);
    var allowed := Keep(healthy, options.excluded != [], (n: Stats) => n.node.id !in options.excluded);
    var socks5 := Keep(allowed, options.requireSocks5Slot, (n: Stats) => n.node.socks5Count < n.maxSocks5Slots);
    var relay := Keep(socks5, options.requireRelaySlot, (n: Stats) => n.node.relayCount < n.maxRelaySlots);
    KeepIff(stats, true, (n: Stats) => n.isHealthy, x);
    KeepIff(healthy, options.excluded != [], (n: Stats) => n.node.id !in options.excluded, x);
    KeepIff(allowed, options.requireSocks5Slot, (n: Stats) => n.node.socks5Count < n.maxSocks5Slots, x);
    KeepIff(socks5, options.requireRelaySlot, (n: Stats) => n.node.relayCount < n.maxRelaySlots, x);
    KeepIff(relay, true, (n: Stats) => WithinThresholds(n, settings), x);
    SharesAreUsages(x.node);
  }

  /** No filter invents a node. */
  lemma CandidateFrom(stats: seq<Stats>, options: Options, settings: Settings, x: Stats)
    requires x in Candidates(stats, options, settings)
    ensures x in stats
  {
    var healthy := Filter(stats, (n: Stats) => n.isHealthy);
    var allowed := Keep(healthy, options.excluded != [], (n: Stats) => n.node.id !in options.excluded);
    var socks5 := Keep(allowed, options.requireSocks5Slot, (n: Stats) => n.node.socks5Count < n.maxSocks5Slots);
    var relay := Keep(socks5, options.requireRelaySlot, (n: Stats) => n.node.relayCount < n.maxRelaySlots);
    KeepIff(stats, true, (n: Stats) => n.isHealthy, x);
    KeepIff(healthy, options.excluded != [], (n: Stats) => n.node.id !in options.excluded, x);
    KeepIff(allowed, options.requireSocks5Slot, (n: Stats) => n.node.socks5Count < n.maxSocks5Slots, x);
    KeepIff(socks5, options.requireRelaySlot, (n: Stats) => n.node.relayCount < n.maxRelaySlots, x);
    KeepIff(relay, true, (n: Stats) => WithinThresholds(n, settings), x);
  }

  // ---------- Strategies ----------

  /** The reduction keeps the best so far and replaces it only by something strictly better: the first
      of the least. */
  function Least(nodes: seq<Stats>, score: Stats -> real): (i: nat)
    requires nodes != []
    ensures i < |nodes|
    ensures forall j :: 0 <= j < |nodes| ==> score(nodes[i]) <= score(nodes[j])
    ensures forall j :: 0 <= j < i ==> score(nodes[i]) < score(nodes[j])
  {
    var last := |nodes| - 1;
    if last == 0 then 0
    else
      var best := Least(nodes[..last], score);
      assert forall j :: 0 <= j < last ==> nodes[..last][j] == nodes[j];
      if score(nodes[last]) < score(nodes[best]) then last else best
  }

  /** A measure under its weight, given or by default. */
  function Part(x: real, weight: Option<real>, default: real): real {
    x * Or(weight, default)
  }

  lemma PartIsProduct(x: real, weight: Option<real>, default: real)
    ensures Part(x, weight, default) == if weight.Some? then x * weight.value else x * default
  {
  }

  function LoadScore(n: Stats, s: Settings): real {
    Part(n.node.cpu, s.cpuWeight, 0.3) + Part(n.node.memory, s.memWeight, 0.3) + Part(n.node.connections / 1000.0, s.connWeight, 0.4)
  }

  function SlotScore(n: Stats, s: Settings, options: Options): real {
    var given := if s.slotType == "" then "auto" else s.slotType;
    var slotType := if given != "auto" then given
      else if options.requireSocks5Slot then "socks5" else if options.requireRelaySlot then "relay" else "socks5";
    if slotType == "socks5" then n.socks5Usage else n.relayUsage
  }

  function BandwidthScore(n: Stats): real {
    (n.upUsage + n.downUsage) / 2.0
  }

  function WeightedScore(n: Stats, w: Weights): real {
    Part(n.node.cpu / 100.0, w.cpu, 0.15) + Part(n.node.memory / 100.0, w.memory, 0.15)
    + Part(n.node.connections / 10000.0, w.connections, 0.1)
    + Part(n.socks5Usage, w.socks5, 0.2) + Part(n.relayUsage, w.relay, 0.2) + Part(BandwidthScore(n), w.bandwidth, 0.2)
  }

  /** What a strategy minimises, for a node and the weights of its group. */
  function Cost(n: Node, g: Group, options: Options): real {
    var s, w := g.settings, g.settings.weights;
    match g.strategy
    case LeastLoad =>
      (if s.cpuWeight.Some? then n.cpu * s.cpuWeight.value else n.cpu * 0.3)
      + (if s.memWeight.Some? then n.memory * s.memWeight.value else n.memory * 0.3)
      + (if s.connWeight.Some? then (n.connections / 1000.0) * s.connWeight.value else (n.connections / 1000.0) * 0.4)
    case LeastSlots =>
      if s.slotType == "socks5" then Socks5Share(n)
      else if s.slotType != "" && s.slotType != "auto" then RelayShare(n)
      else if options.requireRelaySlot && !options.requireSocks5Slot then RelayShare(n) else Socks5Share(n)
    case LeastBandwidth => (UpShare(n) + DownShare(n)) / 2.0
    case Weighted =>
      Part(n.cpu / 100.0, w.cpu, 0.15)
      + Part(n.memory / 100.0, w.memory, 0.15)
      + Part(n.connections / 10000.0, w.connections, 0.1)
      + Part(Socks5Share(n), w.socks5, 0.2)
      + Part(RelayShare(n), w.relay, 0.2)
      + Part((UpShare(n) + DownShare(n)) / 2.0, w.bandwidth, 0.2)
    case _ => 0.0
  }

  lemma LoadIsCost(n: Node, g: Group, options: Options)
    requires g.strategy == LeastLoad
    ensures LoadScore(StatsOf(n), g.settings) == Cost(n, g, options)
  {
    PartIsProduct(n.cpu, g.settings.cpuWeight, 0.3);
    PartIsProduct(n.memory, g.settings.memWeight, 0.3);
    PartIsProduct(n.connections / 1000.0, g.settings.connWeight, 0.4);
  }

  lemma WeightedIsCost(n: Node, g: Group, options: Options)
    requires g.strategy == Weighted
    ensures WeightedScore(StatsOf(n), g.settings.weights) == Cost(n, g, options)
  {
    SharesAreUsages(n);
    assert BandwidthScore(StatsOf(n)) == (UpShare(n) + DownShare(n)) / 2.0;
  }

  lemma ScoresAreCosts(n: Node, g: Group, options: Options)
    ensures g.strategy == LeastLoad ==> LoadScore(StatsOf(n), g.settings) == Cost(n, g, options)
    ensures g.strategy == LeastSlots ==> SlotScore(StatsOf(n), g.settings, options) == Cost(n, g, options)
    ensures g.strategy == LeastBandwidth ==> BandwidthScore(StatsOf(n)) == Cost(n, g, options)
    ensures g.strategy == Weighted ==> WeightedScore(StatsOf(n), g.settings.weights) == Cost(n, g, options)
  {
    match g.strategy
    case LeastLoad => LoadIsCost(n, g, options);
    case Weighted => WeightedIsCost(n, g, options);
    case _ => SharesAreUsages(n);
  }

  /** The place the strategy picks; `turn` is the counter after its increment, `draw` the random number. */
  function Choice(g: Group, nodes: seq<Stats>, options: Options, turn: nat, draw: real): (i: nat)
    requires nodes != [] && 0.0 <= draw < 1.0
    ensures i < |nodes|
  {
    match g.strategy
    case RoundRobin => turn % |nodes|
    case LeastLoad => Least(nodes, (n: Stats) => LoadScore(n, g.settings))
    case LeastSlots => Least(nodes, (n: Stats) => SlotScore(n, g.settings, options))
    case LeastBandwidth => Least(nodes, (n: Stats) => BandwidthScore(n))
    case Weighted => Least(nodes, (n: Stats) => WeightedScore(n, g.settings.weights))
    case Drawn => DrawnPlace(draw, |nodes|)
  }

  function DrawnPlace(draw: real, n: nat): (i: nat)
    requires 0.0 <= draw < 1.0 && 0 < n
    ensures i < n
  {
    assert 0.0 <= draw * n as real < n as real;
    (draw * n as real).Floor
  }

  /** Every place is drawn by an equal share of the random numbers. */
  lemma DrawnPlaceIff(draw: real, n: nat, i: nat)
    requires 0.0 <= draw < 1.0 && i < n
    ensures DrawnPlace(draw, n) == i <==> i as real / n as real <= draw < (i + 1) as real / n as real
  {
    QuotientAtMost(i as real, draw, n as real);
    QuotientAtMost((i + 1) as real, draw, n as real);
  }

  lemma QuotientAtMost(a: real, b: real, n: real)
    requires 0.0 < n
    ensures a / n <= b <==> a <= b * n
  {
    var q := a / n;
    assert a == q * n;
    if q <= b { assert 0.0 <= (b - q) * n; } else { assert 0.0 < (q - b) * n; }
  }

  function AllStats(nodes: seq<Node>): (r: seq<Stats>)
    ensures |r| == |nodes| && forall i :: 0 <= i < |r| ==> r[i] == StatsOf(nodes[i])
  {
    seq(|nodes|, i requires 0 <= i < |nodes| => StatsOf(nodes[i]))
  }

  /** There is a candidate exactly when some node of the group is acceptable. */
  lemma SomeCandidateIff(g: Group, options: Options)
    ensures Candidates(AllStats(g.nodes), options, g.settings) != []
       <==> exists n :: n in g.nodes && Acceptable(n, options, g.settings)
  {
    var stats := AllStats(g.nodes);
    var candidates := Candidates(stats, options, g.settings);
    if n :| n in g.nodes && Acceptable(n, options, g.settings) {
      var i :| 0 <= i < |g.nodes| && g.nodes[i] == n;
      assert stats[i] == StatsOf(n);
      CandidateIff(stats, options, g.settings, stats[i]);
    }
    if candidates != [] { CandidateIsNode(g, options, candidates[0]); }
  }

  lemma CandidateIsNode(g: Group, options: Options, c: Stats)
    requires c in Candidates(AllStats(g.nodes), options, g.settings)
    ensures c.node in g.nodes && Acceptable(c.node, options, g.settings) && c == StatsOf(c.node)
  {
    var stats := AllStats(g.nodes);
    CandidateFrom(stats, options, g.settings, c);
    var i :| 0 <= i < |stats| && stats[i] == c;
    assert c == StatsOf(g.nodes[i]);
    CandidateIff(stats, options, g.settings, c);
  }

  /** The choice of a minimising strategy costs no more than any other acceptable node. */
  lemma ChoiceIsCheapest(g: Group, options: Options, turn: nat, draw: real, n: Node)
    requires 0.0 <= draw < 1.0 && n in g.nodes && Acceptable(n, options, g.settings)
    ensures var cs := Candidates(AllStats(g.nodes), options, g.settings);
            cs != [] && Cost(cs[Choice(g, cs, options, turn, draw)].node, g, options) <= Cost(n, g, options)
  {
    SomeCandidateIff(g, options);
    var stats := AllStats(g.nodes);
    var cs := Candidates(stats, options, g.settings);
    var k :| 0 <= k < |g.nodes| && g.nodes[k] == n;
    assert stats[k] == StatsOf(n);
    CandidateIff(stats, options, g.settings, StatsOf(n));
    var c := Choice(g, cs, options, turn, draw);
    CandidateIsNode(g, options, cs[c]);
    ScoresAreCosts(n, g, options);
    ScoresAreCosts(cs[c].node, g, options);
  }

  // ---------- Fairness ----------

  /** The answers of successive round-robin selections over fixed candidates. */
  function Rounds<T>(xs: seq<T>, counter: nat, m: nat): (r: seq<T>)
    requires xs != []
    ensures |r| == m
    decreases m
  {
    if m == 0 then [] else [xs[(counter + 1) % |xs|]] + Rounds(xs, counter + 1, m - 1)
  }

  lemma {:induction false} RoundsArePicks<T>(xs: seq<T>, counter: nat, m: nat)
    requires xs != []
    ensures Rounds(xs, counter, m) == Picks(xs, Places(counter + 1, m, |xs|))
    decreases m
  {
    if m > 0 {
      RoundsArePicks(xs, counter + 1, m - 1);
    }
  }

  /** The candidates of a group as nodes. */
  function CandidateNodes(g: Group, options: Options): (r: seq<Node>)
    ensures |r| == |Candidates(AllStats(g.nodes), options, g.settings)|
    ensures forall i :: 0 <= i < |r| ==> r[i] == Candidates(AllStats(g.nodes), options, g.settings)[i].node
  {
    var cs := Candidates(AllStats(g.nodes), options, g.settings);
    seq(|cs|, i requires 0 <= i < |cs| => cs[i].node)
  }

  lemma CandidateNodesIff(g: Group, options: Options, n: Node)
    requires Distinct(g.nodes) && n in g.nodes && Acceptable(n, options, g.settings)
    ensures n in CandidateNodes(g, options) && Distinct(CandidateNodes(g, options))
  {
    var stats, nodes := AllStats(g.nodes), CandidateNodes(g, options);
    var cs := Candidates(stats, options, g.settings);
    var k :| 0 <= k < |g.nodes| && g.nodes[k] == n;
    assert stats[k] == StatsOf(n) && Distinct(stats);
    CandidateIff(stats, options, g.settings, StatsOf(n));
    var c :| 0 <= c < |cs| && cs[c] == StatsOf(n);
    assert nodes[c] == n;
    forall i, j | 0 <= i < j < |cs| ensures nodes[i] != nodes[j] {
      CandidateIsNode(g, options, cs[i]);
      CandidateIsNode(g, options, cs[j]);
    }
  }

  /** From any counter, and while neither nodes nor options change nor the counter expires: `m` consecutive
      selections return each acceptable node the floor or the ceiling of `m / n` times, where `n` is the
      number of acceptable nodes. */
  lemma RoundRobinIsFair(g: Group, options: Options, counter: nat, m: nat, n: Node)
    requires Distinct(g.nodes) && n in g.nodes && Acceptable(n, options, g.settings)
    ensures var nodes := CandidateNodes(g, options);
            && nodes != []
            && m / |nodes| <= Count(Rounds(nodes, counter, m), n) <= (m + |nodes| - 1) / |nodes|
  {
    CandidateNodesIff(g, options, n);
    var nodes := CandidateNodes(g, options);
    var r :| 0 <= r < |nodes| && nodes[r] == n;
    RoundsArePicks(nodes, counter, m);
    CountPicks(nodes, Places(counter + 1, m, |nodes|), r);
    FairShare(counter + 1, m, |nodes|, r);
  }

  /** Each pick is the one whose turn it was. */
  predicate InTurn<T(==)>(xs: seq<T>, counter: nat, picks: seq<T>)
    requires xs != []
  {
    forall k :: 0 <= k < |picks| ==> picks[k] == xs[(counter + 1 + k) % |xs|]
  }

  lemma {:induction false} InTurnIsRounds<T>(xs: seq<T>, counter: nat, picks: seq<T>)
    requires xs != [] && InTurn(xs, counter, picks)
    ensures picks == Rounds(xs, counter, |picks|)
    decreases |picks|
  {
    if picks != [] {
      var rest := picks[1..];
      forall k | 0 <= k < |rest| ensures rest[k] == xs[(counter + 1 + 1 + k) % |xs|] { assert rest[k] == picks[k + 1]; }
      InTurnIsRounds(xs, counter + 1, rest);
      assert picks == [picks[0]] + rest;
    }
  }

  ghost predicate FairlyShared(g: Group, options: Options, picks: seq<Node>) {
    var nodes := CandidateNodes(g, options);
    nodes != [] && forall n :: n in g.nodes && Acceptable(n, options, g.settings) ==>
      |picks| / |nodes| <= Count(picks, n) <= (|picks| + |nodes| - 1) / |nodes|
  }

  lemma RoundsAreShared(g: Group, options: Options, counter: nat, picks: seq<Node>)
    requires Distinct(g.nodes) && CandidateNodes(g, options) != [] && InTurn(CandidateNodes(g, options), counter, picks)
    ensures FairlyShared(g, options, picks)
  {
    var nodes := CandidateNodes(g, options);
    InTurnIsRounds(nodes, counter, picks);
    forall n | n in g.nodes && Acceptable(n, options, g.settings)
      ensures |picks| / |nodes| <= Count(picks, n) <= (|picks| + |nodes| - 1) / |nodes|
    {
      RoundRobinIsFair(g, options, counter, |picks|, n);
    }
  }

  function CounterOf(counters: map<string, nat>, id: string): nat {
    if id in counters then counters[id] else 0
  }

  // ---------- The service ----------

  class NodeSelectorService {
    /** The round-robin counter of each group; a missing or expired counter is 0. */
    var counters: map<string, nat>

    method GetNodesLoadStats(nodes: seq<Node>) returns (results: seq<Stats>)
      ensures results == AllStats(nodes)
    {
      results := [];
      for i := 0 to |nodes|
        invariant |results| == i && forall j :: 0 <= j < i ==> results[j] == StatsOf(nodes[j])
      {
        results := results + [StatsOf(nodes[i])];
      }
    }

    method NextTurn(groupId: string) returns (turn: nat)
      modifies this
      ensures turn == 1 + (if groupId in old(counters) then old(counters)[groupId] else 0)
      ensures counters == old(counters)[groupId := turn]
    {
      turn := (if groupId in counters then counters[groupId] else 0) + 1;
      counters := counters[groupId := turn];
    }

    /** The answer is a node of the group that passes every filter, and there is none only if no node
        passes. Only round robin with at least one candidate moves the counter. */
    method SelectNode(group: Option<Group>, options: Options, draw: real) returns (r: Option<Node>)
      requires 0.0 <= draw < 1.0
      modifies this
      ensures r == None <==> group == None || !exists n :: n in group.value.nodes && Acceptable(n, options, group.value.settings)
      ensures r.Some? ==> r.value in group.value.nodes && Acceptable(r.value, options, group.value.settings)
      ensures r.Some? ==>
        var g, cs := group.value, Candidates(AllStats(group.value.nodes), options, group.value.settings);
        var turn := 1 + (if g.id in old(counters) then old(counters)[g.id] else 0);
        && cs != [] && r.value == cs[Choice(g, cs, options, turn, draw)].node
        && counters == if g.strategy == RoundRobin then old(counters)[g.id := turn] else old(counters)
      ensures r.Some? ==> forall n :: n in group.value.nodes && Acceptable(n, options, group.value.settings) ==>
                Cost(r.value, group.value, options) <= Cost(n, group.value, options)
      ensures r == None ==> counters == old(counters)
    {
      if group == None { return None; }
      var g := group.value;
      SomeCandidateIff(g, options);
      if |g.nodes| == 0 { return None; }
      var stats := GetNodesLoadStats(g.nodes);
      var candidates := Candidates(stats, options, g.settings);
      if |candidates| == 0 { return None; }
      var turn: nat := 0;
      if g.strategy == RoundRobin { turn := NextTurn(g.id); }
      var i := Choice(g, candidates, options, turn, draw);
      CandidateIsNode(g, options, candidates[i]);
      forall n | n in g.nodes && Acceptable(n, options, g.settings) ensures Cost(candidates[i].node, g, options) <= Cost(n, g, options) {
        ChoiceIsCheapest(g, options, turn, draw, n);
      }
      r := Some(candidates[i].node);
    }

    /** One selection from a round-robin group with an acceptable node. */
    method SelectInTurn(g: Group, options: Options) returns (r: Node)
      requires g.strategy == RoundRobin && CandidateNodes(g, options) != []
      modifies this
      ensures CounterOf(counters, g.id) == CounterOf(old(counters), g.id) + 1
      ensures r == CandidateNodes(g, options)[CounterOf(counters, g.id) % |CandidateNodes(g, options)|]
    {
      SomeCandidateIff(g, options);
      var answer := SelectNode(Some(g), options, 0.0);
      r := answer.value;
    }

    /** `m` selections in a row from a round-robin group return each acceptable node the floor or the ceiling of
        its share, whatever the counter was before. */
    method SelectRepeatedly(g: Group, options: Options, m: nat) returns (picks: seq<Node>)
      requires g.strategy == RoundRobin && Distinct(g.nodes)
      requires exists n :: n in g.nodes && Acceptable(n, options, g.settings)
      modifies this
      ensures |picks| == m && FairlyShared(g, options, picks)
    {
      ghost var nodes, start := CandidateNodes(g, options), CounterOf(counters, g.id);
      SomeCandidateIff(g, options);
      picks := [];
      for i := 0 to m
        invariant |picks| == i && CounterOf(counters, g.id) == start + i && InTurn(nodes, start, picks)
      {
        var r := SelectInTurn(g, options);
        picks := picks + [r];
      }
      RoundsAreShared(g, options, start, picks);
    }
  }
}
