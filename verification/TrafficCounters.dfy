/** The counter route of reported traffic: INCRBY pipelines fill Redis counters while aggregation
    jobs drain them with GETDEL into one-minute buckets. Every Redis command and every database
    statement is one step; steps of all reports and jobs interleave freely. */
module TrafficCounters {
  import opened Sums

  datatype Kind = Node | Inbound | Client
  datatype Direction = Up | Down
  datatype Key = Key(kind: Kind, dir: Direction, id: string)
  datatype Bucket = Bucket(key: Key, time: int)

  datatype Item = Item(email: string, upload: int, download: int, inboundId: Option<string>)
  datatype Incr = Incr(key: Key, amount: nat)

  // ---------- What one report sends ----------

  function IncrIf(kind: Kind, dir: Direction, id: string, amount: int): seq<Incr> {
    if amount > 0 then [Incr(Key(kind, dir, id), amount)] else []
  }

  function ItemCommands(t: Item): seq<Incr> {
    IncrIf(Client, Up, t.email, t.upload) + IncrIf(Client, Down, t.email, t.download)
    + if t.inboundId.None? || t.inboundId.value == "" then []
      else IncrIf(Inbound, Up, t.inboundId.value, t.upload) + IncrIf(Inbound, Down, t.inboundId.value, t.download)
  }

  function AllItems(items: seq<Item>): seq<Incr> {
    if items == [] then [] else AllItems(items[..|items| - 1]) + ItemCommands(items[|items| - 1])
  }

  function Bytes(t: Item, dir: Direction): int {
    if dir.Up? then t.upload else t.download
  }

  function TotalBytes(items: seq<Item>, dir: Direction): int {
    if items == [] then 0 else TotalBytes(items[..|items| - 1], dir) + Bytes(items[|items| - 1], dir)
  }

  function Commands(node: string, items: seq<Item>): seq<Incr> {
    AllItems(items) + (IncrIf(Node, Up, node, TotalBytes(items, Up)) + IncrIf(Node, Down, node, TotalBytes(items, Down)))
  }

  // ---------- Sums over keys ----------

  /** One counter, or all counters of a kind and direction. */
  datatype Selector = One(key: Key) | All(kind: Kind, dir: Direction)

  predicate Selects(sel: Selector, k: Key) {
    match sel
    case One(key) => k == key
    case All(kind, dir) => k.kind == kind && k.dir == dir
  }

  function Get<K>(m: map<K, int>, k: K): int {
    if k in m then m[k] else 0
  }

  ghost function KeySlice(m: map<Key, int>, sel: Selector): map<Key, int> {
    map k | k in m && Selects(sel, k) :: m[k]
  }

  ghost function SumKeys(m: map<Key, int>, sel: Selector): int {
    Total(KeySlice(m, sel))
  }

  ghost function BucketSlice(m: map<Bucket, int>, sel: Selector): map<Bucket, int> {
    map b | b in m && Selects(sel, b.key) :: m[b]
  }

  ghost function SumBuckets(m: map<Bucket, int>, sel: Selector): int {
    Total(BucketSlice(m, sel))
  }

  function Share(sel: Selector, k: Key, amount: int): int {
    if Selects(sel, k) then amount else 0
  }

  function PairShare(sel: Selector, kind: Kind, id: string, up: int, down: int): int {
    Share(sel, Key(kind, Up, id), up) + Share(sel, Key(kind, Down, id), down)
  }

  lemma KeysAdd(m: map<Key, int>, k: Key, amount: int, sel: Selector)
    ensures SumKeys(m[k := Get(m, k) + amount], sel) == SumKeys(m, sel) + Share(sel, k, amount)
  {
    var m' := m[k := Get(m, k) + amount];
    if Selects(sel, k) {
      assert KeySlice(m', sel) == KeySlice(m, sel)[k := Get(m, k) + amount];
      TotalUpdate(KeySlice(m, sel), k, Get(m, k) + amount);
    } else {
      assert KeySlice(m', sel) == KeySlice(m, sel);
    }
  }

  lemma KeysDelete(m: map<Key, int>, k: Key, sel: Selector)
    ensures SumKeys(m - {k}, sel) == SumKeys(m, sel) - Share(sel, k, Get(m, k))
  {
    if Selects(sel, k) && k in m {
      assert KeySlice(m - {k}, sel) == KeySlice(m, sel) - {k};
      TotalRemove(KeySlice(m, sel), k);
    } else {
      assert KeySlice(m - {k}, sel) == KeySlice(m, sel);
    }
  }

  lemma BucketsAdd(m: map<Bucket, int>, b: Bucket, amount: int, sel: Selector)
    ensures SumBuckets(m[b := Get(m, b) + amount], sel) == SumBuckets(m, sel) + Share(sel, b.key, amount)
  {
    var m' := m[b := Get(m, b) + amount];
    if Selects(sel, b.key) {
      assert BucketSlice(m', sel) == BucketSlice(m, sel)[b := Get(m, b) + amount];
      TotalUpdate(BucketSlice(m, sel), b, Get(m, b) + amount);
    } else {
      assert BucketSlice(m', sel) == BucketSlice(m, sel);
    }
  }

  /** Bytes a list of commands adds to the selected counters. */
  function Adds(commands: seq<Incr>, sel: Selector): int {
    if commands == [] then 0
    else Share(sel, commands[0].key, commands[0].amount) + Adds(commands[1..], sel)
  }

  lemma {:induction false} AddsAppend(a: seq<Incr>, b: seq<Incr>, sel: Selector)
    ensures Adds(a + b, sel) == Adds(a, sel) + Adds(b, sel)
    decreases |a|
  {
    if a == [] {
      assert a + b == b;
    } else {
      assert (a + b)[1..] == a[1..] + b;
      AddsAppend(a[1..], b, sel);
    }
  }

  // ---------- Double entry of one report ----------

  function Positive(n: int): nat {
    if n > 0 then n else 0
  }

  function PositiveBytes(items: seq<Item>, dir: Direction): nat {
    if items == [] then 0 else PositiveBytes(items[..|items| - 1], dir) + Positive(Bytes(items[|items| - 1], dir))
  }

  lemma IncrIfAdds(kind: Kind, dir: Direction, id: string, amount: int, sel: Selector)
    ensures Adds(IncrIf(kind, dir, id, amount), sel) == Share(sel, Key(kind, dir, id), Positive(amount))
  {
    if amount > 0 { assert IncrIf(kind, dir, id, amount)[1..] == []; }
  }

  lemma PairAdds(kind: Kind, id: string, up: int, down: int, sel: Selector)
    ensures Adds(IncrIf(kind, Up, id, up) + IncrIf(kind, Down, id, down), sel)
         == PairShare(sel, kind, id, Positive(up), Positive(down))
  {
    AddsAppend(IncrIf(kind, Up, id, up), IncrIf(kind, Down, id, down), sel);
    IncrIfAdds(kind, Up, id, up, sel);
    IncrIfAdds(kind, Down, id, down, sel);
  }

  lemma ItemAdds(t: Item, dir: Direction)
    ensures Adds(ItemCommands(t), All(Client, dir)) == Positive(Bytes(t, dir))
    ensures Adds(ItemCommands(t), All(Node, dir)) == 0
  {
    ItemAddsTo(t, All(Client, dir));
    ItemAddsTo(t, All(Node, dir));
  }

  lemma ItemAddsTo(t: Item, sel: Selector)
    requires sel.All? && !sel.kind.Inbound?
    ensures Adds(ItemCommands(t), sel) == PairShare(sel, Client, t.email, Positive(t.upload), Positive(t.download))
  {
    PairAdds(Client, t.email, t.upload, t.download, sel);
    var client := IncrIf(Client, Up, t.email, t.upload) + IncrIf(Client, Down, t.email, t.download);
    if t.inboundId.None? || t.inboundId.value == "" {
      assert ItemCommands(t) == client;
    } else {
      PairAdds(Inbound, t.inboundId.value, t.upload, t.download, sel);
      AddsAppend(client, IncrIf(Inbound, Up, t.inboundId.value, t.upload) + IncrIf(Inbound, Down, t.inboundId.value, t.download), sel);
    }
  }

  lemma {:induction false} ItemsAdd(items: seq<Item>, dir: Direction)
    ensures Adds(AllItems(items), All(Client, dir)) == PositiveBytes(items, dir)
    ensures Adds(AllItems(items), All(Node, dir)) == 0
    decreases |items|
  {
    if items != [] {
      var n := |items| - 1;
      ItemsAdd(items[..n], dir);
      ItemAdds(items[n], dir);
      AddsAppend(AllItems(items[..n]), ItemCommands(items[n]), All(Client, dir));
      AddsAppend(AllItems(items[..n]), ItemCommands(items[n]), All(Node, dir));
    }
  }

  /** Clients are credited each positive item; the node is credited the sum if that is positive. */
  lemma ReportAdds(node: string, items: seq<Item>, dir: Direction)
    ensures Adds(Commands(node, items), All(Client, dir)) == PositiveBytes(items, dir)
    ensures Adds(Commands(node, items), All(Node, dir)) == Positive(TotalBytes(items, dir))
  {
    ItemsAdd(items, dir);
    ReportAddsTo(node, items, All(Client, dir));
    ReportAddsTo(node, items, All(Node, dir));
  }

  lemma ReportAddsTo(node: string, items: seq<Item>, sel: Selector)
    ensures Adds(Commands(node, items), sel) == Adds(AllItems(items), sel)
              + PairShare(sel, Node, node, Positive(TotalBytes(items, Up)), Positive(TotalBytes(items, Down)))
  {
    PairAdds(Node, node, TotalBytes(items, Up), TotalBytes(items, Down), sel);
    AddsAppend(AllItems(items), IncrIf(Node, Up, node, TotalBytes(items, Up)) + IncrIf(Node, Down, node, TotalBytes(items, Down)), sel);
  }

  // ---------- What each counter receives ----------

  /** The bytes of one item that belong to the counter of a client or an inbound. */
  function ItemShare(t: Item, k: Key): nat {
    var bytes := Positive(if k.dir.Up? then t.upload else t.download);
    match k.kind
    case Client => if t.email == k.id then bytes else 0
    case Inbound => if t.inboundId == Some(k.id) && k.id != "" then bytes else 0
    case Node => 0
  }

  function ItemShares(items: seq<Item>, k: Key): nat {
    if items == [] then 0 else ItemShares(items[..|items| - 1], k) + ItemShare(items[|items| - 1], k)
  }

  /** A client or inbound counter receives the positive bytes of the items that name it, the node's own counter the
      positive part of the total, and every other counter nothing. */
  function Received(node: string, items: seq<Item>, k: Key): nat {
    if !k.kind.Node? then ItemShares(items, k) else if k.id == node then Positive(TotalBytes(items, k.dir)) else 0
  }

  lemma ItemAddsToKey(t: Item, k: Key)
    ensures Adds(ItemCommands(t), One(k)) == ItemShare(t, k)
  {
    PairAdds(Client, t.email, t.upload, t.download, One(k));
    var client := IncrIf(Client, Up, t.email, t.upload) + IncrIf(Client, Down, t.email, t.download);
    if t.inboundId.None? || t.inboundId.value == "" {
      assert ItemCommands(t) == client;
    } else {
      PairAdds(Inbound, t.inboundId.value, t.upload, t.download, One(k));
      AddsAppend(client, IncrIf(Inbound, Up, t.inboundId.value, t.upload) + IncrIf(Inbound, Down, t.inboundId.value, t.download), One(k));
    }
  }

  lemma {:induction false} ItemsAddToKey(items: seq<Item>, k: Key)
    ensures Adds(AllItems(items), One(k)) == ItemShares(items, k)
    decreases |items|
  {
    if items != [] {
      var n := |items| - 1;
      ItemsAddToKey(items[..n], k);
      ItemAddsToKey(items[n], k);
      AddsAppend(AllItems(items[..n]), ItemCommands(items[n]), One(k));
    }
  }

  /** Key by key, a report adds to every counter exactly what its items say. */
  lemma ReportReaches(node: string, items: seq<Item>, k: Key)
    ensures Adds(Commands(node, items), One(k)) == Received(node, items, k)
  {
    ItemsAddToKey(items, k);
    ReportAddsTo(node, items, One(k));
    NodePart(node, k, Positive(TotalBytes(items, Up)), Positive(TotalBytes(items, Down)));
    if k.kind.Node? { NoItemForNodes(items, k); }
  }

  lemma NodePart(node: string, k: Key, up: int, down: int)
    ensures PairShare(One(k), Node, node, up, down) == if k.kind.Node? && k.id == node then (if k.dir.Up? then up else down) else 0
  {
  }

  lemma {:induction false} NoItemForNodes(items: seq<Item>, k: Key)
    requires k.kind.Node?
    ensures ItemShares(items, k) == 0
    decreases |items|
  {
    if items != [] { NoItemForNodes(items[..|items| - 1], k); }
  }

  predicate NoneNegative(items: seq<Item>, dir: Direction) {
    forall t :: t in items ==> 0 <= Bytes(t, dir)
  }

  predicate NonePositive(items: seq<Item>, dir: Direction) {
    forall t :: t in items ==> Bytes(t, dir) <= 0
  }

  lemma {:induction false} SignsOfTotals(items: seq<Item>, dir: Direction)
    ensures TotalBytes(items, dir) <= PositiveBytes(items, dir)
    ensures TotalBytes(items, dir) == PositiveBytes(items, dir) <==> NoneNegative(items, dir)
    ensures PositiveBytes(items, dir) == 0 <==> NonePositive(items, dir)
    decreases |items|
  {
    if items != [] {
      var n := |items| - 1;
      assert items == items[..n] + [items[n]];
      SignsOfTotals(items[..n], dir);
    }
  }

  /** Exactly when a report credits its node what it credits its clients. */
  lemma ReportBalancedIff(node: string, items: seq<Item>, dir: Direction)
    ensures Adds(Commands(node, items), All(Node, dir)) == Adds(Commands(node, items), All(Client, dir))
       <==> NoneNegative(items, dir) || NonePositive(items, dir)
  {
    ReportAdds(node, items, dir);
    SignsOfTotals(items, dir);
  }

  // ---------- Reports and jobs as interleaved steps ----------

  /** Where a job stands with the id at the head of its list. */
  datatype Phase =
    | Ready
    | TookUp(up: int)
    | TookBoth(up: int, down: int)
    | Stored(up: int, down: int)

  /** `ids` is whatever the scan returned: repeated, stale or incomplete. */
  datatype Job = Job(kind: Kind, time: int, ids: seq<string>, phase: Phase)

  /** `reported`, `lost` and `unrecorded` only keep the books: bytes INCRBY has added, bytes a
      failing job held, and bytes stored in buckets whose statistics row was never written. */
  datatype State = State(
    counters: map<Key, int>,
    pipelines: map<nat, seq<Incr>>,
    jobs: map<nat, Job>,
    series: map<Bucket, int>,
    stats: map<Key, int>,
    discarded: map<Key, int>,
    reported: map<Key, int>,
    lost: map<Key, int>,
    unrecorded: map<Key, int>)

  const EMPTY_STATE := State(map[], map[], map[], map[], map[], map[], map[], map[], map[])

  datatype Event =
    | Report(call: nat, node: string, items: seq<Item>)
    | Increment(call: nat)
    | Scan(job: nat, kind: Kind, time: int, ids: seq<string>)
    | TakeUp(job: nat)
    | TakeDown(job: nat)
    | Store(job: nat, entity: Option<string>)
    | Record(job: nat)
    | Fail(job: nat)

  predicate Enabled(s: State, e: Event) {
    match e
    case Report(call, _, _) => call !in s.pipelines
    case Increment(call) => call in s.pipelines && s.pipelines[call] != []
    case Scan(job, _, _, _) => job !in s.jobs
    case TakeUp(job) => job in s.jobs && s.jobs[job].phase.Ready? && s.jobs[job].ids != []
    case TakeDown(job) => job in s.jobs && s.jobs[job].phase.TookUp? && s.jobs[job].ids != []
    case Store(job, entity) =>
      && job in s.jobs && s.jobs[job].phase.TookBoth? && s.jobs[job].ids != []
      && (!s.jobs[job].kind.Client? ==> entity == Some(s.jobs[job].ids[0]))
    case Record(job) => job in s.jobs && s.jobs[job].phase.Stored? && s.jobs[job].ids != []
    case Fail(job) => job in s.jobs
  }

  function Add<K>(m: map<K, int>, k: K, amount: int): map<K, int> {
    m[k := Get(m, k) + amount]
  }

  function AddPair(m: map<Key, int>, kind: Kind, id: string, up: int, down: int): map<Key, int> {
    Add(Add(m, Key(kind, Up, id), up), Key(kind, Down, id), down)
  }

  function AddToBuckets(m: map<Bucket, int>, kind: Kind, id: string, time: int, up: int, down: int): map<Bucket, int> {
    Add(Add(m, Bucket(Key(kind, Up, id), time), up), Bucket(Key(kind, Down, id), time), down)
  }

  function Head(j: Job): string {
    if j.ids == [] then "" else j.ids[0]
  }

  function Advance(j: Job): Job {
    if j.ids == [] then j.(phase := Ready) else j.(ids := j.ids[1..], phase := Ready)
  }

  function DoIncrement(s: State, call: nat): State
    requires call in s.pipelines && s.pipelines[call] != []
  {
    var c := s.pipelines[call][0];
    s.(counters := Add(s.counters, c.key, c.amount), reported := Add(s.reported, c.key, c.amount),
       pipelines := s.pipelines[call := s.pipelines[call][1..]])
  }

  function DoTake(s: State, job: nat, dir: Direction): (r: State)
    requires job in s.jobs && (dir.Down? ==> s.jobs[job].phase.TookUp?)
    ensures r.reported == s.reported && r.pipelines == s.pipelines
  {
    var j := s.jobs[job];
    var key := Key(j.kind, dir, Head(j));
    var amount := Get(s.counters, key);
    s.(counters := s.counters - {key},
       jobs := s.jobs[job := j.(phase := if dir.Up? then TookUp(amount) else TookBoth(j.phase.up, amount))])
  }

  /** The entity is known: upsert its bucket. Clients need no statistics row. */
  function DoUpsert(s: State, job: nat, entity: string): (r: State)
    requires job in s.jobs && s.jobs[job].phase.TookBoth?
    ensures r.reported == s.reported && r.pipelines == s.pipelines
  {
    var j := s.jobs[job];
    s.(series := AddToBuckets(s.series, j.kind, entity, j.time, j.phase.up, j.phase.down),
       jobs := s.jobs[job := if j.kind.Client? then Advance(j) else j.(phase := Stored(j.phase.up, j.phase.down))])
  }

  /** The client is unknown: the bytes are dropped. */
  function DoDrop(s: State, job: nat): (r: State)
    requires job in s.jobs && s.jobs[job].phase.TookBoth?
    ensures r.reported == s.reported && r.pipelines == s.pipelines
  {
    var j := s.jobs[job];
    s.(discarded := AddPair(s.discarded, j.kind, Head(j), j.phase.up, j.phase.down), jobs := s.jobs[job := Advance(j)])
  }

  function DoStore(s: State, job: nat, entity: Option<string>): (r: State)
    requires job in s.jobs && s.jobs[job].phase.TookBoth?
    ensures r.reported == s.reported && r.pipelines == s.pipelines
  {
    var j := s.jobs[job];
    if j.phase.up == 0 && j.phase.down == 0 then s.(jobs := s.jobs[job := Advance(j)])
    else if entity.None? then DoDrop(s, job)
    else DoUpsert(s, job, entity.value)
  }

  function DoRecord(s: State, job: nat): (r: State)
    requires job in s.jobs && s.jobs[job].phase.Stored?
    ensures r.reported == s.reported && r.pipelines == s.pipelines
  {
    var j := s.jobs[job];
    s.(stats := AddPair(s.stats, j.kind, Head(j), j.phase.up, j.phase.down), jobs := s.jobs[job := Advance(j)])
  }

  function HeldUp(j: Job): int {
    if j.phase.TookUp? || j.phase.TookBoth? then j.phase.up else 0
  }

  function HeldDown(j: Job): int {
    if j.phase.TookBoth? then j.phase.down else 0
  }

  function DoFail(s: State, job: nat): (r: State)
    requires job in s.jobs
    ensures r.reported == s.reported && r.pipelines == s.pipelines
  {
    var j := s.jobs[job];
    s.(jobs := s.jobs - {job},
       lost := AddPair(s.lost, j.kind, Head(j), HeldUp(j), HeldDown(j)),
       unrecorded := if j.phase.Stored? then AddPair(s.unrecorded, j.kind, Head(j), j.phase.up, j.phase.down) else s.unrecorded)
  }

  function Next(s: State, e: Event): State
    requires Enabled(s, e)
  {
    match e
    case Report(call, node, items) => s.(pipelines := s.pipelines[call := Commands(node, items)])
    case Increment(call) => DoIncrement(s, call)
    case Scan(job, kind, time, ids) => s.(jobs := s.jobs[job := Job(kind, time, ids, Ready)])
    case TakeUp(job) => DoTake(s, job, Up)
    case TakeDown(job) => DoTake(s, job, Down)
    case Store(job, entity) => DoStore(s, job, entity)
    case Record(job) => DoRecord(s, job)
    case Fail(job) => DoFail(s, job)
  }

  ghost predicate IsRun(states: seq<State>, events: seq<Event>) {
    && |states| == |events| + 1
    && states[0] == EMPTY_STATE
    && forall i :: 0 <= i < |events| ==> Enabled(states[i], events[i]) && states[i + 1] == Next(states[i], events[i])
  }

  // ---------- The ledger ----------

  function HeldBy(j: Job, sel: Selector): int {
    PairShare(sel, j.kind, Head(j), HeldUp(j), HeldDown(j))
  }

  ghost function HeldMap(jobs: map<nat, Job>, sel: Selector): map<nat, int> {
    map j | j in jobs :: HeldBy(jobs[j], sel)
  }

  /** Bytes taken by GETDEL and not yet stored. */
  ghost function Held(jobs: map<nat, Job>, sel: Selector): int {
    Total(HeldMap(jobs, sel))
  }

  lemma HeldUpdate(jobs: map<nat, Job>, job: nat, j: Job, sel: Selector)
    ensures Held(jobs[job := j], sel)
         == Held(jobs, sel) - (if job in jobs then HeldBy(jobs[job], sel) else 0) + HeldBy(j, sel)
  {
    assert HeldMap(jobs[job := j], sel) == HeldMap(jobs, sel)[job := HeldBy(j, sel)];
    TotalUpdate(HeldMap(jobs, sel), job, HeldBy(j, sel));
  }

  lemma HeldRemove(jobs: map<nat, Job>, job: nat, sel: Selector)
    requires job in jobs
    ensures Held(jobs - {job}, sel) == Held(jobs, sel) - HeldBy(jobs[job], sel)
  {
    assert HeldMap(jobs - {job}, sel) == HeldMap(jobs, sel) - {job};
    TotalRemove(HeldMap(jobs, sel), job);
  }

  lemma PairAdd(m: map<Key, int>, kind: Kind, id: string, up: int, down: int, sel: Selector)
    ensures SumKeys(AddPair(m, kind, id, up, down), sel) == SumKeys(m, sel) + PairShare(sel, kind, id, up, down)
  {
    KeysAdd(m, Key(kind, Up, id), up, sel);
    KeysAdd(Add(m, Key(kind, Up, id), up), Key(kind, Down, id), down, sel);
  }

  /** A single client counter is left out: clients are stored under their row id, not their email. */
  predicate Traceable(sel: Selector) {
    sel.All? || !sel.key.kind.Client?
  }

  ghost function Settled(s: State, sel: Selector): int {
    SumKeys(s.counters, sel) + SumBuckets(s.series, sel) + SumKeys(s.discarded, sel) + SumKeys(s.lost, sel)
  }

  /** All bytes ever added are in a counter, in a job's hands, in a bucket, or accounted as dropped. */
  ghost predicate InBalance(s: State, sel: Selector) {
    SumKeys(s.reported, sel) == Settled(s, sel) + Held(s.jobs, sel)
  }

  lemma IncrementBalance(s: State, call: nat, sel: Selector)
    requires call in s.pipelines && s.pipelines[call] != [] && InBalance(s, sel)
    ensures InBalance(DoIncrement(s, call), sel)
  {
    var c := s.pipelines[call][0];
    KeysAdd(s.counters, c.key, c.amount, sel);
    KeysAdd(s.reported, c.key, c.amount, sel);
  }

  lemma TakeBalance(s: State, job: nat, dir: Direction, sel: Selector)
    requires job in s.jobs && s.jobs[job].phase == (if dir.Up? then Ready else s.jobs[job].phase)
    requires dir.Down? ==> s.jobs[job].phase.TookUp?
    requires InBalance(s, sel)
    ensures InBalance(DoTake(s, job, dir), sel)
  {
    var j := s.jobs[job];
    var key := Key(j.kind, dir, Head(j));
    KeysDelete(s.counters, key, sel);
    HeldUpdate(s.jobs, job, DoTake(s, job, dir).jobs[job], sel);
  }

  lemma AdvancedHoldsNothing(j: Job, sel: Selector)
    ensures HeldBy(Advance(j), sel) == 0
  {
  }

  lemma SeriesAdd(series: map<Bucket, int>, kind: Kind, id: string, time: int, up: int, down: int, sel: Selector)
    ensures SumBuckets(AddToBuckets(series, kind, id, time, up, down), sel)
         == SumBuckets(series, sel) + PairShare(sel, kind, id, up, down)
  {
    BucketsAdd(series, Bucket(Key(kind, Up, id), time), up, sel);
    BucketsAdd(Add(series, Bucket(Key(kind, Up, id), time), up), Bucket(Key(kind, Down, id), time), down, sel);
  }

  lemma UpsertBalance(s: State, job: nat, entity: string, sel: Selector)
    requires job in s.jobs && s.jobs[job].phase.TookBoth? && InBalance(s, sel) && Traceable(sel)
    requires !s.jobs[job].kind.Client? ==> entity == Head(s.jobs[job])
    ensures InBalance(DoUpsert(s, job, entity), sel)
  {
    var j := s.jobs[job];
    HeldUpdate(s.jobs, job, DoUpsert(s, job, entity).jobs[job], sel);
    AdvancedHoldsNothing(j, sel);
    SeriesAdd(s.series, j.kind, entity, j.time, j.phase.up, j.phase.down, sel);
    assert PairShare(sel, j.kind, entity, j.phase.up, j.phase.down) == HeldBy(j, sel);
  }

  lemma DropBalance(s: State, job: nat, sel: Selector)
    requires job in s.jobs && s.jobs[job].phase.TookBoth? && InBalance(s, sel)
    ensures InBalance(DoDrop(s, job), sel)
  {
    var j := s.jobs[job];
    HeldUpdate(s.jobs, job, Advance(j), sel);
    AdvancedHoldsNothing(j, sel);
    PairAdd(s.discarded, j.kind, Head(j), j.phase.up, j.phase.down, sel);
  }

  lemma StoreBalance(s: State, job: nat, entity: Option<string>, sel: Selector)
    requires Enabled(s, Store(job, entity)) && InBalance(s, sel) && Traceable(sel)
    ensures InBalance(DoStore(s, job, entity), sel)
  {
    var j := s.jobs[job];
    if j.phase.up == 0 && j.phase.down == 0 {
      HeldUpdate(s.jobs, job, Advance(j), sel);
      AdvancedHoldsNothing(j, sel);
    } else if entity.None? {
      DropBalance(s, job, sel);
    } else {
      UpsertBalance(s, job, entity.value, sel);
    }
  }

  lemma RecordBalance(s: State, job: nat, sel: Selector)
    requires job in s.jobs && s.jobs[job].phase.Stored? && InBalance(s, sel)
    ensures InBalance(DoRecord(s, job), sel)
  {
    HeldUpdate(s.jobs, job, Advance(s.jobs[job]), sel);
    AdvancedHoldsNothing(s.jobs[job], sel);
  }

  lemma FailBalance(s: State, job: nat, sel: Selector)
    requires job in s.jobs && InBalance(s, sel)
    ensures InBalance(DoFail(s, job), sel)
  {
    var j := s.jobs[job];
    HeldRemove(s.jobs, job, sel);
    PairAdd(s.lost, j.kind, Head(j), HeldUp(j), HeldDown(j), sel);
  }

  lemma StepBalance(s: State, e: Event, sel: Selector)
    requires Enabled(s, e) && InBalance(s, sel) && Traceable(sel)
    ensures InBalance(Next(s, e), sel)
  {
    match e
    case Report(_, _, _) =>
    case Increment(call) => IncrementBalance(s, call, sel);
    case Scan(job, kind, time, ids) => HeldUpdate(s.jobs, job, Job(kind, time, ids, Ready), sel);
    case TakeUp(job) => TakeBalance(s, job, Up, sel);
    case TakeDown(job) => TakeBalance(s, job, Down, sel);
    case Store(job, entity) => StoreBalance(s, job, entity, sel);
    case Record(job) => RecordBalance(s, job, sel);
    case Fail(job) => FailBalance(s, job, sel);
  }

  lemma NothingYet(sel: Selector)
    ensures InBalance(EMPTY_STATE, sel)
  {
    assert KeySlice(map[], sel) == map[] && BucketSlice(map[], sel) == map[] && HeldMap(map[], sel) == map[];
  }

  /** The counter route loses and invents nothing, at every micro-step of every interleaving, for
      every single node and inbound counter and for all counters of a kind together. */
  lemma {:induction false} LedgerIsExact(states: seq<State>, events: seq<Event>, sel: Selector)
    requires IsRun(states, events) && Traceable(sel)
    ensures forall i :: 0 <= i < |states| ==> InBalance(states[i], sel)
    decreases |events|
  {
    if events == [] {
      NothingYet(sel);
    } else {
      var n := |events| - 1;
      assert forall i :: 0 <= i <= n ==> states[..n + 1][i] == states[i];
      LedgerIsExact(states[..n + 1], events[..n], sel);
      assert states[..n + 1][n] == states[n] && states[n + 1] == Next(states[n], events[n]);
      StepBalance(states[n], events[n], sel);
    }
  }

  // ---------- Buckets against statistics rows ----------

  function OweBy(j: Job, key: Key): int {
    if j.phase.Stored? then PairShare(One(key), j.kind, Head(j), j.phase.up, j.phase.down) else 0
  }

  ghost function OweMap(jobs: map<nat, Job>, key: Key): map<nat, int> {
    map j | j in jobs :: OweBy(jobs[j], key)
  }

  /** Bytes in a bucket whose statistics row is still to be written. */
  ghost function Owed(jobs: map<nat, Job>, key: Key): int {
    Total(OweMap(jobs, key))
  }

  lemma OweUpdate(jobs: map<nat, Job>, job: nat, j: Job, key: Key)
    ensures Owed(jobs[job := j], key) == Owed(jobs, key) - (if job in jobs then OweBy(jobs[job], key) else 0) + OweBy(j, key)
  {
    assert OweMap(jobs[job := j], key) == OweMap(jobs, key)[job := OweBy(j, key)];
    TotalUpdate(OweMap(jobs, key), job, OweBy(j, key));
  }

  lemma OweRemove(jobs: map<nat, Job>, job: nat, key: Key)
    requires job in jobs
    ensures Owed(jobs - {job}, key) == Owed(jobs, key) - OweBy(jobs[job], key)
  {
    assert OweMap(jobs - {job}, key) == OweMap(jobs, key) - {job};
    TotalRemove(OweMap(jobs, key), job);
  }

  ghost predicate StatsFollow(s: State, key: Key) {
    SumBuckets(s.series, One(key)) == SumKeys(s.stats, One(key)) + Owed(s.jobs, key) + SumKeys(s.unrecorded, One(key))
  }

  lemma UpsertStats(s: State, job: nat, entity: string, key: Key)
    requires job in s.jobs && s.jobs[job].phase.TookBoth? && StatsFollow(s, key) && !key.kind.Client?
    requires !s.jobs[job].kind.Client? ==> entity == Head(s.jobs[job])
    ensures StatsFollow(DoUpsert(s, job, entity), key)
  {
    var j := s.jobs[job];
    OweUpdate(s.jobs, job, DoUpsert(s, job, entity).jobs[job], key);
    SeriesAdd(s.series, j.kind, entity, j.time, j.phase.up, j.phase.down, One(key));
  }

  lemma RecordStats(s: State, job: nat, key: Key)
    requires job in s.jobs && s.jobs[job].phase.Stored? && StatsFollow(s, key)
    ensures StatsFollow(DoRecord(s, job), key)
  {
    var j := s.jobs[job];
    OweUpdate(s.jobs, job, Advance(j), key);
    PairAdd(s.stats, j.kind, Head(j), j.phase.up, j.phase.down, One(key));
  }

  lemma FailStats(s: State, job: nat, key: Key)
    requires job in s.jobs && StatsFollow(s, key)
    ensures StatsFollow(DoFail(s, job), key)
  {
    var j := s.jobs[job];
    OweRemove(s.jobs, job, key);
    if j.phase.Stored? {
      PairAdd(s.unrecorded, j.kind, Head(j), j.phase.up, j.phase.down, One(key));
    }
  }

  lemma TakeStats(s: State, job: nat, dir: Direction, key: Key)
    requires job in s.jobs && !s.jobs[job].phase.Stored? && (dir.Down? ==> s.jobs[job].phase.TookUp?) && StatsFollow(s, key)
    ensures StatsFollow(DoTake(s, job, dir), key)
  {
    OweUpdate(s.jobs, job, DoTake(s, job, dir).jobs[job], key);
  }

  lemma SkipStats(s: State, s': State, job: nat, key: Key)
    requires job in s.jobs && !s.jobs[job].phase.Stored? && StatsFollow(s, key)
    requires s'.series == s.series && s'.stats == s.stats && s'.unrecorded == s.unrecorded
    requires s'.jobs == s.jobs[job := Advance(s.jobs[job])]
    ensures StatsFollow(s', key)
  {
    OweUpdate(s.jobs, job, Advance(s.jobs[job]), key);
  }

  lemma StoreStats(s: State, job: nat, entity: Option<string>, key: Key)
    requires Enabled(s, Store(job, entity)) && StatsFollow(s, key) && !key.kind.Client?
    ensures StatsFollow(DoStore(s, job, entity), key)
  {
    var j := s.jobs[job];
    if j.phase.up == 0 && j.phase.down == 0 {
      SkipStats(s, s.(jobs := s.jobs[job := Advance(j)]), job, key);
    } else if entity.None? {
      SkipStats(s, DoDrop(s, job), job, key);
    } else {
      UpsertStats(s, job, entity.value, key);
    }
  }

  lemma StepStats(s: State, e: Event, key: Key)
    requires Enabled(s, e) && StatsFollow(s, key) && !key.kind.Client?
    ensures StatsFollow(Next(s, e), key)
  {
    match e
    case Report(_, _, _) =>
    case Increment(_) =>
    case Scan(job, kind, time, ids) => OweUpdate(s.jobs, job, Job(kind, time, ids, Ready), key);
    case TakeUp(job) => TakeStats(s, job, Up, key);
    case TakeDown(job) => TakeStats(s, job, Down, key);
    case Store(job, entity) => StoreStats(s, job, entity, key);
    case Record(job) => RecordStats(s, job, key);
    case Fail(job) => FailStats(s, job, key);
  }

  /** The time series of every node and inbound adds up to its statistics rows, but for rows
      still due and rows a failing job never wrote. */
  lemma {:induction false} SeriesMatchStats(states: seq<State>, events: seq<Event>, key: Key)
    requires IsRun(states, events) && !key.kind.Client?
    ensures forall i :: 0 <= i < |states| ==> StatsFollow(states[i], key)
    decreases |events|
  {
    if events == [] {
      assert KeySlice(map[], One(key)) == map[] && BucketSlice(map[], One(key)) == map[] && OweMap(map[], key) == map[];
    } else {
      var n := |events| - 1;
      assert forall i :: 0 <= i <= n ==> states[..n + 1][i] == states[i];
      SeriesMatchStats(states[..n + 1], events[..n], key);
      assert states[..n + 1][n] == states[n] && states[n + 1] == Next(states[n], events[n]);
      StepStats(states[n], events[n], key);
    }
  }

  // ---------- Double entry over whole runs ----------

  ghost function DueMap(pipelines: map<nat, seq<Incr>>, sel: Selector): map<nat, int> {
    map c | c in pipelines :: Adds(pipelines[c], sel)
  }

  /** Bytes of reports whose pipelines have not sent them yet. */
  ghost function Due(pipelines: map<nat, seq<Incr>>, sel: Selector): int {
    Total(DueMap(pipelines, sel))
  }

  lemma DueUpdate(pipelines: map<nat, seq<Incr>>, call: nat, rest: seq<Incr>, sel: Selector)
    ensures Due(pipelines[call := rest], sel)
         == Due(pipelines, sel) - (if call in pipelines then Adds(pipelines[call], sel) else 0) + Adds(rest, sel)
  {
    assert DueMap(pipelines[call := rest], sel) == DueMap(pipelines, sel)[call := Adds(rest, sel)];
    TotalUpdate(DueMap(pipelines, sel), call, Adds(rest, sel));
  }

  ghost predicate EntriesMatch(s: State, dir: Direction) {
    SumKeys(s.reported, All(Node, dir)) + Due(s.pipelines, All(Node, dir))
    == SumKeys(s.reported, All(Client, dir)) + Due(s.pipelines, All(Client, dir))
  }

  predicate Balanced(e: Event, dir: Direction) {
    e.Report? ==> NoneNegative(e.items, dir) || NonePositive(e.items, dir)
  }

  lemma IncrementEntries(s: State, call: nat, sel: Selector)
    requires call in s.pipelines && s.pipelines[call] != []
    ensures var s' := DoIncrement(s, call);
            SumKeys(s'.reported, sel) + Due(s'.pipelines, sel) == SumKeys(s.reported, sel) + Due(s.pipelines, sel)
  {
    var c := s.pipelines[call][0];
    KeysAdd(s.reported, c.key, c.amount, sel);
    DueUpdate(s.pipelines, call, s.pipelines[call][1..], sel);
  }

  lemma ReportEntries(s: State, call: nat, node: string, items: seq<Item>, dir: Direction)
    requires call !in s.pipelines && EntriesMatch(s, dir) && (NoneNegative(items, dir) || NonePositive(items, dir))
    ensures EntriesMatch(s.(pipelines := s.pipelines[call := Commands(node, items)]), dir)
  {
    DueUpdate(s.pipelines, call, Commands(node, items), All(Node, dir));
    DueUpdate(s.pipelines, call, Commands(node, items), All(Client, dir));
    ReportBalancedIff(node, items, dir);
  }

  lemma JobsReportNothing(s: State, e: Event)
    requires Enabled(s, e) && !e.Report? && !e.Increment?
    ensures Next(s, e).reported == s.reported && Next(s, e).pipelines == s.pipelines
  {
  }

  lemma SameEntries(s: State, s': State, dir: Direction)
    requires EntriesMatch(s, dir) && s'.reported == s.reported && s'.pipelines == s.pipelines
    ensures EntriesMatch(s', dir)
  {
  }

  lemma BothEntries(s: State, call: nat, dir: Direction)
    requires call in s.pipelines && s.pipelines[call] != [] && EntriesMatch(s, dir)
    ensures EntriesMatch(DoIncrement(s, call), dir)
  {
    IncrementEntries(s, call, All(Node, dir));
    IncrementEntries(s, call, All(Client, dir));
  }

  lemma StepEntries(s: State, e: Event, dir: Direction)
    requires Enabled(s, e) && EntriesMatch(s, dir) && Balanced(e, dir)
    ensures EntriesMatch(Next(s, e), dir)
  {
    match e
    case Report(call, node, items) => ReportEntries(s, call, node, items, dir);
    case Increment(call) => BothEntries(s, call, dir);
    case _ =>
      JobsReportNothing(s, e);
      SameEntries(s, Next(s, e), dir);
  }

  lemma {:induction false} EntriesMatchAlways(states: seq<State>, events: seq<Event>, dir: Direction)
    requires IsRun(states, events) && forall i :: 0 <= i < |events| ==> Balanced(events[i], dir)
    ensures forall i :: 0 <= i < |states| ==> EntriesMatch(states[i], dir)
    decreases |events|
  {
    if events == [] {
      assert KeySlice(map[], All(Node, dir)) == KeySlice(map[], All(Client, dir)) == map[];
      assert DueMap(map[], All(Node, dir)) == DueMap(map[], All(Client, dir)) == map[];
    } else {
      var n := |events| - 1;
      assert forall i :: 0 <= i <= n ==> states[..n + 1][i] == states[i];
      EntriesMatchAlways(states[..n + 1], events[..n], dir);
      assert states[..n + 1][n] == states[n] && states[n + 1] == Next(states[n], events[n]);
      StepEntries(states[n], events[n], dir);
    }
  }

  /** No report and no drain is half done. */
  predicate Quiet(s: State) {
    && (forall c :: c in s.pipelines ==> s.pipelines[c] == [])
    && (forall j :: j in s.jobs ==> s.jobs[j].phase.Ready?)
  }

  lemma {:induction false} ZeroTotal<K>(m: map<K, int>)
    requires forall k :: k in m ==> m[k] == 0
    ensures Total(m) == 0
  {
    TotalWithoutZeros(m, map[]);
  }

  /** Double entry: whenever nothing is half done, what all nodes hold equals what all clients
      hold, dropped bytes of unknown clients and bytes of failed jobs included. */
  lemma DoubleEntry(states: seq<State>, events: seq<Event>, dir: Direction, i: nat)
    requires IsRun(states, events) && forall k :: 0 <= k < |events| ==> Balanced(events[k], dir)
    requires i < |states| && Quiet(states[i])
    ensures Settled(states[i], All(Node, dir)) == Settled(states[i], All(Client, dir))
  {
    var s := states[i];
    LedgerIsExact(states, events, All(Node, dir));
    LedgerIsExact(states, events, All(Client, dir));
    EntriesMatchAlways(states, events, dir);
    ZeroTotal(DueMap(s.pipelines, All(Node, dir)));
    ZeroTotal(DueMap(s.pipelines, All(Client, dir)));
    ZeroTotal(HeldMap(s.jobs, All(Node, dir)));
    ZeroTotal(HeldMap(s.jobs, All(Client, dir)));
    assert EntriesMatch(s, dir) && InBalance(s, All(Node, dir)) && InBalance(s, All(Client, dir));
  }
}
