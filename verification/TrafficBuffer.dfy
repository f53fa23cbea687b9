/** The buffer route of reported traffic: reports append to a Redis list per node, and workers
    drain it with LRANGE and, as a separate command, DEL. */
module TrafficBuffer {
  import opened Sums

  datatype Item = Item(email: string, upload: int, download: int)
  type Batch = seq<Item>

  function Get<K>(m: map<K, int>, k: K): int {
    if k in m then m[k] else 0
  }

  function Bytes(t: Item): int {
    t.upload + t.download
  }

  /** Bytes of one client in a list of items; items without an email count for nobody. */
  function BytesOf(items: seq<Item>, email: string): int {
    if items == [] then 0
    else BytesOf(items[..|items| - 1], email) + ShareOf(items[|items| - 1], email)
  }

  function ShareOf(t: Item, email: string): int {
    if t.email == email && email != "" then t.upload + t.download else 0
  }

  function Flatten(batches: seq<Batch>): seq<Item> {
    if batches == [] then [] else Flatten(batches[..|batches| - 1]) + batches[|batches| - 1]
  }

  lemma {:induction false} BytesAppend(a: seq<Item>, b: seq<Item>, email: string)
    ensures BytesOf(a + b, email) == BytesOf(a, email) + BytesOf(b, email)
    decreases |b|
  {
    if b == [] {
      assert a + b == a;
    } else {
      var n := |b| - 1;
      assert (a + b)[..|a + b| - 1] == a + b[..n];
      BytesAppend(a, b[..n], email);
    }
  }

  lemma {:induction false} FlattenAppend(a: seq<Batch>, b: seq<Batch>)
    ensures Flatten(a + b) == Flatten(a) + Flatten(b)
    decreases |b|
  {
    if b == [] {
      assert a + b == a && Flatten(a) + [] == Flatten(a);
    } else {
      var n := |b| - 1;
      assert (a + b)[..|a + b| - 1] == a + b[..n] && (a + b)[|a + b| - 1] == b[n];
      FlattenAppend(a, b[..n]);
      assert Flatten(a) + Flatten(b[..n]) + b[n] == Flatten(a) + (Flatten(b[..n]) + b[n]);
    }
  }

  // ---------- Workers and reports as interleaved steps ----------

  /** A worker between LRANGE and DEL, and between DEL and its database transaction. */
  datatype Worker = Ranged(node: string, batches: seq<Batch>) | Popped(node: string, batches: seq<Batch>)

  /** The last three fields keep the books: what was pushed, what a DEL removed unread, and what
      was read and not applied. */
  datatype State = State(
    buffers: map<string, seq<Batch>>,
    workers: map<nat, Worker>,
    used: map<string, int>,
    pushed: seq<Item>,
    lost: seq<Item>,
    dropped: seq<Item>)

  const EMPTY_STATE := State(map[], map[], map[], [], [], [])

  datatype Event =
    | Push(node: string, batch: Batch)
    | Range(worker: nat, node: string)
    | Del(worker: nat)
    | Apply(worker: nat, nodeKnown: bool, clients: set<string>)
    | Fail(worker: nat)

  function BufferOf(s: State, node: string): seq<Batch> {
    if node in s.buffers then s.buffers[node] else []
  }

  predicate Enabled(s: State, e: Event) {
    match e
    case Push(_, _) => true
    case Range(w, node) => w !in s.workers && BufferOf(s, node) != []
    case Del(w) => w in s.workers && s.workers[w].Ranged?
    case Apply(w, _, _) => w in s.workers && s.workers[w].Popped?
    case Fail(w) => w in s.workers
  }

  function Known(items: seq<Item>, clients: set<string>): seq<Item> {
    if items == [] then []
    else if items[|items| - 1].email in clients then Known(items[..|items| - 1], clients) + [items[|items| - 1]]
    else Known(items[..|items| - 1], clients)
  }

  function Unknown(items: seq<Item>, clients: set<string>): seq<Item> {
    if items == [] then []
    else if items[|items| - 1].email in clients then Unknown(items[..|items| - 1], clients)
    else Unknown(items[..|items| - 1], clients) + [items[|items| - 1]]
  }

  /** Usage counted item by item. */
  function AddItems(used: map<string, int>, items: seq<Item>): map<string, int> {
    if items == [] then used
    else
      var t := items[|items| - 1];
      var before := AddItems(used, items[..|items| - 1]);
      if t.email == "" then before else before[t.email := Get(before, t.email) + Bytes(t)]
  }

  function DoDel(s: State, w: nat): State
    requires w in s.workers
  {
    var r := s.workers[w];
    var list := BufferOf(s, r.node);
    s.(buffers := s.buffers[r.node := []],
       workers := s.workers[w := Popped(r.node, r.batches)],
       lost := s.lost + Flatten(if |r.batches| <= |list| then list[|r.batches|..] else []))
  }

  function DoApply(s: State, w: nat, nodeKnown: bool, clients: set<string>): State
    requires w in s.workers
  {
    var items := Flatten(s.workers[w].batches);
    var s' := s.(workers := s.workers - {w});
    if nodeKnown
    then s'.(used := AddItems(s.used, Known(items, clients)), dropped := s.dropped + Unknown(items, clients))
    else s'.(dropped := s.dropped + items)
  }

  function DoFail(s: State, w: nat): State
    requires w in s.workers
  {
    s.(workers := s.workers - {w},
       dropped := if s.workers[w].Popped? then s.dropped + Flatten(s.workers[w].batches) else s.dropped)
  }

  function DoPush(s: State, node: string, batch: Batch): State {
    s.(buffers := s.buffers[node := BufferOf(s, node) + [batch]], pushed := s.pushed + batch)
  }

  function Next(s: State, e: Event): State
    requires Enabled(s, e)
  {
    match e
    case Push(node, batch) => DoPush(s, node, batch)
    case Range(w, node) => s.(workers := s.workers[w := Ranged(node, BufferOf(s, node))])
    case Del(w) => DoDel(s, w)
    case Apply(w, nodeKnown, clients) => DoApply(s, w, nodeKnown, clients)
    case Fail(w) => DoFail(s, w)
  }

  /** The workers that stand between LRANGE and DEL of a buffer. */
  ghost function ReadersOf(s: State, node: string): set<nat> {
    set w | w in s.workers && s.workers[w].Ranged? && s.workers[w].node == node
  }

  ghost predicate FewReaders(s: State, n: nat) {
    forall node :: |ReadersOf(s, node)| <= n
  }

  /** Runs in which no buffer ever has more than n readers, however many workers are busy. */
  ghost predicate IsRun(states: seq<State>, events: seq<Event>, n: nat) {
    && |states| == |events| + 1
    && states[0] == EMPTY_STATE
    && (forall i :: 0 <= i < |events| ==> Enabled(states[i], events[i]) && states[i + 1] == Next(states[i], events[i]))
    && (forall i :: 0 <= i < |states| ==> FewReaders(states[i], n))
  }

  // ---------- The books while no buffer has two readers ----------

  ghost function BufferedMap(buffers: map<string, seq<Batch>>, email: string): map<string, int> {
    map node | node in buffers :: BytesOf(Flatten(buffers[node]), email)
  }

  ghost function Buffered(buffers: map<string, seq<Batch>>, email: string): int {
    Total(BufferedMap(buffers, email))
  }

  ghost function InHandMap(workers: map<nat, Worker>, email: string): map<nat, int> {
    map w | w in workers :: if workers[w].Popped? then BytesOf(Flatten(workers[w].batches), email) else 0
  }

  ghost function InHand(workers: map<nat, Worker>, email: string): int {
    Total(InHandMap(workers, email))
  }

  /** Bytes in a buffer, or popped and not applied yet. */
  ghost function Waiting(s: State, email: string): int {
    Buffered(s.buffers, email) + InHand(s.workers, email)
  }

  ghost predicate Accounted(s: State, email: string) {
    BytesOf(s.pushed, email)
    == Get(s.used, email) + Waiting(s, email) + BytesOf(s.lost, email) + BytesOf(s.dropped, email)
  }

  /** What a worker has ranged over is still the front of the buffer. */
  ghost predicate Prefixes(s: State) {
    forall w :: w in s.workers && s.workers[w].Ranged? ==>
      s.workers[w].batches <= BufferOf(s, s.workers[w].node) && s.workers[w].node in s.buffers
  }

  lemma BufferUpdate(buffers: map<string, seq<Batch>>, node: string, list: seq<Batch>, email: string)
    ensures Buffered(buffers[node := list], email)
         == Buffered(buffers, email) - (if node in buffers then BytesOf(Flatten(buffers[node]), email) else 0)
            + BytesOf(Flatten(list), email)
  {
    assert BufferedMap(buffers[node := list], email) == BufferedMap(buffers, email)[node := BytesOf(Flatten(list), email)];
    TotalUpdate(BufferedMap(buffers, email), node, BytesOf(Flatten(list), email));
  }

  function HandOf(r: Worker, email: string): int {
    if r.Popped? then BytesOf(Flatten(r.batches), email) else 0
  }

  lemma HandUpdate(workers: map<nat, Worker>, w: nat, r: Worker, email: string)
    ensures InHand(workers[w := r], email)
         == InHand(workers, email) - (if w in workers then HandOf(workers[w], email) else 0) + HandOf(r, email)
  {
    assert InHandMap(workers[w := r], email) == InHandMap(workers, email)[w := HandOf(r, email)];
    TotalUpdate(InHandMap(workers, email), w, HandOf(r, email));
  }

  lemma HandRemove(workers: map<nat, Worker>, w: nat, email: string)
    requires w in workers
    ensures InHand(workers - {w}, email) == InHand(workers, email) - HandOf(workers[w], email)
  {
    assert InHandMap(workers - {w}, email) == InHandMap(workers, email) - {w};
    TotalRemove(InHandMap(workers, email), w);
  }

  lemma {:induction false} AddItemsMeaning(used: map<string, int>, items: seq<Item>, email: string)
    ensures Get(AddItems(used, items), email) == Get(used, email) + BytesOf(items, email)
    decreases |items|
  {
    if items != [] { AddItemsMeaning(used, items[..|items| - 1], email); }
  }

  lemma {:induction false} KnownBytes(items: seq<Item>, clients: set<string>, email: string)
    ensures BytesOf(Known(items, clients), email) == if email in clients then BytesOf(items, email) else 0
    decreases |items|
  {
    if items != [] {
      var n := |items| - 1;
      KnownBytes(items[..n], clients, email);
    }
  }

  lemma {:induction false} UnknownBytes(items: seq<Item>, clients: set<string>, email: string)
    ensures BytesOf(Unknown(items, clients), email) == if email in clients then 0 else BytesOf(items, email)
    decreases |items|
  {
    if items != [] {
      var n := |items| - 1;
      UnknownBytes(items[..n], clients, email);
    }
  }

  lemma KnownOrUnknown(items: seq<Item>, clients: set<string>, email: string)
    ensures BytesOf(Known(items, clients), email) == if email in clients then BytesOf(items, email) else 0
    ensures BytesOf(Unknown(items, clients), email) == if email in clients then 0 else BytesOf(items, email)
  {
    KnownBytes(items, clients, email);
    UnknownBytes(items, clients, email);
  }

  lemma PushBooks(s: State, node: string, batch: Batch, email: string)
    requires Accounted(s, email) && Prefixes(s)
    ensures Accounted(DoPush(s, node, batch), email) && Prefixes(DoPush(s, node, batch))
  {
    BufferUpdate(s.buffers, node, BufferOf(s, node) + [batch], email);
    FlattenAppend(BufferOf(s, node), [batch]);
    assert Flatten([batch]) == batch by { assert [batch][..0] == []; assert [] + batch == batch; }
    BytesAppend(Flatten(BufferOf(s, node)), batch, email);
    BytesAppend(s.pushed, batch, email);
  }

  lemma RangeBooks(s: State, w: nat, node: string, email: string)
    requires Accounted(s, email) && Prefixes(s) && w !in s.workers && BufferOf(s, node) != []
    ensures Accounted(s.(workers := s.workers[w := Ranged(node, BufferOf(s, node))]), email)
    ensures Prefixes(s.(workers := s.workers[w := Ranged(node, BufferOf(s, node))]))
  {
    HandUpdate(s.workers, w, Ranged(node, BufferOf(s, node)), email);
  }

  /** A lone reader's DEL takes over exactly what it read and loses exactly what it did not. */
  lemma DelBooks(s: State, w: nat, email: string)
    requires Accounted(s, email) && Prefixes(s) && w in s.workers && s.workers[w].Ranged?
    ensures Accounted(DoDel(s, w), email)
  {
    var r := s.workers[w];
    var list := BufferOf(s, r.node);
    assert list == r.batches + list[|r.batches|..];
    FlattenAppend(r.batches, list[|r.batches|..]);
    BytesAppend(Flatten(r.batches), Flatten(list[|r.batches|..]), email);
    BytesAppend(s.lost, Flatten(list[|r.batches|..]), email);
    BufferUpdate(s.buffers, r.node, [], email);
    HandUpdate(s.workers, w, Popped(r.node, r.batches), email);
  }

  lemma ApplyBooks(s: State, w: nat, nodeKnown: bool, clients: set<string>, email: string)
    requires Accounted(s, email) && w in s.workers && s.workers[w].Popped?
    ensures Accounted(DoApply(s, w, nodeKnown, clients), email)
  {
    var items := Flatten(s.workers[w].batches);
    HandRemove(s.workers, w, email);
    AddItemsMeaning(s.used, Known(items, clients), email);
    KnownOrUnknown(items, clients, email);
    BytesAppend(s.dropped, Unknown(items, clients), email);
    BytesAppend(s.dropped, items, email);
  }

  lemma FailBooks(s: State, w: nat, email: string)
    requires Accounted(s, email) && w in s.workers
    ensures Accounted(DoFail(s, w), email)
  {
    HandRemove(s.workers, w, email);
    if s.workers[w].Popped? { BytesAppend(s.dropped, Flatten(s.workers[w].batches), email); }
  }

  /** No two workers stand between LRANGE and DEL of the same buffer. */
  ghost predicate OneReader(s: State) {
    forall v, w :: v in s.workers && w in s.workers && v != w && s.workers[v].Ranged? && s.workers[w].Ranged? ==>
      s.workers[v].node != s.workers[w].node
  }

  lemma SubsetSize(a: set<nat>, b: set<nat>)
    requires a <= b
    ensures |a| <= |b|
  {
    assert |b - a| == |b| - |a|;
  }

  lemma OneReaderIff(s: State)
    ensures FewReaders(s, 1) <==> OneReader(s)
  {
    if FewReaders(s, 1) {
      forall v, w | v in s.workers && w in s.workers && v != w && s.workers[v].Ranged? && s.workers[w].Ranged?
        ensures s.workers[v].node != s.workers[w].node
      {
        var readers := ReadersOf(s, s.workers[w].node);
        if v in readers { SubsetSize({v, w}, readers); }
      }
    }
    if OneReader(s) {
      forall node ensures |ReadersOf(s, node)| <= 1 {
        var readers := ReadersOf(s, node);
        if readers != {} {
          var w :| w in readers;
          assert readers == {w};
        }
      }
    }
  }

  lemma StepBooks(s: State, e: Event, email: string)
    requires Enabled(s, e) && Accounted(s, email) && Prefixes(s) && OneReader(s)
    ensures Accounted(Next(s, e), email) && Prefixes(Next(s, e))
  {
    match e
    case Push(node, batch) => PushBooks(s, node, batch, email);
    case Range(w, node) => RangeBooks(s, w, node, email);
    case Del(w) => DelBooks(s, w, email);
    case Apply(w, nodeKnown, clients) => ApplyBooks(s, w, nodeKnown, clients, email);
    case Fail(w) => FailBooks(s, w, email);
  }

  /** While no buffer has two readers, every pushed byte is applied, waiting, removed unread, or read and
      dropped. */
  lemma {:induction false} OneReaderAccounts(states: seq<State>, events: seq<Event>, email: string)
    requires IsRun(states, events, 1)
    ensures forall i :: 0 <= i < |states| ==> Accounted(states[i], email) && Prefixes(states[i])
    decreases |events|
  {
    if events == [] {
      assert BufferedMap(map[], email) == map[] && InHandMap(map[], email) == map[];
    } else {
      var n := |events| - 1;
      assert forall i :: 0 <= i <= n ==> states[..n + 1][i] == states[i];
      OneReaderAccounts(states[..n + 1], events[..n], email);
      assert states[..n + 1][n] == states[n] && states[n + 1] == Next(states[n], events[n]);
      OneReaderIff(states[n]);
      StepBooks(states[n], events[n], email);
    }
  }

  // ---------- Never too much, and exactly when all ----------

  predicate NonNegative(items: seq<Item>) {
    forall t :: t in items ==> 0 <= t.upload && 0 <= t.download
  }

  predicate PushesNonNegative(e: Event) {
    e.Push? ==> NonNegative(e.batch)
  }

  lemma {:induction false} NonNegativeBytes(items: seq<Item>, email: string)
    requires NonNegative(items)
    ensures 0 <= BytesOf(items, email)
    decreases |items|
  {
    if items != [] {
      assert items == items[..|items| - 1] + [items[|items| - 1]];
      NonNegativeBytes(items[..|items| - 1], email);
    }
  }

  ghost predicate AllNonNegative(s: State) {
    && NonNegative(s.lost) && NonNegative(s.dropped)
    && (forall node :: node in s.buffers ==> NonNegative(Flatten(s.buffers[node])))
    && (forall w :: w in s.workers ==> NonNegative(Flatten(s.workers[w].batches)))
  }

  lemma {:induction false} UnknownFrom(items: seq<Item>, clients: set<string>)
    ensures forall t :: t in Unknown(items, clients) ==> t in items
    decreases |items|
  {
    if items != [] {
      assert items == items[..|items| - 1] + [items[|items| - 1]];
      UnknownFrom(items[..|items| - 1], clients);
    }
  }

  lemma StepNonNegative(s: State, e: Event)
    requires Enabled(s, e) && AllNonNegative(s) && PushesNonNegative(e) && Prefixes(s)
    ensures AllNonNegative(Next(s, e))
  {
    match e
    case Push(node, batch) =>
      FlattenAppend(BufferOf(s, node), [batch]);
      assert Flatten([batch]) == batch by { assert [batch][..0] == []; assert [] + batch == batch; }
    case Range(_, _) =>
    case Del(w) =>
      var r := s.workers[w];
      var list := BufferOf(s, r.node);
      assert list == r.batches + list[|r.batches|..];
      FlattenAppend(r.batches, list[|r.batches|..]);
    case Apply(w, _, clients) => UnknownFrom(Flatten(s.workers[w].batches), clients);
    case Fail(_) =>
  }

  lemma {:induction false} RunNonNegative(states: seq<State>, events: seq<Event>)
    requires IsRun(states, events, 1) && forall i :: 0 <= i < |events| ==> PushesNonNegative(events[i])
    ensures forall i :: 0 <= i < |states| ==> AllNonNegative(states[i])
    decreases |events|
  {
    if events != [] {
      var n := |events| - 1;
      assert forall i :: 0 <= i <= n ==> states[..n + 1][i] == states[i];
      RunNonNegative(states[..n + 1], events[..n]);
      OneReaderAccounts(states, events, "");
      assert states[..n + 1][n] == states[n] && states[n + 1] == Next(states[n], events[n]);
      StepNonNegative(states[n], events[n]);
    }
  }

  ghost predicate NotOverCounted(s: State, email: string) {
    Get(s.used, email) + Waiting(s, email) <= BytesOf(s.pushed, email)
  }

  /** Then no byte of a client is counted twice, whatever reports arrive in between. */
  lemma NeverOverCounts(states: seq<State>, events: seq<Event>, email: string, i: nat)
    requires IsRun(states, events, 1) && i < |states|
    requires forall k :: 0 <= k < |events| ==> PushesNonNegative(events[k])
    ensures NotOverCounted(states[i], email)
  {
    OneReaderAccounts(states, events, email);
    RunNonNegative(states, events);
    NonNegativeBytes(states[i].lost, email);
    NonNegativeBytes(states[i].dropped, email);
  }

  /** Nobody pushes to a buffer between its LRANGE and its DEL, and every read item is applied. */
  ghost predicate Undisturbed(s: State, e: Event) {
    match e
    case Push(node, _) => forall w :: w in s.workers && s.workers[w].Ranged? ==> s.workers[w].node != node
    case Apply(w, nodeKnown, clients) =>
      nodeKnown && w in s.workers && forall t :: t in Flatten(s.workers[w].batches) ==> t.email in clients
    case Fail(w) => w in s.workers && s.workers[w].Ranged?
    case _ => true
  }

  ghost predicate NothingMissing(s: State) {
    && s.lost == [] && s.dropped == []
    && forall w :: w in s.workers && s.workers[w].Ranged? ==> s.workers[w].batches == BufferOf(s, s.workers[w].node)
  }

  lemma {:induction false} AllKnown(items: seq<Item>, clients: set<string>)
    requires forall t :: t in items ==> t.email in clients
    ensures Unknown(items, clients) == []
    decreases |items|
  {
    if items != [] {
      assert items == items[..|items| - 1] + [items[|items| - 1]];
      AllKnown(items[..|items| - 1], clients);
    }
  }

  lemma StepNothingMissing(s: State, e: Event)
    requires Enabled(s, e) && NothingMissing(s) && Undisturbed(s, e) && OneReader(s)
    ensures NothingMissing(Next(s, e))
  {
    match e
    case Push(_, _) =>
    case Range(_, _) =>
    case Del(w) => assert BufferOf(s, s.workers[w].node)[|s.workers[w].batches|..] == [];
    case Apply(w, _, clients) => AllKnown(Flatten(s.workers[w].batches), clients);
    case Fail(_) =>
  }

  lemma {:induction false} RunNothingMissing(states: seq<State>, events: seq<Event>, n: nat)
    requires IsRun(states, events, 1) && n < |states|
    requires forall i :: 0 <= i < |events| ==> Undisturbed(states[i], events[i])
    ensures NothingMissing(states[n])
    decreases n
  {
    if n > 0 {
      RunNothingMissing(states, events, n - 1);
      OneReaderIff(states[n - 1]);
      StepNothingMissing(states[n - 1], events[n - 1]);
    }
  }

  /** Then, and with one reader of each buffer, nothing is lost: applied and waiting bytes are exactly the
      pushed ones. */
  lemma CountsEverything(states: seq<State>, events: seq<Event>, email: string, n: nat)
    requires IsRun(states, events, 1) && n < |states|
    requires forall i :: 0 <= i < |events| ==> Undisturbed(states[i], events[i])
    ensures Get(states[n].used, email) + Waiting(states[n], email) == BytesOf(states[n].pushed, email)
  {
    OneReaderAccounts(states, events, email);
    RunNothingMissing(states, events, n);
    assert Accounted(states[n], email);
  }

  // ---------- Two readers of one buffer ----------

  /** Some run with at most n readers of any one buffer and no negative pushes ends in s. */
  ghost predicate Reachable(s: State, n: nat) {
    exists states, events ::
      IsRun(states, events, n) && (forall k :: 0 <= k < |events| ==> PushesNonNegative(events[k])) && states[|states| - 1] == s
  }

  lemma RunGrows(states: seq<State>, events: seq<Event>, e: Event, n: nat)
    requires IsRun(states, events, n) && Enabled(states[|events|], e) && FewReaders(Next(states[|events|], e), n)
    ensures IsRun(states + [Next(states[|events|], e)], events + [e], n)
  {
    var s := Next(states[|events|], e);
    var longer, events' := states + [s], events + [e];
    forall i | 0 <= i < |events'| ensures Enabled(longer[i], events'[i]) && longer[i + 1] == Next(longer[i], events'[i]) { }
    forall i | 0 <= i < |longer| ensures FewReaders(longer[i], n) {
      if i < |states| { assert longer[i] == states[i]; }
    }
  }

  lemma FewWorkers(s: State, n: nat)
    requires |s.workers| <= n
    ensures FewReaders(s, n)
  {
    forall node ensures |ReadersOf(s, node)| <= n { SubsetSize(ReadersOf(s, node), s.workers.Keys); }
  }

  lemma ReachNext(s: State, e: Event, n: nat)
    requires Reachable(s, n) && Enabled(s, e) && PushesNonNegative(e) && |Next(s, e).workers| <= n
    ensures Reachable(Next(s, e), n)
  {
    var states, events :|
      IsRun(states, events, n) && (forall k :: 0 <= k < |events| ==> PushesNonNegative(events[k])) && states[|states| - 1] == s;
    FewWorkers(Next(s, e), n);
    RunGrows(states, events, e, n);
  }

  lemma ReachEmpty(n: nat)
    ensures Reachable(EMPTY_STATE, n)
  {
    FewWorkers(EMPTY_STATE, n);
    assert IsRun([EMPTY_STATE], [], n);
  }

  const ONE_BYTE := [Item("a", 1, 0)]
  const READ := Ranged("n", [ONE_BYTE])
  const TOOK := Popped("n", [ONE_BYTE])

  /** Both workers range before either deletes. */
  lemma BothRange() returns (s: State)
    ensures Reachable(s, 2) && s.workers == map[0 := READ, 1 := READ]
    ensures s.buffers == map["n" := [ONE_BYTE]] && s.used == map[] && s.pushed == ONE_BYTE
  {
    ReachEmpty(2);
    ReachNext(EMPTY_STATE, Push("n", ONE_BYTE), 2);
    var s1 := Next(EMPTY_STATE, Push("n", ONE_BYTE));
    assert BufferOf(s1, "n") == [ONE_BYTE];
    ReachNext(s1, Range(0, "n"), 2);
    var s2 := Next(s1, Range(0, "n"));
    ReachNext(s2, Range(1, "n"), 2);
    s := Next(s2, Range(1, "n"));
  }

  lemma BothDelete(s: State) returns (s': State)
    requires Reachable(s, 2) && s.workers == map[0 := READ, 1 := READ] && s.buffers == map["n" := [ONE_BYTE]]
    ensures Reachable(s', 2) && s'.workers == map[0 := TOOK, 1 := TOOK]
    ensures s'.buffers == map["n" := []] && s'.used == s.used && s'.pushed == s.pushed
  {
    ReachNext(s, Del(0), 2);
    var s1 := Next(s, Del(0));
    ReachNext(s1, Del(1), 2);
    s' := Next(s1, Del(1));
  }

  lemma OneByteBooks()
    ensures Flatten([ONE_BYTE]) == ONE_BYTE && Known(ONE_BYTE, {"a"}) == ONE_BYTE && BytesOf(ONE_BYTE, "a") == 1
  {
    assert [ONE_BYTE][..0] == [] && ONE_BYTE[..0] == [];
    assert Known([], {"a"}) == [];
  }

  lemma ApplyOneByte(s: State, w: nat) returns (s': State)
    requires Reachable(s, 2) && w in s.workers && s.workers[w] == TOOK && |s.workers - {w}| <= 2
    ensures Reachable(s', 2) && s'.workers == s.workers - {w} && s'.buffers == s.buffers && s'.pushed == s.pushed
    ensures Get(s'.used, "a") == Get(s.used, "a") + 1
  {
    ReachNext(s, Apply(w, true, {"a"}), 2);
    s' := Next(s, Apply(w, true, {"a"}));
    OneByteBooks();
    AddItemsMeaning(s.used, ONE_BYTE, "a");
  }

  lemma NothingWaits(s: State)
    requires s.workers == map[] && s.buffers == map["n" := []]
    ensures Waiting(s, "a") == 0
  {
    assert InHandMap(s.workers, "a") == map[];
    assert BufferedMap(s.buffers, "a") == map["n" := 0];
    assert map["n" := 0] - {"n"} == map[];
    TotalRemove(map["n" := 0], "n");
  }

  /** Two workers that both range over a buffer before either deletes it apply the same byte twice. */
  lemma TwoReadersDoubleCount() returns (s: State)
    ensures Reachable(s, 2) && !NotOverCounted(s, "a")
  {
    var s1 := BothRange();
    var s2 := BothDelete(s1);
    assert s2.workers - {0} == map[1 := TOOK] && map[1 := TOOK] - {1} == map[];
    var s3 := ApplyOneByte(s2, 0);
    s := ApplyOneByte(s3, 1);
    OneByteBooks();
    NothingWaits(s);
  }

  lemma ReachWithMore(s: State, m: nat, n: nat)
    requires Reachable(s, m) && m <= n
    ensures Reachable(s, n)
  {
    var states, events :|
      IsRun(states, events, m) && (forall k :: 0 <= k < |events| ==> PushesNonNegative(events[k])) && states[|states| - 1] == s;
    forall i | 0 <= i < |states| ensures FewReaders(states[i], n) { assert FewReaders(states[i], m); }
    assert IsRun(states, events, n);
  }

  lemma OneReaderIsSafe(s: State, email: string)
    requires Reachable(s, 1)
    ensures NotOverCounted(s, email)
  {
    var states, events :|
      IsRun(states, events, 1) && (forall k :: 0 <= k < |events| ==> PushesNonNegative(events[k])) && states[|states| - 1] == s;
    NeverOverCounts(states, events, email, |states| - 1);
  }

  /** Exactly when the buffer route is safe from counting twice: at most one reader of any one buffer. */
  lemma SafeIffOneReader(n: nat)
    ensures (forall s, email :: Reachable(s, n) ==> NotOverCounted(s, email)) <==> n <= 1
  {
    if n <= 1 {
      forall s, email | Reachable(s, n) ensures NotOverCounted(s, email) {
        ReachWithMore(s, n, 1);
        OneReaderIsSafe(s, email);
      }
    } else {
      var s := TwoReadersDoubleCount();
      ReachWithMore(s, 2, n);
    }
  }

  // ---------- The aggregated map ----------

  datatype Traffic = Traffic(upload: int, download: int)

  function TrafficOf(agg: map<string, Traffic>, email: string): Traffic {
    if email in agg then agg[email] else Traffic(0, 0)
  }

  function AggBytes(agg: map<string, Traffic>, email: string): int {
    TrafficOf(agg, email).upload + TrafficOf(agg, email).download
  }

  class Usage {
    var used: map<string, int>

    constructor ()
      ensures used == map[]
    {
      used := map[];
    }

    method AggregateBatch(agg: map<string, Traffic>, batch: Batch) returns (r: map<string, Traffic>)
      requires "" !in agg
      ensures "" !in r && forall email :: AggBytes(r, email) == AggBytes(agg, email) + BytesOf(batch, email)
    {
      r := agg;
      for i := 0 to |batch|
        invariant "" !in r && forall email :: AggBytes(r, email) == AggBytes(agg, email) + BytesOf(batch[..i], email)
      {
        assert batch[..i + 1][..i] == batch[..i];
        var item := batch[i];
        if item.email != "" {
          var existing := TrafficOf(r, item.email);
          r := r[item.email := Traffic(existing.upload + item.upload, existing.download + item.download)];
        }
      }
      assert batch[..|batch|] == batch;
    }

    method Aggregate(batches: seq<Batch>) returns (agg: map<string, Traffic>)
      ensures "" !in agg && forall email :: AggBytes(agg, email) == BytesOf(Flatten(batches), email)
    {
      agg := map[];
      for i := 0 to |batches|
        invariant "" !in agg && forall email :: AggBytes(agg, email) == BytesOf(Flatten(batches[..i]), email)
      {
        assert batches[..i + 1][..i] == batches[..i];
        forall email { BytesAppend(Flatten(batches[..i]), batches[i], email); }
        agg := AggregateBatch(agg, batches[i]);
      }
      assert batches[..|batches|] == batches;
    }

    /** One drained node. Adding each client's aggregate once, in any order, leaves every usage as
        counting the known clients' items one by one would. */
    method ProcessNodeTraffic(batches: seq<Batch>, nodeKnown: bool, clients: set<string>)
      modifies this
      ensures forall email :: Get(used, email) ==
                if nodeKnown then Get(AddItems(old(used), Known(Flatten(batches), clients)), email) else Get(old(used), email)
    {
      if !nodeKnown { return; }
      var agg := Aggregate(batches);
      var rest := agg.Keys;
      while rest != {}
        invariant rest <= agg.Keys
        invariant forall email :: Get(used, email) == Get(old(used), email)
                    + (if email in agg && email in clients && email !in rest then AggBytes(agg, email) else 0)
        decreases rest
      {
        var email :| email in rest;
        rest := rest - {email};
        if email in clients {
          var traffic := agg[email];
          used := used[email := Get(used, email) + (traffic.upload + traffic.download)];
        }
      }
      forall email ensures Get(used, email) == Get(AddItems(old(used), Known(Flatten(batches), clients)), email) {
        KnownOrUnknown(Flatten(batches), clients, email);
        AddItemsMeaning(old(used), Known(Flatten(batches), clients), email);
        if email !in agg { assert AggBytes(agg, email) == 0; }
      }
    }
  }

  // ---------- Whose client an email is ----------

  /** A client by its key: an email is unique within its tenant only. */
  datatype Account = Account(tenant: string, email: string)

  predicate UniqueInTenant(accounts: map<nat, Account>) {
    forall i, j :: i in accounts && j in accounts && accounts[i] == accounts[j] ==> i == j
  }

  predicate Exists(accounts: map<nat, Account>, email: string) {
    exists id :: id in accounts && accounts[id].email == email
  }

  predicate IsHit(accounts: map<nat, Account>, email: string, id: nat) {
    id in accounts && accounts[id].email == email
  }

  /** For every aggregated email some client of that email, of whichever tenant, if there is one. */
  ghost predicate Answers(accounts: map<nat, Account>, agg: map<string, Traffic>, found: map<string, nat>) {
    && (forall email :: email in found <==> email in agg && Exists(accounts, email))
    && (forall email :: email in found ==> IsHit(accounts, email, found[email]))
  }

  function Gain(agg: map<string, Traffic>, found: map<string, nat>, id: nat, email: string): int {
    if email in found && found[email] == id then AggBytes(agg, email) else 0
  }

  class Clients {
    const accounts: map<nat, Account>
    var used: map<nat, int>

    constructor (accounts: map<nat, Account>)
      ensures this.accounts == accounts && used == map[]
    {
      this.accounts, used := accounts, map[];
    }

    /** Credits each aggregated email to the first client the database finds, in any order of the emails. */
    method Credit(agg: map<string, Traffic>) returns (ghost found: map<string, nat>)
      modifies this
      ensures Answers(accounts, agg, found)
      ensures forall id :: id in accounts ==> Get(used, id) == Get(old(used), id) + Gain(agg, found, id, accounts[id].email)
    {
      found := map[];
      var rest := agg.Keys;
      while rest != {}
        invariant rest <= agg.Keys && forall email :: email in found <==> email in agg && email !in rest && Exists(accounts, email)
        invariant forall email :: email in found ==> IsHit(accounts, email, found[email])
        invariant forall id :: id in accounts ==> Get(used, id) == Get(old(used), id) + Gain(agg, found, id, accounts[id].email)
        decreases rest
      {
        var email :| email in rest;
        rest := rest - {email};
        if exists id :: id in accounts && accounts[id].email == email {
          var id :| id in accounts && accounts[id].email == email;
          var traffic := agg[email];
          used := used[id := Get(used, id) + (traffic.upload + traffic.download)];
          found := found[email := id];
        }
      }
    }
  }

  /** Every client of the tenant gains exactly the bytes reported for its email, and nobody else gains any. */
  ghost predicate StaysInTenant(accounts: map<nat, Account>, agg: map<string, Traffic>, found: map<string, nat>, tenant: string) {
    forall id :: id in accounts ==>
      Gain(agg, found, id, accounts[id].email) == if accounts[id].tenant == tenant then AggBytes(agg, accounts[id].email) else 0
  }

  ghost function SomeHit(accounts: map<nat, Account>, email: string): (id: nat)
    requires Exists(accounts, email)
    ensures IsHit(accounts, email, id)
  {
    var id :| id in accounts && accounts[id].email == email;
    id
  }

  lemma ForeignHit(accounts: map<nat, Account>, agg: map<string, Traffic>, id: nat) returns (found: map<string, nat>)
    requires id in accounts && accounts[id].email in agg
    ensures Answers(accounts, agg, found) && found[accounts[id].email] == id
  {
    found := map email | email in agg && Exists(accounts, email) :: if email == accounts[id].email then id else SomeHit(accounts, email);
  }

  /** A node's bytes are sure to stay with the clients of its tenant exactly when no client of another tenant has
      an email for which bytes are reported. */
  lemma StaysInTenantIff(accounts: map<nat, Account>, agg: map<string, Traffic>, tenant: string)
    requires UniqueInTenant(accounts)
    ensures (forall found :: Answers(accounts, agg, found) ==> StaysInTenant(accounts, agg, found, tenant))
       <==> forall id :: id in accounts && accounts[id].tenant != tenant ==> AggBytes(agg, accounts[id].email) == 0
  {
    if forall found :: Answers(accounts, agg, found) ==> StaysInTenant(accounts, agg, found, tenant) {
      forall id | id in accounts && accounts[id].tenant != tenant ensures AggBytes(agg, accounts[id].email) == 0 {
        if accounts[id].email in agg {
          var found := ForeignHit(accounts, agg, id);
          assert StaysInTenant(accounts, agg, found, tenant);
          assert Gain(agg, found, id, accounts[id].email) == AggBytes(agg, accounts[id].email);
        }
      }
    }
    if forall id :: id in accounts && accounts[id].tenant != tenant ==> AggBytes(agg, accounts[id].email) == 0 {
      forall found, id | Answers(accounts, agg, found) && id in accounts
        ensures Gain(agg, found, id, accounts[id].email) == if accounts[id].tenant == tenant then AggBytes(agg, accounts[id].email) else 0
      {
        var email := accounts[id].email;
        if email in found {
          assert IsHit(accounts, email, found[email]);
        } else if email in agg {
          assert Exists(accounts, email);
        }
      }
    }
  }
}
