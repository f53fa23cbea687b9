/** Requests, releases and deletions running at the same time. Every read and every transaction
    is one step; anything may happen between two steps of the same call. */
module AllocationRaces {
  import opened Sums
  import opened Allocator

  /** A request between its read and its last transaction: the rows it still has to take. */
  datatype Request = Request(tenant: string, picks: seq<Snap>, order: Option<nat>)

  /** `stale[p]` counts the release transactions on row p that hit an allocation already released. */
  datatype State = State(
    db: Db,
    requests: map<nat, Request>,
    releases: map<nat, nat>,
    deletes: map<nat, nat>,
    stale: map<nat, nat>)

  datatype Event =
    | Added(tenant: string, proxies: seq<NewProxy>)
    | Began(call: nat, q: Query, rows: seq<nat>, quantity: int, order: Option<nat>)
    | Picked(call: nat)
    | Ended(call: nat)
    | FoundRelease(call: nat, tenant: string, allocation: nat)
    | CommittedRelease(call: nat)
    | FoundDelete(call: nat, tenant: string, pool: nat)
    | CommittedDelete(call: nat)

  ghost predicate Enabled(s: State, e: Event) {
    match e
    case Added(_, _) => true
    case Began(call, q, rows, quantity, _) =>
      call !in s.requests && IsAnswer(s.db, q, rows) && quantity <= |Allocatable(s.db, rows)|
    case Picked(call) => call in s.requests && s.requests[call].picks != []
    case Ended(call) => call in s.requests
    case FoundRelease(call, tenant, a) => call !in s.releases && Releasable(s.db, tenant, a)
    case CommittedRelease(call) => call in s.releases
    case FoundDelete(call, tenant, pool) =>
      && call !in s.deletes && pool in s.db.pools
      && s.db.pools[pool].tenant == tenant && s.db.pools[pool].currentAllocations <= 0
    case CommittedDelete(call) => call in s.deletes
  }

  function StaleOn(s: State, pool: nat): nat {
    if pool in s.stale then s.stale[pool] else 0
  }

  /** A transaction on a row that is gone fails and ends its call. */
  function PickNext(s: State, call: nat): State
    requires call in s.requests && s.requests[call].picks != []
  {
    var r := s.requests[call];
    if r.picks[0].id in s.db.pools
    then s.(db := TakeOne(s.db, r.tenant, r.picks[0], r.order), requests := s.requests[call := r.(picks := r.picks[1..])])
    else s.(requests := s.requests - {call})
  }

  function ReleaseNext(s: State, call: nat): State
    requires call in s.releases
  {
    var a := s.releases[call];
    var s' := s.(releases := s.releases - {call});
    if a in s.db.allocations && s.db.allocations[a].poolId in s.db.pools then
      var pool := s.db.allocations[a].poolId;
      s'.(db := CommitRelease(s.db, a),
          stale := if s.db.allocations[a].active then s.stale else s.stale[pool := StaleOn(s, pool) + 1])
    else s'
  }

  function Begin(s: State, call: nat, q: Query, rows: seq<nat>, quantity: int, order: Option<nat>): State
    requires forall id :: id in rows ==> id in s.db.pools
  {
    s.(requests := s.requests[call := Request(q.tenant, SnapsOf(s.db, Chosen(s.db, rows, quantity)), order)])
  }

  function Next(s: State, e: Event): State
    requires Enabled(s, e)
  {
    match e
    case Added(tenant, proxies) => s.(db := AddAll(s.db, tenant, proxies))
    case Began(call, q, rows, quantity, order) => Begin(s, call, q, rows, quantity, order)
    case Picked(call) => PickNext(s, call)
    case Ended(call) => s.(requests := s.requests - {call})
    case FoundRelease(call, _, a) => s.(releases := s.releases[call := a])
    case CommittedRelease(call) => ReleaseNext(s, call)
    case FoundDelete(call, _, pool) => s.(deletes := s.deletes[call := pool])
    case CommittedDelete(call) =>
      s.(db := DeletePool(s.db, s.deletes[call]), deletes := s.deletes - {call})
  }

  ghost predicate IsStart(s: State) {
    BooksBalance(s.db) && s.requests == map[] && s.releases == map[] && s.deletes == map[] && s.stale == map[]
  }

  ghost predicate IsRun(states: seq<State>, events: seq<Event>) {
    && |states| == |events| + 1
    && IsStart(states[0])
    && forall i :: 0 <= i < |events| ==> Enabled(states[i], events[i]) && states[i + 1] == Next(states[i], events[i])
  }

  // ---------- What every step keeps ----------

  predicate Wants(r: Request, pool: nat) {
    exists i :: 0 <= i < |r.picks| && r.picks[i].id == pool
  }

  ghost function PendingOn(s: State, pool: nat): set<nat> {
    set call | call in s.requests && Wants(s.requests[call], pool)
  }

  predicate SoundRequest(r: Request, nextPool: nat) {
    && (forall i, j :: 0 <= i < j < |r.picks| ==> r.picks[i].id != r.picks[j].id)
    && (forall i :: 0 <= i < |r.picks| ==> r.picks[i].id < nextPool)
  }

  /** Foreign keys hold and every id in use has been handed out. */
  ghost predicate SoundRows(db: Db) {
    && (forall id :: id in db.pools ==> id < db.nextPool && 1 <= db.pools[id].maxAllocations)
    && (forall a {:trigger db.allocations[a]} :: a in db.allocations ==>
          a < db.nextAllocation && db.allocations[a].poolId in db.pools)
  }

  ghost predicate Sound(s: State) {
    && SoundRows(s.db)
    && (forall call :: call in s.requests ==> SoundRequest(s.requests[call], s.db.nextPool))
    && (forall p :: p in s.stale ==> p < s.db.nextPool)
  }

  lemma RowsStaySound(s: State, e: Event)
    requires SoundRows(s.db) && Enabled(s, e)
    ensures SoundRows(Next(s, e).db) && s.db.nextPool <= Next(s, e).db.nextPool
  {
    match e
    case Added(tenant, proxies) =>
      assert forall i :: 0 <= i < |proxies| ==> 1 <= FreshPools(tenant, proxies)[i].maxAllocations;
    case _ =>
  }

  lemma RequestsStaySound(s: State, e: Event, call: nat)
    requires Sound(s) && Enabled(s, e) && call in Next(s, e).requests
    ensures SoundRequest(Next(s, e).requests[call], s.db.nextPool)
  {
    var r := Next(s, e).requests[call];
    if e.Began? && call == e.call {
      var chosen := Chosen(s.db, e.rows, e.quantity);
      forall i | 0 <= i < |r.picks| ensures r.picks[i].id == chosen[i] && chosen[i] in s.db.pools {
        assert chosen[i] in e.rows;
      }
    } else {
      assert SoundRequest(s.requests[call], s.db.nextPool);
      if e.Picked? && call == e.call {
        assert forall i :: 0 <= i < |r.picks| ==> r.picks[i] == s.requests[call].picks[i + 1];
      }
    }
  }

  lemma StepSound(s: State, e: Event)
    requires Sound(s) && Enabled(s, e)
    ensures Sound(Next(s, e))
  {
    var s' := Next(s, e);
    RowsStaySound(s, e);
    forall call | call in s'.requests ensures SoundRequest(s'.requests[call], s'.db.nextPool) {
      RequestsStaySound(s, e, call);
    }
  }

  // ---------- The oversell bound ----------

  ghost predicate Bounded(s: State, k: nat) {
    forall p :: p in s.db.pools ==>
      s.db.pools[p].currentAllocations + |PendingOn(s, p)| <= s.db.pools[p].maxAllocations + k - 1
  }

  lemma PendingAtMostRequests(s: State, pool: nat)
    ensures |PendingOn(s, pool)| <= |s.requests|
  {
    assert PendingOn(s, pool) <= s.requests.Keys;
    SubsetSize(PendingOn(s, pool), s.requests.Keys);
  }

  lemma {:induction false} SubsetSize<T>(a: set<T>, b: set<T>)
    requires a <= b
    ensures |a| <= |b|
  {
    assert b == a + (b - a);
  }

  lemma NewKey<T>(m: map<nat, T>, call: nat, r: T)
    requires call !in m
    ensures |m[call := r]| == |m| + 1
  {
    assert m[call := r].Keys == m.Keys + {call};
  }

  lemma NewRequestPending(s: State, s': State, call: nat, r: Request, p: nat)
    requires call !in s.requests && s'.requests == s.requests[call := r]
    ensures |PendingOn(s', p)| == |PendingOn(s, p)| + (if Wants(r, p) then 1 else 0)
  {
    assert PendingOn(s', p) == PendingOn(s, p) + (if Wants(r, p) then {call} else {});
  }

  lemma BeginPending(s: State, call: nat, q: Query, rows: seq<nat>, quantity: int, order: Option<nat>, p: nat)
    requires call !in s.requests && forall id :: id in rows ==> id in s.db.pools
    ensures var s' := Begin(s, call, q, rows, quantity, order);
            && |s'.requests| == |s.requests| + 1
            && |PendingOn(s', p)| <= |PendingOn(s, p)| + (if p in Chosen(s.db, rows, quantity) then 1 else 0)
  {
    var s' := Begin(s, call, q, rows, quantity, order);
    var r := Request(q.tenant, SnapsOf(s.db, Chosen(s.db, rows, quantity)), order);
    NewKey(s.requests, call, r);
    NewRequestPending(s, s', call, r, p);
    if Wants(r, p) {
      var i :| 0 <= i < |r.picks| && r.picks[i].id == p;
      assert Chosen(s.db, rows, quantity)[i] == p;
    }
  }

  lemma BeginBounded(s: State, call: nat, q: Query, rows: seq<nat>, quantity: int, order: Option<nat>, k: nat, p: nat)
    requires call !in s.requests && IsAnswer(s.db, q, rows) && Bounded(s, k) && p in s.db.pools
    requires |Begin(s, call, q, rows, quantity, order).requests| <= k
    ensures s.db.pools[p].currentAllocations + |PendingOn(Begin(s, call, q, rows, quantity, order), p)|
         <= s.db.pools[p].maxAllocations + k - 1
  {
    BeginPending(s, call, q, rows, quantity, order, p);
    PendingAtMostRequests(s, p);
    if p in Chosen(s.db, rows, quantity) {
      assert p in Allocatable(s.db, rows);
      assert HasRoom(s.db.pools[p]);
    }
  }

  lemma PickPending(s: State, call: nat, p: nat)
    requires Sound(s) && call in s.requests && s.requests[call].picks != []
    requires s.requests[call].picks[0].id in s.db.pools
    ensures |PendingOn(PickNext(s, call), p)|
         == |PendingOn(s, p)| - (if p == s.requests[call].picks[0].id then 1 else 0)
  {
    var s', r := PickNext(s, call), s.requests[call];
    assert SoundRequest(r, s.db.nextPool);
    assert Wants(r, r.picks[0].id);
    if p == r.picks[0].id {
      assert !Wants(s'.requests[call], p);
      assert PendingOn(s', p) == PendingOn(s, p) - {call};
    } else {
      if Wants(r, p) {
        var i :| 0 <= i < |r.picks| && r.picks[i].id == p;
        assert s'.requests[call].picks[i - 1].id == p;
      }
      assert PendingOn(s', p) == PendingOn(s, p);
    }
  }

  lemma PendingShrinks(s: State, s': State, p: nat)
    requires s'.requests.Keys <= s.requests.Keys
    requires forall call :: call in s'.requests ==> s'.requests[call] == s.requests[call]
    ensures |PendingOn(s', p)| <= |PendingOn(s, p)|
  {
    SubsetSize(PendingOn(s', p), PendingOn(s, p));
  }

  lemma FreshPoolUnwanted(s: State, p: nat)
    requires Sound(s) && s.db.nextPool <= p
    ensures PendingOn(s, p) == {}
  {
    forall call | call in s.requests ensures !Wants(s.requests[call], p) {
      assert SoundRequest(s.requests[call], s.db.nextPool);
    }
  }

  lemma PickBounded(s: State, call: nat, k: nat, p: nat)
    requires Sound(s) && Bounded(s, k) && call in s.requests && s.requests[call].picks != [] && p in s.db.pools
    ensures PickNext(s, call).db.pools[p].currentAllocations + |PendingOn(PickNext(s, call), p)|
         <= PickNext(s, call).db.pools[p].maxAllocations + k - 1
  {
    if s.requests[call].picks[0].id in s.db.pools {
      PickPending(s, call, p);
    } else {
      PendingShrinks(s, PickNext(s, call), p);
    }
  }

  lemma AddBounded(s: State, tenant: string, proxies: seq<NewProxy>, k: nat, p: nat)
    requires Sound(s) && Bounded(s, k) && 1 <= k && p in AddAll(s.db, tenant, proxies).pools
    ensures var s' := s.(db := AddAll(s.db, tenant, proxies));
            s'.db.pools[p].currentAllocations + |PendingOn(s', p)| <= s'.db.pools[p].maxAllocations + k - 1
  {
    var s' := s.(db := AddAll(s.db, tenant, proxies));
    assert PendingOn(s', p) == PendingOn(s, p);
    if p !in s.db.pools {
      FreshPoolUnwanted(s, p);
      assert s'.db.pools[p] == FreshPools(tenant, proxies)[p - s.db.nextPool];
    }
  }

  lemma StepBounded(s: State, e: Event, k: nat)
    requires Sound(s) && Enabled(s, e) && Bounded(s, k) && 1 <= k
    requires |Next(s, e).requests| <= k
    ensures Bounded(Next(s, e), k)
  {
    match e
    case Added(tenant, proxies) =>
      forall p | p in Next(s, e).db.pools { AddBounded(s, tenant, proxies, k, p); }
    case Began(call, q, rows, quantity, order) =>
      forall p | p in s.db.pools { BeginBounded(s, call, q, rows, quantity, order, k, p); }
    case Picked(call) =>
      forall p | p in Next(s, e).db.pools { PickBounded(s, call, k, p); }
    case _ =>
      OthersBounded(s, e, k);
  }

  lemma OthersBounded(s: State, e: Event, k: nat)
    requires Enabled(s, e) && Bounded(s, k)
    requires !e.Added? && !e.Began? && !e.Picked?
    ensures Bounded(Next(s, e), k)
  {
    forall p | p in Next(s, e).db.pools
      ensures Next(s, e).db.pools[p].currentAllocations + |PendingOn(Next(s, e), p)|
           <= Next(s, e).db.pools[p].maxAllocations + k - 1
    {
      PendingShrinks(s, Next(s, e), p);
    }
  }

  lemma StartSound(s: State, k: nat)
    requires IsStart(s) && 1 <= k
    ensures Sound(s) && Bounded(s, k)
  {
    forall id | id in s.db.pools ensures id < s.db.nextPool && 1 <= s.db.pools[id].maxAllocations {
      assert PoolInBooks(s.db, id);
    }
    forall a | a in s.db.allocations ensures a < s.db.nextAllocation && s.db.allocations[a].poolId in s.db.pools {
      assert AllocationInBooks(s.db, a);
    }
    forall p | p in s.db.pools ensures s.db.pools[p].currentAllocations + |PendingOn(s, p)| <= s.db.pools[p].maxAllocations + k - 1 {
      assert PoolInBooks(s.db, p);
      assert PendingOn(s, p) == {};
    }
  }

  /** With at most k requests under way, no row is ever promised more than k - 1 slots too many:
      its counter plus the picks still due never exceed maxAllocations + k - 1. */
  lemma {:induction false} OversellBound(states: seq<State>, events: seq<Event>, k: nat)
    requires IsRun(states, events) && 1 <= k
    requires forall i :: 0 <= i < |states| ==> |states[i].requests| <= k
    ensures forall i :: 0 <= i < |states| ==> Sound(states[i]) && Bounded(states[i], k)
    decreases |events|
  {
    if events == [] {
      StartSound(states[0], k);
    } else {
      var n := |events| - 1;
      assert forall i :: 0 <= i <= n ==> states[..n + 1][i] == states[i];
      OversellBound(states[..n + 1], events[..n], k);
      assert states[..n + 1][n] == states[n] && states[n + 1] == Next(states[n], events[n]);
      StepSound(states[n], events[n]);
      StepBounded(states[n], events[n], k);
    }
  }

  // ---------- Counter against active allocations ----------

  ghost predicate DriftIsStale(s: State) {
    forall p {:trigger ActiveOn(s.db, p)} :: p in s.db.pools ==>
      |ActiveOn(s.db, p)| == s.db.pools[p].currentAllocations + StaleOn(s, p)
  }

  lemma ReleaseDrift(s: State, call: nat)
    requires Sound(s) && DriftIsStale(s) && call in s.releases
    ensures DriftIsStale(ReleaseNext(s, call))
  {
    var s', a := ReleaseNext(s, call), s.releases[call];
    if a in s.db.allocations {
      var row := s.db.allocations[a];
      forall p | p in s'.db.pools ensures |ActiveOn(s'.db, p)| == s'.db.pools[p].currentAllocations + StaleOn(s', p) {
        assert |ActiveOn(s.db, p)| == s.db.pools[p].currentAllocations + StaleOn(s, p);
        assert row.active ==> a in ActiveOn(s.db, row.poolId);
        assert ActiveOn(s'.db, p) == ActiveOn(s.db, p) - (if p == row.poolId && row.active then {a} else {});
      }
    }
  }

  lemma StepDrift(s: State, e: Event)
    requires Sound(s) && Enabled(s, e) && DriftIsStale(s)
    ensures DriftIsStale(Next(s, e))
  {
    var s' := Next(s, e);
    if e.CommittedRelease? {
      ReleaseDrift(s, e.call);
    } else {
      forall p | p in s'.db.pools ensures |ActiveOn(s'.db, p)| == s'.db.pools[p].currentAllocations + StaleOn(s', p) {
        match e
        case Added(_, _) => AddDrift(s, e, p);
        case Picked(call) =>
          var r := s.requests[call];
          if r.picks[0].id in s.db.pools { PickDrift(s, call, p); }
        case CommittedDelete(call) =>
          assert p != s.deletes[call];
          assert ActiveOn(s'.db, p) == ActiveOn(s.db, p);
        case _ =>
      }
    }
  }

  lemma AddDrift(s: State, e: Event, p: nat)
    requires Sound(s) && DriftIsStale(s) && e.Added? && p in Next(s, e).db.pools
    ensures |ActiveOn(Next(s, e).db, p)| == Next(s, e).db.pools[p].currentAllocations + StaleOn(s, p)
  {
    var s' := Next(s, e);
    assert ActiveOn(s'.db, p) == ActiveOn(s.db, p);
    if p !in s.db.pools {
      assert ActiveOn(s.db, p) == {};
    }
  }

  lemma PickDrift(s: State, call: nat, p: nat)
    requires Sound(s) && DriftIsStale(s) && call in s.requests && s.requests[call].picks != []
    requires s.requests[call].picks[0].id in s.db.pools && p in s.db.pools
    ensures |ActiveOn(PickNext(s, call).db, p)| == PickNext(s, call).db.pools[p].currentAllocations + StaleOn(s, p)
  {
    var r := s.requests[call];
    assert |ActiveOn(s.db, p)| == s.db.pools[p].currentAllocations + StaleOn(s, p);
    ActiveAfterTake(s.db, r.tenant, r.picks[0], r.order, p);
  }

  /** In every interleaving a row's active allocations are its counter plus the release
      transactions that came too late. */
  lemma {:induction false} CounterDrift(states: seq<State>, events: seq<Event>)
    requires IsRun(states, events)
    ensures forall i :: 0 <= i < |states| ==> Sound(states[i]) && DriftIsStale(states[i])
    decreases |events|
  {
    if events == [] {
      var s := states[0];
      StartSound(s, 1);
      forall p | p in s.db.pools ensures |ActiveOn(s.db, p)| == s.db.pools[p].currentAllocations + StaleOn(s, p) {
        assert PoolInBooks(s.db, p);
      }
    } else {
      var n := |events| - 1;
      assert forall i :: 0 <= i <= n ==> states[..n + 1][i] == states[i];
      CounterDrift(states[..n + 1], events[..n]);
      assert states[..n + 1][n] == states[n] && states[n + 1] == Next(states[n], events[n]);
      StepSound(states[n], events[n]);
      StepDrift(states[n], events[n]);
    }
  }

  /** Both laws together bound what customers really hold. */
  lemma ActiveBound(states: seq<State>, events: seq<Event>, k: nat, i: nat, p: nat)
    requires IsRun(states, events) && 1 <= k && i < |states| && p in states[i].db.pools
    requires forall j :: 0 <= j < |states| ==> |states[j].requests| <= k
    ensures |ActiveOn(states[i].db, p)| + |PendingOn(states[i], p)|
         <= states[i].db.pools[p].maxAllocations + k - 1 + StaleOn(states[i], p)
  {
    OversellBound(states, events, k);
    CounterDrift(states, events);
    assert DriftIsStale(states[i]) && Bounded(states[i], k);
  }

  // ---------- When the counter is exact ----------

  ghost predicate Exact(s: State) {
    forall p {:trigger ActiveOn(s.db, p)} :: p in s.db.pools ==> |ActiveOn(s.db, p)| == s.db.pools[p].currentAllocations
  }

  ghost predicate NothingStale(s: State) {
    && (forall p :: p in s.stale ==> s.stale[p] == 0)
    && (forall call :: call in s.releases ==> s.releases[call] < s.db.nextAllocation)
  }

  /** Every release under way still finds its allocation active, and no two name the same one; an
      allocation that a deletion took away does not count. */
  predicate SafeReleases(s: State) {
    && (forall c :: c in s.releases && s.releases[c] in s.db.allocations ==> s.db.allocations[s.releases[c]].active)
    && (forall c, d :: c in s.releases && d in s.releases && c != d && s.releases[c] == s.releases[d] ==>
          s.releases[c] !in s.db.allocations)
  }

  /** No release starts on an allocation that is already being released. */
  predicate Courteous(s: State, e: Event) {
    e.FoundRelease? ==> forall c :: c in s.releases ==> s.releases[c] != e.allocation
  }

  lemma CommitSafe(s: State, call: nat)
    requires SoundRows(s.db) && call in s.releases && NothingStale(s) && SafeReleases(s)
    ensures NothingStale(ReleaseNext(s, call)) && SafeReleases(ReleaseNext(s, call))
  {
    var s', a := ReleaseNext(s, call), s.releases[call];
    forall c | c in s'.releases && s'.releases[c] in s'.db.allocations ensures s'.db.allocations[s'.releases[c]].active {
      assert s'.releases[c] == s.releases[c];
      if s.releases[c] == a { assert false; }
    }
  }

  lemma StepSafe(s: State, e: Event)
    requires Sound(s) && Enabled(s, e) && Courteous(s, e) && NothingStale(s) && SafeReleases(s)
    ensures NothingStale(Next(s, e)) && SafeReleases(Next(s, e))
  {
    match e
    case CommittedRelease(call) => CommitSafe(s, call);
    case Picked(call) => PickSafe(s, call);
    case FoundRelease(_, _, _) => FoundSafe(s, e);
    case _ =>
  }

  lemma PickSafe(s: State, call: nat)
    requires Enabled(s, Picked(call)) && NothingStale(s) && SafeReleases(s)
    ensures NothingStale(PickNext(s, call)) && SafeReleases(PickNext(s, call))
  {
    var s' := PickNext(s, call);
    forall c | c in s'.releases ensures s'.releases[c] != s.db.nextAllocation && s'.releases[c] < s'.db.nextAllocation { }
  }

  lemma FoundSafe(s: State, e: Event)
    requires e.FoundRelease? && Sound(s) && Enabled(s, e) && Courteous(s, e) && NothingStale(s) && SafeReleases(s)
    ensures NothingStale(Next(s, e)) && SafeReleases(Next(s, e))
  {
  }

  ghost predicate Continues(s: State, states: seq<State>, events: seq<Event>) {
    && |states| == |events| + 1
    && states[0] == s
    && forall i :: 0 <= i < |events| ==>
         Enabled(states[i], events[i]) && Courteous(states[i], events[i]) && states[i + 1] == Next(states[i], events[i])
  }

  ghost predicate Healthy(s: State) {
    Sound(s) && DriftIsStale(s) && NothingStale(s)
  }

  lemma StepHealthy(s: State, e: Event)
    requires Healthy(s) && SafeReleases(s) && Enabled(s, e) && Courteous(s, e)
    ensures Healthy(Next(s, e)) && SafeReleases(Next(s, e))
  {
    StepSound(s, e);
    StepDrift(s, e);
    StepSafe(s, e);
  }

  lemma HealthyIsExact(s: State)
    requires DriftIsStale(s) && NothingStale(s)
    ensures Exact(s)
  {
    forall p | p in s.db.pools ensures |ActiveOn(s.db, p)| == s.db.pools[p].currentAllocations {
      assert |ActiveOn(s.db, p)| == s.db.pools[p].currentAllocations + StaleOn(s, p);
    }
  }

  lemma {:induction false} SafeStaysExact(s: State, states: seq<State>, events: seq<Event>, n: nat)
    requires Healthy(s) && SafeReleases(s) && Continues(s, states, events) && n <= |events|
    ensures Healthy(states[n]) && SafeReleases(states[n]) && Exact(states[n])
    decreases n
  {
    if n > 0 {
      SafeStaysExact(s, states, events, n - 1);
      StepHealthy(states[n - 1], events[n - 1]);
    }
    HealthyIsExact(states[n]);
  }

  /** A release that commits on an allocation already released lowers the counter once too often. */
  lemma LateCommitDrifts(s: State, c: nat)
    requires SoundRows(s.db) && Exact(s) && c in s.releases
    requires s.releases[c] in s.db.allocations && !s.db.allocations[s.releases[c]].active
    ensures !Exact(ReleaseNext(s, c))
  {
    var s', p := ReleaseNext(s, c), s.db.allocations[s.releases[c]].poolId;
    assert |ActiveOn(s.db, p)| == s.db.pools[p].currentAllocations;
    assert ActiveOn(s'.db, p) == ActiveOn(s.db, p);
  }

  lemma LateCommitRun(s: State, c: nat) returns (states: seq<State>, events: seq<Event>)
    requires Healthy(s) && c in s.releases
    requires s.releases[c] in s.db.allocations && !s.db.allocations[s.releases[c]].active
    ensures Continues(s, states, events) && |states| == 2 && !Exact(states[1])
  {
    HealthyIsExact(s);
    LateCommitDrifts(s, c);
    states, events := [s, ReleaseNext(s, c)], [CommittedRelease(c)];
  }

  lemma TwiceCommitRun(s: State, c: nat, d: nat) returns (states: seq<State>, events: seq<Event>)
    requires Healthy(s) && c in s.releases && d in s.releases && c != d && s.releases[c] == s.releases[d]
    requires s.releases[c] in s.db.allocations && s.db.allocations[s.releases[c]].active
    ensures Continues(s, states, events) && |states| == 3 && !Exact(states[2])
  {
    var s1 := ReleaseNext(s, c);
    StepSound(s, CommittedRelease(c));
    StepDrift(s, CommittedRelease(c));
    assert s1 == Next(s, CommittedRelease(c)) && NothingStale(s1);
    HealthyIsExact(s1);
    LateCommitDrifts(s1, d);
    states, events := [s, s1, ReleaseNext(s1, d)], [CommittedRelease(c), CommittedRelease(d)];
    TwoSteps(s, s1, c, d, states, events);
  }

  lemma TwoSteps(s: State, s1: State, c: nat, d: nat, states: seq<State>, events: seq<Event>)
    requires c in s.releases && s1 == ReleaseNext(s, c) && d in s1.releases
    requires states == [s, s1, ReleaseNext(s1, d)] && events == [CommittedRelease(c), CommittedRelease(d)]
    ensures Continues(s, states, events)
  {
    forall i | 0 <= i < |events|
      ensures Enabled(states[i], events[i]) && Courteous(states[i], events[i]) && states[i + 1] == Next(states[i], events[i])
    {
      if i == 0 { assert states[1] == s1; } else { assert states[2] == ReleaseNext(s1, d); }
    }
  }

  ghost predicate Drifts(s: State, states: seq<State>, events: seq<Event>) {
    Continues(s, states, events) && exists i :: 0 <= i < |states| && !Exact(states[i])
  }

  /** Exactly when the counters are safe: as long as no release starts on an allocation being released, every
      continuation keeps every counter equal to the active allocations behind it if and only if no two
      releases under way name the same allocation and none names one already released. */
  lemma StaysExactIff(s: State)
    requires Healthy(s)
    ensures (forall states, events :: !Drifts(s, states, events)) <==> SafeReleases(s)
  {
    if SafeReleases(s) {
      forall states, events ensures !Drifts(s, states, events) {
        if Continues(s, states, events) {
          forall i | 0 <= i < |states| ensures Exact(states[i]) { SafeStaysExact(s, states, events, i); }
        }
      }
    } else if c :| c in s.releases && s.releases[c] in s.db.allocations && !s.db.allocations[s.releases[c]].active {
      var states, events := LateCommitRun(s, c);
      assert Drifts(s, states, events);
    } else {
      var c, d :| c in s.releases && d in s.releases && c != d && s.releases[c] == s.releases[d] && s.releases[c] in s.db.allocations;
      var states, events := TwiceCommitRun(s, c, d);
      assert Drifts(s, states, events);
    }
  }

  predicate DistinctReleases(s: State) {
    forall c, d :: c in s.releases && d in s.releases && c != d ==> s.releases[c] != s.releases[d]
  }

  lemma DistinctIsCourteous(s: State, e: Event)
    requires Enabled(s, e) && DistinctReleases(Next(s, e))
    ensures Courteous(s, e)
  {
    if e.FoundRelease? {
      var after := s.releases[e.call := e.allocation];
      assert Next(s, e).releases == after;
      forall c | c in s.releases ensures s.releases[c] != e.allocation { assert after[c] == s.releases[c] && after[e.call] == e.allocation; }
    }
  }

  /** In every run in which overlapping releases name different allocations, the counter of every row is
      exact, whatever else overlaps. */
  lemma ExactWithDistinctReleases(states: seq<State>, events: seq<Event>, n: nat)
    requires IsRun(states, events) && n < |states|
    requires forall i :: 0 <= i < |states| ==> DistinctReleases(states[i])
    ensures Exact(states[n])
  {
    CounterDrift(states, events);
    assert Healthy(states[0]);
    forall i | 0 <= i < |events| ensures Courteous(states[i], events[i]) {
      assert states[i + 1] == Next(states[i], events[i]) && DistinctReleases(states[i + 1]);
      DistinctIsCourteous(states[i], events[i]);
    }
    SafeStaysExact(states[0], states, events, n);
  }

  // ---------- The bounds are reached ----------

  ghost predicate IsRunWithin(states: seq<State>, events: seq<Event>, k: nat) {
    IsRun(states, events) && forall i :: 0 <= i < |states| ==> |states[i].requests| <= k
  }

  /** Some run that never has more than k requests under way ends in s. */
  ghost predicate Reachable(s: State, k: nat) {
    exists states, events :: IsRunWithin(states, events, k) && states[|states| - 1] == s
  }

  lemma ReachStart(s: State, k: nat)
    requires IsStart(s)
    ensures Reachable(s, k)
  {
    assert IsRunWithin([s], [], k);
  }

  lemma EarlierStep(states: seq<State>, events: seq<Event>, s: State, e: Event, i: nat)
    requires |states| == |events| + 1 && i < |events| && Enabled(states[i], events[i]) && states[i + 1] == Next(states[i], events[i])
    ensures Enabled((states + [s])[i], (events + [e])[i]) && (states + [s])[i + 1] == Next((states + [s])[i], (events + [e])[i])
  {
    assert (states + [s])[i] == states[i] && (states + [s])[i + 1] == states[i + 1] && (events + [e])[i] == events[i];
  }

  lemma LastStep(states: seq<State>, events: seq<Event>, s: State, e: Event)
    requires |states| == |events| + 1 && Enabled(states[|events|], e) && s == Next(states[|events|], e)
    ensures var n, longer, events' := |events|, states + [s], events + [e];
            Enabled(longer[n], events'[n]) && longer[n + 1] == Next(longer[n], events'[n])
  {
    assert (states + [s])[|events|] == states[|events|] && (events + [e])[|events|] == e;
  }

  lemma StepsGrow(states: seq<State>, events: seq<Event>, s: State, e: Event, i: nat)
    requires IsRun(states, events) && Enabled(states[|events|], e) && s == Next(states[|events|], e) && i <= |events|
    ensures Enabled((states + [s])[i], (events + [e])[i]) && (states + [s])[i + 1] == Next((states + [s])[i], (events + [e])[i])
  {
    if i < |events| { EarlierStep(states, events, s, e, i); } else { LastStep(states, events, s, e); }
  }

  lemma RunGrows(states: seq<State>, events: seq<Event>, s: State, e: Event, k: nat)
    requires IsRunWithin(states, events, k) && Enabled(states[|events|], e) && s == Next(states[|events|], e) && |s.requests| <= k
    ensures IsRunWithin(states + [s], events + [e], k)
  {
    var longer, events' := states + [s], events + [e];
    forall i | 0 <= i < |events'| ensures Enabled(longer[i], events'[i]) && longer[i + 1] == Next(longer[i], events'[i]) {
      StepsGrow(states, events, s, e, i);
    }
    forall i | 0 <= i < |longer| ensures |longer[i].requests| <= k {
      if i < |states| { assert longer[i] == states[i]; }
    }
  }

  lemma ReachNext(s: State, e: Event, k: nat)
    requires Reachable(s, k) && Enabled(s, e) && |Next(s, e).requests| <= k
    ensures Reachable(Next(s, e), k)
  {
    var states, events :| IsRunWithin(states, events, k) && states[|states| - 1] == s;
    RunGrows(states, events, Next(s, e), e, k);
  }

  const LONE_PROXY := NewProxy("US", None, Some(1), None)
  const ANY_US := Query("tenant", "US", None, 0)
  const LONE_SNAP := Snap(0, 0, 1)
  const READY := Request("tenant", [LONE_SNAP], None)
  const SERVED := Request("tenant", [], None)

  ghost predicate LoneRow(db: Db) {
    db.pools == map[0 := FreshPool("tenant", LONE_PROXY)] && db.allocations == map[] && db.nextAllocation == 0
  }

  lemma LonelyStart(k: nat) returns (s: State)
    ensures Reachable(s, k) && LoneRow(s.db) && s.requests == map[] && s.releases == map[] && s.deletes == map[]
  {
    var db := AddAll(EMPTY_DB, "tenant", [LONE_PROXY]);
    AddAllBalances(EMPTY_DB, "tenant", [LONE_PROXY]);
    assert FreshPools("tenant", [LONE_PROXY]) == [FreshPool("tenant", LONE_PROXY)];
    assert db.pools == map[0 := FreshPool("tenant", LONE_PROXY)];
    s := State(db, map[], map[], map[], map[]);
    ReachStart(s, k);
  }

  lemma LonelyRead(db: Db)
    requires LoneRow(db)
    ensures IsAnswer(db, ANY_US, [0]) && Allocatable(db, [0]) == [0] && Chosen(db, [0], 1) == [0]
    ensures SnapsOf(db, [0]) == [LONE_SNAP]
  {
    assert Allocatable(db, []) == [];
  }

  /** j requests have read the lone row and none has taken it. */
  lemma {:induction false} ReadTogether(k: nat, j: nat) returns (s: State)
    requires j <= k
    ensures Reachable(s, k) && LoneRow(s.db) && s.releases == map[] && s.deletes == map[]
    ensures |s.requests| == j && forall c: nat :: c in s.requests <==> c < j
    ensures forall c :: c in s.requests ==> s.requests[c] == READY
    decreases j
  {
    if j == 0 {
      s := LonelyStart(k);
    } else {
      var before := ReadTogether(k, j - 1);
      LonelyRead(before.db);
      NewKey(before.requests, j - 1, READY);
      var e := Began(j - 1, ANY_US, [0], 1, None);
      assert Next(before, e).requests == before.requests[j - 1 := READY];
      ReachNext(before, e, k);
      s := Next(before, e);
      assert s.db == before.db && s.releases == before.releases && s.deletes == before.deletes;
    }
  }

  /** j of the k requests have taken their slot of the lone row. */
  lemma {:induction false} TakeTogether(k: nat, j: nat) returns (s: State)
    requires j <= k
    ensures Reachable(s, k) && s.releases == map[]
    ensures 0 in s.db.pools && s.db.pools[0].maxAllocations == 1 && s.db.pools[0].currentAllocations == j
    ensures j == 1 ==> s.db.allocations == map[0 := Allocation("tenant", 0, None, true)]
    ensures j == 0 ==> LoneRow(s.db)
    ensures |s.requests| == k && forall c: nat :: c in s.requests <==> c < k
    ensures forall c :: c in s.requests ==> s.requests[c] == if c < j then SERVED else READY
    decreases j
  {
    if j == 0 {
      s := ReadTogether(k, k);
    } else {
      var before := TakeTogether(k, j - 1);
      KeptKey(before.requests, j - 1, SERVED);
      var e := Picked(j - 1);
      assert [LONE_SNAP][1..] == [];
      assert Next(before, e).requests == before.requests[j - 1 := SERVED];
      ReachNext(before, e, k);
      s := Next(before, e);
    }
  }

  lemma KeptKey<T>(m: map<nat, T>, call: nat, r: T)
    requires call in m
    ensures |m[call := r]| == |m|
  {
    assert m[call := r].Keys == m.Keys;
  }

  /** No smaller bound holds: k overlapping requests can bring a one-slot row to k allocations. */
  lemma BoundIsReached(k: nat) returns (s: State)
    ensures Reachable(s, k) && 0 in s.db.pools
    ensures s.db.pools[0].currentAllocations == s.db.pools[0].maxAllocations + k - 1
  {
    s := TakeTogether(k, k);
  }

  /** Two overlapping releases of one allocation both commit: the counter falls below the
      allocations behind it, although no two requests ever overlapped. */
  lemma DoubleReleaseDrifts() returns (s: State)
    ensures Reachable(s, 1) && 0 in s.db.pools
    ensures s.db.pools[0].currentAllocations == -1 && ActiveOn(s.db, 0) == {}
  {
    var s0 := TakeTogether(1, 1);
    ReachNext(s0, FoundRelease(1, "tenant", 0), 1);
    var s1 := Next(s0, FoundRelease(1, "tenant", 0));
    ReachNext(s1, FoundRelease(2, "tenant", 0), 1);
    var s2 := Next(s1, FoundRelease(2, "tenant", 0));
    s := LateRelease(s2);
  }

  lemma LateRelease(s2: State) returns (s: State)
    requires Reachable(s2, 1) && |s2.requests| <= 1 && s2.releases == map[1 := 0, 2 := 0]
    requires s2.db.allocations == map[0 := Allocation("tenant", 0, None, true)]
    requires 0 in s2.db.pools && s2.db.pools[0].currentAllocations == 1
    ensures Reachable(s, 1) && 0 in s.db.pools
    ensures s.db.pools[0].currentAllocations == -1 && ActiveOn(s.db, 0) == {}
  {
    ReachNext(s2, CommittedRelease(1), 1);
    var s3 := Next(s2, CommittedRelease(1));
    ReachNext(s3, CommittedRelease(2), 1);
    s := Next(s3, CommittedRelease(2));
  }
}
