/** The Socks5 inventory: pool rows, allocation rows, and what one complete call does to them. */
module Allocator {
  import opened Sums

  datatype Status = Available | Allocated | Exhausted

  datatype Pool = Pool(
    tenant: string,
    continent: Option<string>,
    country: string,
    city: Option<string>,
    maxAllocations: int,
    currentAllocations: int,
    status: Status,
    expiresAt: Option<int>)

  datatype Allocation = Allocation(tenant: string, poolId: nat, orderId: Option<nat>, active: bool)

  /** Row ids are drawn from counters, so an id is never used twice. */
  datatype Db = Db(
    pools: map<nat, Pool>,
    allocations: map<nat, Allocation>,
    nextPool: nat,
    nextAllocation: nat)

  const EMPTY_DB := Db(map[], map[], 0, 0)

  ghost function ActiveOn(db: Db, pool: nat): set<nat> {
    set a | a in db.allocations && db.allocations[a].active && db.allocations[a].poolId == pool
  }

  /** New rows under consecutive ids. */
  function Numbered<T>(first: nat, rows: seq<T>): (m: map<nat, T>)
    ensures forall k :: k in m <==> first <= k < first + |rows|
    ensures forall k :: k in m ==> m[k] == rows[k - first]
  {
    if rows == [] then map[] else Numbered(first, rows[..|rows| - 1])[first + |rows| - 1 := rows[|rows| - 1]]
  }

  // ---------- Reading the inventory ----------

  datatype Query = Query(tenant: string, country: string, city: Option<string>, now: int)

  /** An absent or empty city code does not restrict the query. */
  predicate Matches(p: Pool, q: Query) {
    && p.tenant == q.tenant
    && p.country == q.country
    && (q.city.None? || q.city.value == "" || p.city == q.city)
    && p.status != Exhausted
    && (p.expiresAt.None? || p.expiresAt.value > q.now)
  }

  predicate Distinct<T(==)>(s: seq<T>) {
    forall i, j :: 0 <= i < j < |s| ==> s[i] != s[j]
  }

  function Use(db: Db, id: nat): int {
    if id in db.pools then db.pools[id].currentAllocations else 0
  }

  ghost predicate LeastUsedFirst(db: Db, ids: seq<nat>) {
    forall i, j :: 0 <= i < j < |ids| ==> Use(db, ids[i]) <= Use(db, ids[j])
  }

  /** `rows` is an answer of the database: the matching ids, least used first, ties in any order. */
  ghost predicate IsAnswer(db: Db, q: Query, rows: seq<nat>) {
    && Distinct(rows)
    && (forall id :: id in rows <==> id in db.pools && Matches(db.pools[id], q))
    && LeastUsedFirst(db, rows)
  }

  /** What a request remembers of a row between its read and its transaction on that row. */
  datatype Snap = Snap(id: nat, current: int, max: int)

  function SnapOf(db: Db, id: nat): Snap
    requires id in db.pools
  {
    Snap(id, db.pools[id].currentAllocations, db.pools[id].maxAllocations)
  }

  predicate HasRoom(p: Pool) {
    p.currentAllocations < p.maxAllocations
  }

  /** The rows that still have room, in the order of the answer. */
  function Allocatable(db: Db, rows: seq<nat>): (ids: seq<nat>)
    requires forall id :: id in rows ==> id in db.pools
    ensures forall id :: id in ids <==> id in rows && HasRoom(db.pools[id])
    ensures Distinct(rows) ==> Distinct(ids)
  {
    if rows == [] then []
    else
      var n := |rows| - 1;
      assert rows == rows[..n] + [rows[n]];
      Allocatable(db, rows[..n]) + (if HasRoom(db.pools[rows[n]]) then [rows[n]] else [])
  }

  /** The rows that can give a slot: of the tenant, in the country, in the city if one is asked for, not exhausted,
      not expired, and below their maximum. */
  ghost function Inventory(db: Db, q: Query): set<nat> {
    set id | id in db.pools
             && db.pools[id].tenant == q.tenant && db.pools[id].country == q.country
             && (q.city == None || q.city == Some("") || db.pools[id].city == q.city)
             && (db.pools[id].status == Available || db.pools[id].status == Allocated)
             && (db.pools[id].expiresAt == None || q.now < db.pools[id].expiresAt.value)
             && db.pools[id].currentAllocations < db.pools[id].maxAllocations
  }

  lemma {:induction false} DistinctSize(ids: seq<nat>, all: set<nat>)
    requires Distinct(ids) && forall id :: id in ids <==> id in all
    ensures |ids| == |all|
    decreases |ids|
  {
    if ids != [] {
      var n := |ids| - 1;
      assert ids == ids[..n] + [ids[n]];
      assert |all - {ids[n]}| == |all| - 1;
      DistinctSize(ids[..n], all - {ids[n]});
    } else {
      assert all == {};
    }
  }

  /** Whatever the order of the answer, a request sees exactly the inventory. */
  lemma AllocatableIsInventory(db: Db, q: Query, rows: seq<nat>)
    requires IsAnswer(db, q, rows)
    ensures forall id :: id in Allocatable(db, rows) <==> id in Inventory(db, q)
    ensures |Allocatable(db, rows)| == |Inventory(db, q)|
  {
    forall id ensures id in Allocatable(db, rows) <==> id in Inventory(db, q) {
      assert id in rows <==> id in db.pools && Matches(db.pools[id], q);
    }
    DistinctSize(Allocatable(db, rows), Inventory(db, q));
  }

  /** The rows a request for `quantity` takes: none when it is refused. */
  function Chosen(db: Db, rows: seq<nat>, quantity: int): (chosen: seq<nat>)
    requires forall id :: id in rows ==> id in db.pools
  {
    var room := Allocatable(db, rows);
    if |room| < quantity || quantity <= 0 then [] else room[..quantity]
  }

  // ---------- Taking one slot, and a whole request ----------

  /** One transaction. The status comes from the snapshot, the counter from the row. */
  function TakeOne(db: Db, tenant: string, snap: Snap, order: Option<nat>): Db
    requires snap.id in db.pools
  {
    var p := db.pools[snap.id];
    db.(pools := db.pools[snap.id := p.(
          currentAllocations := p.currentAllocations + 1,
          status := if snap.current + 1 >= snap.max then Exhausted else Allocated)],
        allocations := db.allocations[db.nextAllocation := Allocation(tenant, snap.id, order, true)],
        nextAllocation := db.nextAllocation + 1)
  }

  function Taken(p: Pool): Pool {
    p.(currentAllocations := p.currentAllocations + 1,
       status := if p.currentAllocations + 1 >= p.maxAllocations then Exhausted else Allocated)
  }

  /** The row has given one slot: it is exhausted if that was the last, and allocated otherwise. */
  predicate GaveOne(before: Pool, after: Pool) {
    && after == before.(currentAllocations := after.currentAllocations, status := after.status)
    && after.currentAllocations == before.currentAllocations + 1
    && after.status == if after.currentAllocations < after.maxAllocations then Allocated else Exhausted
  }

  function Claims(tenant: string, chosen: seq<nat>, order: Option<nat>): seq<Allocation> {
    seq(|chosen|, i requires 0 <= i < |chosen| => Allocation(tenant, chosen[i], order, true))
  }

  /** A whole request at once: each chosen row gives one slot and gains one active allocation. */
  function TakeAll(db: Db, tenant: string, chosen: seq<nat>, order: Option<nat>): Db {
    db.(pools := map id | id in db.pools :: if id in chosen then Taken(db.pools[id]) else db.pools[id],
        allocations := db.allocations
          + Numbered(db.nextAllocation, Claims(tenant, chosen, order)),
        nextAllocation := db.nextAllocation + |chosen|)
  }

  lemma ClaimsExtend(db: Db, tenant: string, chosen: seq<nat>, order: Option<nat>, i: nat)
    requires i < |chosen|
    ensures TakeAll(db, tenant, chosen[..i + 1], order).allocations
         == TakeAll(db, tenant, chosen[..i], order).allocations
              [db.nextAllocation + i := Allocation(tenant, chosen[i], order, true)]
  {
    var longer := Claims(tenant, chosen[..i + 1], order);
    assert longer[..i] == Claims(tenant, chosen[..i], order);
    assert Numbered(db.nextAllocation, longer)
        == Numbered(db.nextAllocation, longer[..i])[db.nextAllocation + i := longer[i]];
  }

  /** The one-by-one transactions of a request add up to the whole request. */
  lemma {:induction false} TakeExtends(db: Db, tenant: string, chosen: seq<nat>, order: Option<nat>, i: nat)
    requires Distinct(chosen) && i < |chosen| && chosen[i] in db.pools
    ensures chosen[i] in TakeAll(db, tenant, chosen[..i], order).pools
    ensures TakeOne(TakeAll(db, tenant, chosen[..i], order), tenant, SnapOf(db, chosen[i]), order)
         == TakeAll(db, tenant, chosen[..i + 1], order)
  {
    var before, after := TakeAll(db, tenant, chosen[..i], order), TakeAll(db, tenant, chosen[..i + 1], order);
    assert before.nextAllocation == db.nextAllocation + i && after.nextAllocation == db.nextAllocation + i + 1;
    assert before.nextPool == after.nextPool;
    assert before.pools[chosen[i]] == db.pools[chosen[i]] && after.pools == before.pools[chosen[i] := Taken(db.pools[chosen[i]])];
    assert after.allocations == before.allocations[db.nextAllocation + i := Allocation(tenant, chosen[i], order, true)] by {
      ClaimsExtend(db, tenant, chosen, order, i);
    }
  }

  function SnapsOf(db: Db, ids: seq<nat>): (snaps: seq<Snap>)
    requires forall id :: id in ids ==> id in db.pools
    ensures |snaps| == |ids|
    ensures forall i :: 0 <= i < |ids| ==> snaps[i] == SnapOf(db, ids[i])
  {
    seq(|ids|, i requires 0 <= i < |ids| => SnapOf(db, ids[i]))
  }

  /** The transactions of a request, one after the other. */
  function TakeEach(db: Db, tenant: string, snaps: seq<Snap>, order: Option<nat>): (after: Db)
    requires forall i :: 0 <= i < |snaps| ==> snaps[i].id in db.pools
    ensures after.pools.Keys == db.pools.Keys && after.nextAllocation == db.nextAllocation + |snaps|
    ensures after.nextPool == db.nextPool
  {
    if snaps == [] then db
    else TakeOne(TakeEach(db, tenant, snaps[..|snaps| - 1], order), tenant, snaps[|snaps| - 1], order)
  }

  lemma TakeEachStep(db: Db, tenant: string, snaps: seq<Snap>, order: Option<nat>, i: nat)
    requires i < |snaps| && forall k :: 0 <= k < |snaps| ==> snaps[k].id in db.pools
    ensures TakeEach(db, tenant, snaps[..i + 1], order) == TakeOne(TakeEach(db, tenant, snaps[..i], order), tenant, snaps[i], order)
  {
    assert snaps[..i + 1][..i] == snaps[..i];
  }

  /** They add up to the whole request: every status a transaction computes from its
      snapshot is the status of the row, because no row is taken twice. */
  lemma {:induction false} TakeEachIsTakeAll(db: Db, tenant: string, chosen: seq<nat>, order: Option<nat>)
    requires Distinct(chosen) && forall id :: id in chosen ==> id in db.pools
    ensures TakeEach(db, tenant, SnapsOf(db, chosen), order) == TakeAll(db, tenant, chosen, order)
    decreases |chosen|
  {
    if chosen == [] {
      assert TakeAll(db, tenant, [], order).pools == db.pools;
      assert TakeAll(db, tenant, [], order).allocations == db.allocations;
    } else {
      var n := |chosen| - 1;
      assert SnapsOf(db, chosen)[..n] == SnapsOf(db, chosen[..n]);
      assert chosen[..n + 1] == chosen;
      TakeEachIsTakeAll(db, tenant, chosen[..n], order);
      TakeExtends(db, tenant, chosen, order, n);
    }
  }

  /** A request changes no row except by taking one slot of a row of its inventory. */
  ghost predicate TakesFromInventory(db: Db, q: Query, after: Db) {
    && after.pools.Keys == db.pools.Keys
    && forall p :: p in db.pools ==> after.pools[p] == db.pools[p] || (p in Inventory(db, q) && GaveOne(db.pools[p], after.pools[p]))
  }

  lemma TakenFromInventory(db: Db, q: Query, rows: seq<nat>, quantity: int, order: Option<nat>)
    requires IsAnswer(db, q, rows)
    ensures TakesFromInventory(db, q, TakeAll(db, q.tenant, Chosen(db, rows, quantity), order))
  {
    AllocatableIsInventory(db, q, rows);
    var room, chosen := Allocatable(db, rows), Chosen(db, rows, quantity);
    forall p | p in chosen ensures p in room { }
  }

  lemma LastIsMostUsed(db: Db, rows: seq<nat>, id: nat)
    requires rows != [] && LeastUsedFirst(db, rows) && id in rows[..|rows| - 1]
    ensures Use(db, id) <= Use(db, rows[|rows| - 1])
  {
    var n := |rows| - 1;
    var k :| 0 <= k < n && rows[..n][k] == id;
    assert rows[k] == id;
  }

  lemma {:induction false} AllocatableKeepsOrder(db: Db, rows: seq<nat>)
    requires LeastUsedFirst(db, rows) && forall id :: id in rows ==> id in db.pools
    ensures LeastUsedFirst(db, Allocatable(db, rows))
    decreases |rows|
  {
    if rows != [] {
      var n := |rows| - 1;
      var prev := Allocatable(db, rows[..n]);
      AllocatableKeepsOrder(db, rows[..n]);
      forall i | 0 <= i < |prev| ensures Use(db, prev[i]) <= Use(db, rows[n]) {
        assert prev[i] in prev;
        LastIsMostUsed(db, rows, prev[i]);
      }
    }
  }

  /** A row left out, although it matched and had room, is at least as used as every chosen one. */
  lemma AllocatesLeastUsed(db: Db, q: Query, rows: seq<nat>, quantity: int, taken: nat, left: nat)
    requires IsAnswer(db, q, rows)
    requires taken in Chosen(db, rows, quantity)
    requires left in db.pools && Matches(db.pools[left], q) && HasRoom(db.pools[left])
    requires left !in Chosen(db, rows, quantity)
    ensures db.pools[taken].currentAllocations <= db.pools[left].currentAllocations
  {
    AllocatableKeepsOrder(db, rows);
    var room, chosen := Allocatable(db, rows), Chosen(db, rows, quantity);
    assert left in room;
    var i :| 0 <= i < |chosen| && chosen[i] == taken;
    var j :| 0 <= j < |room| && room[j] == left;
    assert j >= |chosen|;
    assert room[i] == taken && i < j;
    assert Use(db, room[i]) <= Use(db, room[j]);
  }

  // ---------- Giving slots back, adding and deleting rows ----------

  predicate Releasable(db: Db, tenant: string, id: nat) {
    id in db.allocations && db.allocations[id].active && db.allocations[id].tenant == tenant
  }

  /** The release transaction; it does not look at the status of either row again. */
  function CommitRelease(db: Db, id: nat): Db
    requires id in db.allocations && db.allocations[id].poolId in db.pools
  {
    var pool := db.allocations[id].poolId;
    var p := db.pools[pool];
    db.(allocations := db.allocations[id := db.allocations[id].(active := false)],
        pools := db.pools[pool := p.(currentAllocations := p.currentAllocations - 1, status := Available)])
  }

  function ReleaseOne(db: Db, tenant: string, id: nat): Db {
    if Releasable(db, tenant, id) && db.allocations[id].poolId in db.pools then CommitRelease(db, id) else db
  }

  function ReleaseAll(db: Db, tenant: string, ids: seq<nat>): Db {
    if ids == [] then db else ReleaseOne(ReleaseAll(db, tenant, ids[..|ids| - 1]), tenant, ids[|ids| - 1])
  }

  datatype NewProxy = NewProxy(country: string, city: Option<string>, maxAllocations: Option<nat>, expiresAt: Option<int>)

  function FreshPool(tenant: string, proxy: NewProxy): Pool {
    Pool(tenant, None, proxy.country, proxy.city,
         if proxy.maxAllocations.None? || proxy.maxAllocations.value == 0 then 1 else proxy.maxAllocations.value,
         0, Available, proxy.expiresAt)
  }

  function FreshPools(tenant: string, proxies: seq<NewProxy>): seq<Pool> {
    seq(|proxies|, i requires 0 <= i < |proxies| => FreshPool(tenant, proxies[i]))
  }

  function AddAll(db: Db, tenant: string, proxies: seq<NewProxy>): Db {
    db.(pools := db.pools
          + Numbered(db.nextPool, FreshPools(tenant, proxies)),
        nextPool := db.nextPool + |proxies|)
  }

  /** Deleting a pool row cascades to its allocations. */
  function DeletePool(db: Db, pool: nat): Db {
    db.(pools := db.pools - {pool},
        allocations := map a | a in db.allocations && db.allocations[a].poolId != pool :: db.allocations[a])
  }

  // ---------- Sequential runs ----------

  datatype Op =
    | Add(tenant: string, proxies: seq<NewProxy>)
    | Take(q: Query, rows: seq<nat>, quantity: int, order: Option<nat>)
    | Release(tenant: string, ids: seq<nat>)
    | Delete(tenant: string, pool: nat)

  ghost predicate Possible(db: Db, op: Op) {
    op.Take? ==> IsAnswer(db, op.q, op.rows)
  }

  function Apply(db: Db, op: Op): Db
    requires op.Take? ==> forall id :: id in op.rows ==> id in db.pools
  {
    match op
    case Add(tenant, proxies) => AddAll(db, tenant, proxies)
    case Take(q, rows, quantity, order) => TakeAll(db, q.tenant, Chosen(db, rows, quantity), order)
    case Release(tenant, ids) => ReleaseAll(db, tenant, ids)
    case Delete(tenant, pool) =>
      if pool in db.pools && db.pools[pool].tenant == tenant && db.pools[pool].currentAllocations <= 0
      then DeletePool(db, pool) else db
  }

  ghost predicate IsRun(dbs: seq<Db>, ops: seq<Op>) {
    && |dbs| == |ops| + 1
    && dbs[0] == EMPTY_DB
    && forall i :: 0 <= i < |ops| ==> Possible(dbs[i], ops[i]) && dbs[i + 1] == Apply(dbs[i], ops[i])
  }

  // ---------- The books ----------

  ghost predicate PoolInBooks(db: Db, id: nat)
    requires id in db.pools
  {
    var p := db.pools[id];
    && id < db.nextPool
    && p.currentAllocations == |ActiveOn(db, id)|
    && 1 <= p.maxAllocations
    && p.currentAllocations <= p.maxAllocations
    && (p.status == Exhausted <==> p.currentAllocations == p.maxAllocations)
  }

  ghost predicate AllocationInBooks(db: Db, a: nat)
    requires a in db.allocations
  {
    && a < db.nextAllocation
    && db.allocations[a].poolId in db.pools
    && db.pools[db.allocations[a].poolId].tenant == db.allocations[a].tenant
  }

  ghost predicate BooksBalance(db: Db) {
    && (forall id {:trigger PoolInBooks(db, id)} :: id in db.pools ==> PoolInBooks(db, id))
    && (forall a {:trigger AllocationInBooks(db, a)} :: a in db.allocations ==> AllocationInBooks(db, a))
  }

  lemma ActiveAfterTake(db: Db, tenant: string, snap: Snap, order: Option<nat>, pool: nat)
    requires snap.id in db.pools && db.nextAllocation !in db.allocations
    ensures |ActiveOn(TakeOne(db, tenant, snap, order), pool)| == |ActiveOn(db, pool)| + (if pool == snap.id then 1 else 0)
  {
    var after, id := TakeOne(db, tenant, snap, order).allocations, db.nextAllocation;
    assert id !in ActiveOn(db, pool);
    forall a ensures a in after && after[a].active && after[a].poolId == pool <==> a in ActiveOn(db, pool) || (a == id && pool == snap.id) { }
    assert ActiveOn(TakeOne(db, tenant, snap, order), pool) == ActiveOn(db, pool) + (if pool == snap.id then {id} else {});
  }

  lemma TakeOneBalances(db: Db, tenant: string, id: nat, order: Option<nat>)
    requires BooksBalance(db) && id in db.pools
    requires db.pools[id].tenant == tenant && HasRoom(db.pools[id])
    ensures BooksBalance(TakeOne(db, tenant, SnapOf(db, id), order))
  {
    var after := TakeOne(db, tenant, SnapOf(db, id), order);
    forall a | a in db.allocations ensures a < db.nextAllocation { assert AllocationInBooks(db, a); }
    forall pool | pool in after.pools ensures PoolInBooks(after, pool) {
      assert PoolInBooks(db, pool);
      ActiveAfterTake(db, tenant, SnapOf(db, id), order, pool);
    }
    forall a | a in after.allocations ensures AllocationInBooks(after, a) {
      if a != db.nextAllocation { assert AllocationInBooks(db, a); }
    }
  }

  /** A request keeps the books balanced because it takes any row at most once. */
  lemma {:induction false} TakeAllBalances(db: Db, tenant: string, chosen: seq<nat>, order: Option<nat>)
    requires BooksBalance(db) && Distinct(chosen)
    requires forall id :: id in chosen ==> id in db.pools && db.pools[id].tenant == tenant && HasRoom(db.pools[id])
    ensures BooksBalance(TakeAll(db, tenant, chosen, order))
    decreases |chosen|
  {
    if chosen == [] {
      TakeEachIsTakeAll(db, tenant, [], order);
    } else {
      var n := |chosen| - 1;
      assert chosen == chosen[..n] + [chosen[n]] == chosen[..n + 1];
      TakeAllBalances(db, tenant, chosen[..n], order);
      TakeExtends(db, tenant, chosen, order, n);
      TakeOneBalances(TakeAll(db, tenant, chosen[..n], order), tenant, chosen[n], order);
    }
  }

  lemma ReleaseOneBalances(db: Db, tenant: string, id: nat)
    requires BooksBalance(db)
    ensures BooksBalance(ReleaseOne(db, tenant, id))
  {
    if Releasable(db, tenant, id) {
      assert AllocationInBooks(db, id);
      var after := CommitRelease(db, id);
      var from := db.allocations[id].poolId;
      forall pool | pool in after.pools ensures PoolInBooks(after, pool) {
        assert PoolInBooks(db, pool);
        assert id in ActiveOn(db, from);
        assert ActiveOn(after, pool) == ActiveOn(db, pool) - (if pool == from then {id} else {});
      }
      forall a | a in after.allocations ensures AllocationInBooks(after, a) {
        assert AllocationInBooks(db, a);
      }
    }
  }

  lemma {:induction false} ReleaseAllBalances(db: Db, tenant: string, ids: seq<nat>)
    requires BooksBalance(db)
    ensures BooksBalance(ReleaseAll(db, tenant, ids))
    decreases |ids|
  {
    if ids != [] {
      ReleaseAllBalances(db, tenant, ids[..|ids| - 1]);
      ReleaseOneBalances(ReleaseAll(db, tenant, ids[..|ids| - 1]), tenant, ids[|ids| - 1]);
    }
  }

  lemma AddAllBalances(db: Db, tenant: string, proxies: seq<NewProxy>)
    requires BooksBalance(db)
    ensures BooksBalance(AddAll(db, tenant, proxies))
  {
    var after := AddAll(db, tenant, proxies);
    forall pool | pool in db.pools ensures pool < db.nextPool { assert PoolInBooks(db, pool); }
    forall pool | pool in after.pools ensures PoolInBooks(after, pool) {
      assert ActiveOn(after, pool) == ActiveOn(db, pool);
      if pool in db.pools {
        assert PoolInBooks(db, pool);
      } else {
        forall a | a in db.allocations ensures a !in ActiveOn(db, pool) { assert AllocationInBooks(db, a); }
        assert ActiveOn(db, pool) == {};
        assert after.pools[pool] == FreshPool(tenant, proxies[pool - db.nextPool]);
      }
    }
    forall a | a in after.allocations ensures AllocationInBooks(after, a) {
      assert AllocationInBooks(db, a);
      assert PoolInBooks(db, db.allocations[a].poolId);
    }
  }

  lemma DeleteBalances(db: Db, pool: nat)
    requires BooksBalance(db) && pool in db.pools && db.pools[pool].currentAllocations <= 0
    ensures BooksBalance(DeletePool(db, pool))
    ensures forall a :: a in db.allocations && db.allocations[a].active ==> a in DeletePool(db, pool).allocations
  {
    var after := DeletePool(db, pool);
    assert PoolInBooks(db, pool);
    assert ActiveOn(db, pool) == {};
    forall id | id in after.pools ensures PoolInBooks(after, id) {
      assert PoolInBooks(db, id);
      assert ActiveOn(after, id) == ActiveOn(db, id);
    }
    forall a | a in after.allocations ensures AllocationInBooks(after, a) {
      assert AllocationInBooks(db, a);
    }
    forall a | a in db.allocations && db.allocations[a].active ensures a in after.allocations {
      assert a in ActiveOn(db, db.allocations[a].poolId);
    }
  }

  lemma ApplyBalances(db: Db, op: Op)
    requires BooksBalance(db) && Possible(db, op)
    ensures BooksBalance(Apply(db, op))
  {
    match op
    case Add(tenant, proxies) => AddAllBalances(db, tenant, proxies);
    case Take(q, rows, quantity, order) =>
      var room := Allocatable(db, rows);
      TakeAllBalances(db, q.tenant, Chosen(db, rows, quantity), order);
    case Release(tenant, ids) => ReleaseAllBalances(db, tenant, ids);
    case Delete(tenant, pool) =>
      if pool in db.pools && db.pools[pool].tenant == tenant && db.pools[pool].currentAllocations <= 0 {
        DeleteBalances(db, pool);
      }
  }

  /** In every sequential run every counter equals the active allocations behind it, no row is
      oversold, 'exhausted' marks exactly the full rows, and no allocation points nowhere. */
  lemma {:induction false} RunsBalance(dbs: seq<Db>, ops: seq<Op>)
    requires IsRun(dbs, ops)
    ensures forall i :: 0 <= i < |dbs| ==> BooksBalance(dbs[i])
    decreases |ops|
  {
    if ops == [] {
    } else {
      var n := |ops| - 1;
      RunsBalance(dbs[..n + 1], ops[..n]);
      assert dbs[..n + 1][n] == dbs[n];
      ApplyBalances(dbs[n], ops[n]);
      forall i | 0 <= i < |dbs| ensures BooksBalance(dbs[i]) {
        if i <= n { assert dbs[..n + 1][i] == dbs[i]; }
      }
    }
  }

  /** An active allocation goes away only when its owner releases it: deletion never takes one. */
  lemma OnlyReleaseEndsAllocations(dbs: seq<Db>, ops: seq<Op>, i: nat, a: nat)
    requires IsRun(dbs, ops) && i < |ops|
    requires a in dbs[i].allocations && dbs[i].allocations[a].active
    requires !(ops[i].Release? && ops[i].tenant == dbs[i].allocations[a].tenant && a in ops[i].ids)
    ensures a in dbs[i + 1].allocations && dbs[i + 1].allocations[a] == dbs[i].allocations[a]
  {
    RunsBalance(dbs, ops);
    var db, op := dbs[i], ops[i];
    assert AllocationInBooks(db, a);
    match op
    case Add(_, _) =>
    case Take(_, _, _, _) =>
    case Release(tenant, ids) => ReleaseMeaning(db, tenant, ids);
    case Delete(tenant, pool) =>
      if pool in db.pools && db.pools[pool].tenant == tenant && db.pools[pool].currentAllocations <= 0 {
        DeleteBalances(db, pool);
      }
  }

  /** The tenant's active allocations among some ids, all of them or those of one row. */
  ghost function ReleasedBy(db: Db, tenant: string, ids: seq<nat>): set<nat> {
    set a | a in db.allocations && a in ids && db.allocations[a].active && db.allocations[a].tenant == tenant
  }

  ghost function ReleasedOn(db: Db, tenant: string, ids: seq<nat>, pool: nat): set<nat> {
    set a | a in db.allocations && a in ids && db.allocations[a].active && db.allocations[a].tenant == tenant
            && db.allocations[a].poolId == pool
  }

  lemma ReleaseOneMeaning(db: Db, tenant: string, id: nat)
    requires BooksBalance(db)
    ensures ReleaseOne(db, tenant, id).pools.Keys == db.pools.Keys
    ensures var after := ReleaseOne(db, tenant, id).allocations;
            && after.Keys == db.allocations.Keys
            && forall a :: a in after ==>
                 after[a] == if a == id && Releasable(db, tenant, id) then db.allocations[a].(active := false)
                             else db.allocations[a]
  {
    if id in db.allocations { assert AllocationInBooks(db, id); }
  }

  /** An allocation is active afterwards if and only if it was active before and is not one that its own tenant
      named; nothing else of it changes. */
  lemma {:induction false} ReleaseMeaning(db: Db, tenant: string, ids: seq<nat>)
    requires BooksBalance(db)
    ensures var after := ReleaseAll(db, tenant, ids).allocations;
            && after.Keys == db.allocations.Keys
            && forall a :: a in after ==>
                 after[a] == db.allocations[a].(
                   active := db.allocations[a].active && !(db.allocations[a].tenant == tenant && a in ids))
    ensures ReleaseAll(db, tenant, ids).pools.Keys == db.pools.Keys
    decreases |ids|
  {
    if ids != [] {
      var n := |ids| - 1;
      ReleaseMeaning(db, tenant, ids[..n]);
      ReleaseAllBalances(db, tenant, ids[..n]);
      ReleaseOneMeaning(ReleaseAll(db, tenant, ids[..n]), tenant, ids[n]);
      assert ids == ids[..n] + [ids[n]];
    }
  }

  lemma ReleaseOneRow(db: Db, tenant: string, id: nat, pool: nat)
    requires BooksBalance(db) && pool in db.pools
    ensures var after := ReleaseOne(db, tenant, id).pools;
            && pool in after
            && after[pool] == if Releasable(db, tenant, id) && db.allocations[id].poolId == pool
                              then db.pools[pool].(currentAllocations := db.pools[pool].currentAllocations - 1, status := Available)
                              else db.pools[pool]
  {
    if id in db.allocations { assert AllocationInBooks(db, id); }
  }

  /** What a release leaves of a row from which it took these allocations. */
  function GivenBack(p: Pool, n: nat): Pool {
    p.(currentAllocations := p.currentAllocations - n, status := if n == 0 then p.status else Available)
  }

  lemma ReleasedOnGrows(db: Db, tenant: string, ids: seq<nat>, pool: nat)
    requires BooksBalance(db) && ids != []
    ensures var n := |ids| - 1;
            var mid := ReleaseAll(db, tenant, ids[..n]);
            |ReleasedOn(db, tenant, ids, pool)|
            == |ReleasedOn(db, tenant, ids[..n], pool)|
               + (if Releasable(mid, tenant, ids[n]) && mid.allocations[ids[n]].poolId == pool then 1 else 0)
  {
    var n := |ids| - 1;
    var mid := ReleaseAll(db, tenant, ids[..n]);
    ReleaseMeaning(db, tenant, ids[..n]);
    assert ids == ids[..n] + [ids[n]];
    var counts := Releasable(mid, tenant, ids[n]) && mid.allocations[ids[n]].poolId == pool;
    assert counts ==> ids[n] !in ReleasedOn(db, tenant, ids[..n], pool);
    assert ReleasedOn(db, tenant, ids, pool) == ReleasedOn(db, tenant, ids[..n], pool) + (if counts then {ids[n]} else {});
  }

  /** Every row gives back one slot for each allocation that ends on it, and is available again if there is one. */
  lemma {:induction false} ReleaseRows(db: Db, tenant: string, ids: seq<nat>, pool: nat)
    requires BooksBalance(db) && pool in db.pools
    ensures var after := ReleaseAll(db, tenant, ids).pools;
            pool in after && after[pool] == GivenBack(db.pools[pool], |ReleasedOn(db, tenant, ids, pool)|)
    decreases |ids|
  {
    if ids == [] {
      assert ReleasedOn(db, tenant, ids, pool) == {};
    } else {
      var n := |ids| - 1;
      ReleaseRows(db, tenant, ids[..n], pool);
      ReleaseAllBalances(db, tenant, ids[..n]);
      ReleaseOneRow(ReleaseAll(db, tenant, ids[..n]), tenant, ids[n], pool);
      ReleasedOnGrows(db, tenant, ids, pool);
    }
  }
}
