/** The services that own the inventory tables, one statement of the service per statement here.
    What the database decides (row order, current time, relay node found or not) is a parameter. */
module PoolServices {
  import opened Sums
  import opened Allocator

  datatype Outcome =
    | Done(ids: seq<nat>)
    | Insufficient(available: nat, requested: int)
    | NoRelayNode
    | NotFound
    | InUse

  datatype Order = Order(quantity: int, completed: bool)

  class PoolService {
    var pools: map<nat, Pool>
    var allocations: map<nat, Allocation>
    var nextPool: nat
    var nextAllocation: nat
    var orders: map<nat, Order>
    var nextOrder: nat

    ghost function Rows(): Db
      reads `pools, `allocations, `nextPool, `nextAllocation
    {
      Db(pools, allocations, nextPool, nextAllocation)
    }

    ghost predicate Valid()
      reads `pools, `allocations, `nextPool, `nextAllocation
    {
      BooksBalance(Rows())
    }

    constructor ()
      ensures Valid() && Rows() == EMPTY_DB && orders == map[]
    {
      pools, allocations, nextPool, nextAllocation := map[], map[], 0, 0;
      orders, nextOrder := map[], 0;
    }

    method AddToPool(tenant: string, proxies: seq<NewProxy>) returns (added: nat)
      requires Valid()
      modifies `pools, `nextPool
      ensures Valid() && Rows() == AddAll(old(Rows()), tenant, proxies)
      ensures added == |proxies| && nextPool == old(nextPool) + |proxies|
      ensures AllOffered(pools, old(nextPool), tenant, proxies) && Keeps(old(pools), pools)
    {
      ghost var after := Addition(Rows(), tenant, proxies);
      added := InsertAll(tenant, proxies);
      assert Rows() == after;
    }

    method InsertAll(tenant: string, proxies: seq<NewProxy>) returns (added: nat)
      modifies `pools, `nextPool
      ensures pools == AddAll(old(Rows()), tenant, proxies).pools && nextPool == old(nextPool) + |proxies|
      ensures added == |proxies|
    {
      added := 0;
      ghost var before := Rows();
      AddNothing(before, tenant);
      for i := 0 to |proxies|
        invariant added == i && nextPool == before.nextPool + i
        invariant pools == AddAll(before, tenant, proxies[..i]).pools
      {
        InsertPool(tenant, proxies[i]);
        AddExtends(before, tenant, proxies, i);
        added := added + 1;
      }
      assert proxies[..|proxies|] == proxies;
    }

    method InsertPool(tenant: string, proxy: NewProxy)
      modifies `pools, `nextPool
      ensures pools == old(pools)[old(nextPool) := FreshPool(tenant, proxy)] && nextPool == old(nextPool) + 1
    {
      var room := if proxy.maxAllocations.Some? && proxy.maxAllocations.value != 0 then proxy.maxAllocations.value else 1;
      pools := pools[nextPool := Pool(tenant, None, proxy.country, proxy.city, room, 0, Available, proxy.expiresAt)];
      nextPool := nextPool + 1;
    }

    /** One transaction of the consuming loop. */
    method Transact(tenant: string, pool: Snap, order: Option<nat>) returns (id: nat)
      requires pool.id in pools
      modifies `pools, `allocations, `nextAllocation
      ensures Rows() == TakeOne(old(Rows()), tenant, pool, order)
      ensures id == old(nextAllocation)
    {
      var p := pools[pool.id];
      pools := pools[pool.id := p.(
          currentAllocations := p.currentAllocations + 1,
          status := if pool.current + 1 >= pool.max then Exhausted else Allocated)];
      id := nextAllocation;
      allocations := allocations[id := Allocation(tenant, pool.id, order, true)];
      nextAllocation := nextAllocation + 1;
    }

    /** The consuming loop that both entry points run on the rows they read once. */
    method Consume(tenant: string, allocatable: seq<Snap>, quantity: int, order: Option<nat>) returns (ids: seq<nat>)
      requires quantity <= |allocatable|
      requires forall i :: 0 <= i < |allocatable| ==> allocatable[i].id in pools
      modifies `pools, `allocations, `nextAllocation
      ensures Rows() == TakeEach(old(Rows()), tenant, allocatable[..NonNegative(quantity)], order)
      ensures ids == ConsecutiveIds(old(nextAllocation), NonNegative(quantity))
    {
      ids := [];
      ghost var before := Rows();
      var i := 0;
      while i < quantity
        invariant 0 <= i <= NonNegative(quantity)
        invariant Consumed(before, Rows(), tenant, allocatable, order, i)
        invariant ids == ConsecutiveIds(before.nextAllocation, i)
      {
        SmallRemainder(i, |allocatable|);
        ConsumedNext(before, Rows(), tenant, allocatable, order, i);
        var id := Transact(tenant, allocatable[i % |allocatable|], order);
        ids := ids + [id];
        i := i + 1;
      }
    }

    /** The rows with room, remembered as they were read. */
    method Snapshot(rows: seq<nat>) returns (snaps: seq<Snap>)
      requires forall id :: id in rows ==> id in pools
      ensures IsSnapshot(Rows(), rows, snaps)
    {
      snaps := [];
      for n := 0 to |rows|
        invariant IsSnapshot(Rows(), rows[..n], snaps)
      {
        assert rows[..n + 1][..n] == rows[..n];
        var p := pools[rows[n]];
        if p.currentAllocations < p.maxAllocations {
          snaps := snaps + [Snap(rows[n], p.currentAllocations, p.maxAllocations)];
        }
      }
      assert rows[..|rows|] == rows;
    }

    method ConsumeFor(q: Query, rows: seq<nat>, snaps: seq<Snap>, quantity: int, order: Option<nat>) returns (ids: seq<nat>)
      requires Valid() && IsAnswer(Rows(), q, rows) && IsSnapshot(Rows(), rows, snaps) && quantity <= |snaps|
      modifies `pools, `allocations, `nextAllocation
      ensures Valid() && Rows() == Apply(old(Rows()), Take(q, rows, quantity, order)) && TakesFromInventory(old(Rows()), q, Rows())
      ensures ids == ConsecutiveIds(old(nextAllocation), NonNegative(quantity))
    {
      ConsumedIsTaken(Rows(), q, rows, quantity, order, snaps);
      ids := Consume(q.tenant, snaps, quantity, order);
    }

    method ReadInventory(q: Query, rows: seq<nat>) returns (snaps: seq<Snap>)
      requires IsAnswer(Rows(), q, rows)
      ensures IsSnapshot(Rows(), rows, snaps) && |snaps| == |Inventory(Rows(), q)|
    {
      AllocatableIsInventory(Rows(), q, rows);
      snaps := Snapshot(rows);
    }

    method Allocate(q: Query, quantity: int, rows: seq<nat>) returns (r: Outcome)
      requires Valid() && IsAnswer(Rows(), q, rows)
      modifies `pools, `allocations, `nextAllocation
      ensures Valid() && Rows() == Apply(old(Rows()), Take(q, rows, quantity, None))
      ensures r == if |Inventory(old(Rows()), q)| < quantity then Insufficient(|Inventory(old(Rows()), q)|, quantity)
                   else Done(ConsecutiveIds(old(nextAllocation), NonNegative(quantity)))
      ensures TakesFromInventory(old(Rows()), q, Rows())
    {
      var snaps := ReadInventory(q, rows);
      if |snaps| < quantity {
        RefusedTakesNothing(Rows(), q, rows, quantity, None);
        r := Insufficient(|snaps|, quantity);
      } else {
        var ids := ConsumeFor(q, rows, snaps, quantity, None);
        r := Done(ids);
      }
    }

    /** `relayFound` tells whether an online relay node exists. A refused order leaves no trace. */
    method CreateOrder(q: Query, quantity: int, rows: seq<nat>, relayFound: bool) returns (r: Outcome)
      requires Valid() && IsAnswer(Rows(), q, rows)
      modifies `pools, `allocations, `nextAllocation, `orders, `nextOrder
      ensures Valid()
      ensures r == if |Inventory(old(Rows()), q)| < quantity then Insufficient(|Inventory(old(Rows()), q)|, quantity)
                   else if !relayFound then NoRelayNode
                   else Done(ConsecutiveIds(old(nextAllocation), NonNegative(quantity)))
      ensures r.Done? ==>
                && Rows() == Apply(old(Rows()), Take(q, rows, quantity, Some(old(nextOrder))))
                && orders == old(orders)[old(nextOrder) := Order(quantity, true)]
                && nextOrder == old(nextOrder) + 1
      ensures r.Done? ==> TakesFromInventory(old(Rows()), q, Rows())
      ensures !r.Done? ==> Rows() == old(Rows()) && orders == old(orders) && nextOrder == old(nextOrder)
    {
      var snaps := ReadInventory(q, rows);
      if |snaps| < quantity {
        r := Insufficient(|snaps|, quantity);
      } else if !relayFound {
        r := NoRelayNode;
      } else {
        var ids := PlaceOrder(q, quantity, rows, snaps);
        r := Done(ids);
      }
    }

    /** The order is opened, filled and completed. */
    method PlaceOrder(q: Query, quantity: int, rows: seq<nat>, snaps: seq<Snap>) returns (ids: seq<nat>)
      requires Valid() && IsAnswer(Rows(), q, rows) && IsSnapshot(Rows(), rows, snaps) && quantity <= |snaps|
      modifies `pools, `allocations, `nextAllocation, `orders, `nextOrder
      ensures Valid() && Rows() == Apply(old(Rows()), Take(q, rows, quantity, Some(old(nextOrder)))) && TakesFromInventory(old(Rows()), q, Rows())
      ensures orders == old(orders)[old(nextOrder) := Order(quantity, true)] && nextOrder == old(nextOrder) + 1
      ensures ids == ConsecutiveIds(old(nextAllocation), NonNegative(quantity))
    {
      var order := nextOrder;
      ghost var before := Rows();
      OpenOrder(quantity);
      assert Rows() == before;
      ids := ConsumeFor(q, rows, snaps, quantity, Some(order));
      orders := orders[order := orders[order].(completed := true)];
    }

    method OpenOrder(quantity: int)
      modifies `orders, `nextOrder
      ensures orders == old(orders)[old(nextOrder) := Order(quantity, false)] && nextOrder == old(nextOrder) + 1
    {
      orders := orders[nextOrder := Order(quantity, false)];
      nextOrder := nextOrder + 1;
    }

    method Release(tenant: string, ids: seq<nat>) returns (released: nat)
      requires Valid()
      modifies `pools, `allocations
      ensures Valid() && Rows() == ReleaseAll(old(Rows()), tenant, ids)
      ensures released == |set a | a in old(allocations) && a in ids && old(allocations)[a].active && old(allocations)[a].tenant == tenant|
      ensures allocations.Keys == old(allocations).Keys
      ensures forall a :: a in allocations ==>
                allocations[a] == old(allocations)[a].(
                  active := old(allocations)[a].active && !(old(allocations)[a].tenant == tenant && a in ids))
      ensures pools.Keys == old(pools).Keys
      ensures forall p :: p in pools ==> pools[p] == GivenBack(old(pools)[p], |ReleasedOn(old(Rows()), tenant, ids, p)|)
    {
      released := 0;
      ghost var before := Rows();
      for i := 0 to |ids|
        invariant Valid() && Rows() == ReleaseAll(before, tenant, ids[..i])
        invariant released == |ReleasedBy(before, tenant, ids[..i])|
      {
        ghost var mid := Rows();
        var id := ids[i];
        assert ids[..i + 1][..i] == ids[..i];
        ReleaseOneBalances(mid, tenant, id);
        ReleasedGrows(before, tenant, ids, i);
        if id !in allocations || allocations[id].tenant != tenant || !allocations[id].active {
          continue;
        }
        assert AllocationInBooks(mid, id);
        var pool := allocations[id].poolId;
        allocations := allocations[id := allocations[id].(active := false)];
        pools := pools[pool := pools[pool].(
            currentAllocations := pools[pool].currentAllocations - 1, status := Available)];
        released := released + 1;
      }
      assert ids[..|ids|] == ids;
      ReleaseMeaning(before, tenant, ids);
      assert ReleasedBy(before, tenant, ids)
          == set a | a in before.allocations && a in ids && before.allocations[a].active && before.allocations[a].tenant == tenant;
      forall p | p in before.pools { ReleaseRows(before, tenant, ids, p); }
    }

    method DeleteFromPool(tenant: string, pool: nat) returns (r: Outcome)
      requires Valid()
      modifies `pools, `allocations
      ensures Valid() && Rows() == Apply(old(Rows()), Delete(tenant, pool))
      ensures r == if pool !in old(pools) || old(pools)[pool].tenant != tenant then NotFound
                   else if old(pools)[pool].currentAllocations > 0 then InUse else Done([])
      ensures pools == (if r == Done([]) then old(pools) - {pool} else old(pools))
      ensures forall a :: a in old(allocations) && (old(allocations)[a].active || !r.Done? || old(allocations)[a].poolId != pool) ==>
                a in allocations && allocations[a] == old(allocations)[a]
    {
      if pool !in pools || pools[pool].tenant != tenant {
        return NotFound;
      }
      if pools[pool].currentAllocations > 0 {
        return InUse;
      }
      DeleteBalances(Rows(), pool);
      pools := pools - {pool};
      allocations := map a | a in allocations && allocations[a].poolId != pool :: allocations[a];
      r := Done([]);
    }
  }

  /** An unused, available row for a proxy; a maximum that is missing or 0 counts as 1. */
  predicate Offers(pools: map<nat, Pool>, id: nat, tenant: string, proxy: NewProxy) {
    id in pools
    && pools[id] == Pool(tenant, None, proxy.country, proxy.city,
                         if proxy.maxAllocations == None || proxy.maxAllocations == Some(0) then 1 else proxy.maxAllocations.value,
                         0, Available, proxy.expiresAt)
  }

  /** The rows of the proxies stand under consecutive ids. */
  predicate AllOffered(pools: map<nat, Pool>, first: nat, tenant: string, proxies: seq<NewProxy>) {
    forall i :: 0 <= i < |proxies| ==> Offers(pools, first + i, tenant, proxies[i])
  }

  predicate Keeps(before: map<nat, Pool>, after: map<nat, Pool>) {
    forall p :: p in before ==> p in after && after[p] == before[p]
  }

  lemma AddedRow(db: Db, tenant: string, proxies: seq<NewProxy>, i: nat)
    requires i < |proxies|
    ensures Offers(AddAll(db, tenant, proxies).pools, db.nextPool + i, tenant, proxies[i])
  {
    var id, numbered := db.nextPool + i, Numbered(db.nextPool, FreshPools(tenant, proxies));
    assert id in numbered && numbered[id] == FreshPool(tenant, proxies[i]);
  }

  lemma Addition(db: Db, tenant: string, proxies: seq<NewProxy>) returns (after: Db)
    requires BooksBalance(db)
    ensures after == AddAll(db, tenant, proxies) && BooksBalance(after)
    ensures AllOffered(after.pools, db.nextPool, tenant, proxies) && Keeps(db.pools, after.pools)
  {
    after := AddAll(db, tenant, proxies);
    AddAllBalances(db, tenant, proxies);
    forall i | 0 <= i < |proxies| ensures Offers(after.pools, db.nextPool + i, tenant, proxies[i]) {
      AddedRow(db, tenant, proxies, i);
    }
    forall p | p in db.pools ensures p < db.nextPool { assert PoolInBooks(db, p); }
  }

  /** The first `i` of the remembered rows have given a slot. */
  ghost predicate Consumed(before: Db, now: Db, tenant: string, snaps: seq<Snap>, order: Option<nat>, i: nat) {
    && i <= |snaps| && (forall k :: 0 <= k < |snaps| ==> snaps[k].id in before.pools)
    && now == TakeEach(before, tenant, snaps[..i], order)
  }

  lemma ConsumedNext(before: Db, now: Db, tenant: string, snaps: seq<Snap>, order: Option<nat>, i: nat)
    requires i < |snaps| && Consumed(before, now, tenant, snaps, order, i)
    ensures snaps[i].id in now.pools && now.nextAllocation == before.nextAllocation + i
    ensures Consumed(before, TakeOne(now, tenant, snaps[i], order), tenant, snaps, order, i + 1)
  {
    TakeEachStep(before, tenant, snaps, order, i);
  }

  ghost predicate IsSnapshot(db: Db, rows: seq<nat>, snaps: seq<Snap>)
    requires forall id :: id in rows ==> id in db.pools
  {
    snaps == SnapsOf(db, Allocatable(db, rows))
  }

  /** What the consuming loop amounts to, on the rows both entry points hand it. */
  lemma ConsumedIsTaken(db: Db, q: Query, rows: seq<nat>, quantity: int, order: Option<nat>, snaps: seq<Snap>)
    requires BooksBalance(db) && IsAnswer(db, q, rows) && IsSnapshot(db, rows, snaps) && quantity <= |snaps|
    ensures TakeEach(db, q.tenant, snaps[..NonNegative(quantity)], order) == Apply(db, Take(q, rows, quantity, order))
    ensures BooksBalance(Apply(db, Take(q, rows, quantity, order)))
    ensures TakesFromInventory(db, q, Apply(db, Take(q, rows, quantity, order)))
  {
    TakenFromInventory(db, q, rows, quantity, order);
    var chosen := Chosen(db, rows, quantity);
    assert snaps[..NonNegative(quantity)] == SnapsOf(db, chosen);
    TakeEachIsTakeAll(db, q.tenant, chosen, order);
    ApplyBalances(db, Take(q, rows, quantity, order));
  }

  lemma RefusedTakesNothing(db: Db, q: Query, rows: seq<nat>, quantity: int, order: Option<nat>)
    requires IsAnswer(db, q, rows) && |Allocatable(db, rows)| < quantity
    ensures Apply(db, Take(q, rows, quantity, order)) == db
  {
    TakeEachIsTakeAll(db, q.tenant, [], order);
  }

  function NonNegative(n: int): nat {
    if n <= 0 then 0 else n
  }

  function ConsecutiveIds(first: nat, n: nat): (ids: seq<nat>)
    ensures |ids| == n && forall i :: 0 <= i < n ==> ids[i] == first + i
  {
    if n == 0 then [] else ConsecutiveIds(first, n - 1) + [first + n - 1]
  }

  lemma ClaimAt(db: Db, tenant: string, chosen: seq<nat>, order: Option<nat>, i: nat)
    requires i < |chosen|
    ensures var id, after := db.nextAllocation + i, TakeAll(db, tenant, chosen, order);
            id in after.allocations && after.allocations[id] == Allocation(tenant, chosen[i], order, true)
  {
    var id, numbered := db.nextAllocation + i, Numbered(db.nextAllocation, Claims(tenant, chosen, order));
    assert id in numbered && numbered[id] == Allocation(tenant, chosen[i], order, true);
  }

  /** The i-th id a request hands out names its own new claim on the i-th row it chose. */
  lemma IdsNameClaims(db: Db, tenant: string, chosen: seq<nat>, order: Option<nat>, i: nat)
    requires forall a :: a in db.allocations ==> a < db.nextAllocation
    requires i < |chosen|
    ensures var id, after := ConsecutiveIds(db.nextAllocation, |chosen|)[i], TakeAll(db, tenant, chosen, order);
            id !in db.allocations && id in after.allocations
            && after.allocations[id] == Allocation(tenant, chosen[i], order, true)
  {
    ClaimAt(db, tenant, chosen, order, i);
    assert ConsecutiveIds(db.nextAllocation, |chosen|)[i] == db.nextAllocation + i;
  }

  lemma SmallRemainder(i: nat, n: nat)
    requires i < n
    ensures i % n == i
  {
  }

  lemma AddNothing(db: Db, tenant: string)
    ensures AddAll(db, tenant, []) == db
  {
    assert AddAll(db, tenant, []).pools == db.pools;
  }

  lemma AddExtends(db: Db, tenant: string, proxies: seq<NewProxy>, i: nat)
    requires i < |proxies|
    ensures AddAll(db, tenant, proxies[..i + 1]).pools
         == AddAll(db, tenant, proxies[..i]).pools[db.nextPool + i := FreshPool(tenant, proxies[i])]
  {
    var longer := FreshPools(tenant, proxies[..i + 1]);
    assert longer[..i] == FreshPools(tenant, proxies[..i]);
    assert Numbered(db.nextPool, longer) == Numbered(db.nextPool, longer[..i])[db.nextPool + i := longer[i]];
  }

  /** The next id of a release counts unless an earlier one already ended the same allocation. */
  lemma ReleasedGrows(db: Db, tenant: string, ids: seq<nat>, i: nat)
    requires BooksBalance(db) && i < |ids|
    ensures |ReleasedBy(db, tenant, ids[..i + 1])|
         == |ReleasedBy(db, tenant, ids[..i])|
            + (if Releasable(ReleaseAll(db, tenant, ids[..i]), tenant, ids[i]) then 1 else 0)
  {
    ReleaseMeaning(db, tenant, ids[..i]);
    assert ids[..i + 1] == ids[..i] + [ids[i]];
    var counts := Releasable(ReleaseAll(db, tenant, ids[..i]), tenant, ids[i]);
    assert ReleasedBy(db, tenant, ids[..i + 1])
        == ReleasedBy(db, tenant, ids[..i]) + (if counts then {ids[i]} else {});
    assert counts ==> ids[i] !in ReleasedBy(db, tenant, ids[..i]);
  }
}
