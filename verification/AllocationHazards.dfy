/** What overlapping calls do beyond the counters: rows marked exhausted although they have room, and active
    allocations that a deletion takes along. */
module AllocationHazards {
  import opened Sums
  import opened Allocator
  import opened AllocationRaces

  // ---------- Rows hidden by a stale status ----------

  /** The inventory query passes over the row although it could give a slot. */
  predicate Hidden(p: Pool) {
    p.status == Exhausted && HasRoom(p)
  }

  ghost predicate NothingHidden(s: State) {
    forall p :: p in s.db.pools ==> !Hidden(s.db.pools[p])
  }

  /** What requests remember of their rows is not above what the rows hold now. */
  ghost predicate SnapsBelow(s: State) {
    forall call, i {:trigger s.requests[call].picks[i]} :: call in s.requests && 0 <= i < |s.requests[call].picks| ==>
      SnapBelow(s.db, s.requests[call].picks[i])
  }

  predicate SnapBelow(db: Db, snap: Snap) {
    snap.id in db.pools ==> snap.current <= db.pools[snap.id].currentAllocations && snap.max == db.pools[snap.id].maxAllocations
  }

  /** No release commits on a row that a request has read and not taken yet. */
  predicate Patient(s: State, e: Event) {
    e.CommittedRelease? && e.call in s.releases && s.releases[e.call] in s.db.allocations ==>
      forall call :: call in s.requests ==> !Wants(s.requests[call], s.db.allocations[s.releases[e.call]].poolId)
  }

  lemma PickHidesNothing(s: State, call: nat)
    requires Sound(s) && Enabled(s, Picked(call)) && SnapsBelow(s) && NothingHidden(s)
    ensures SnapsBelow(PickNext(s, call)) && NothingHidden(PickNext(s, call))
  {
    var s', snap := PickNext(s, call), s.requests[call].picks[0];
    assert SnapBelow(s.db, snap);
    forall c, i | c in s'.requests && 0 <= i < |s'.requests[c].picks| ensures SnapBelow(s'.db, s'.requests[c].picks[i]) {
      var j := if c == call then i + 1 else i;
      assert s'.requests[c].picks[i] == s.requests[c].picks[j];
      assert SnapBelow(s.db, s.requests[c].picks[j]);
    }
  }

  lemma BeginHidesNothing(s: State, e: Event)
    requires e.Began? && Sound(s) && Enabled(s, e) && SnapsBelow(s) && NothingHidden(s)
    ensures SnapsBelow(Next(s, e)) && NothingHidden(Next(s, e))
  {
    var s' := Next(s, e);
    forall c, i | c in s'.requests && 0 <= i < |s'.requests[c].picks| ensures SnapBelow(s'.db, s'.requests[c].picks[i]) {
      if c != e.call { assert SnapBelow(s.db, s.requests[c].picks[i]); }
    }
  }

  lemma AddHidesNothing(s: State, e: Event)
    requires e.Added? && Sound(s) && SnapsBelow(s) && NothingHidden(s)
    ensures SnapsBelow(Next(s, e)) && NothingHidden(Next(s, e))
  {
    var s' := Next(s, e);
    forall p | p in s'.db.pools && p !in s.db.pools ensures !Hidden(s'.db.pools[p]) {
      assert s'.db.pools[p] == FreshPools(e.tenant, e.proxies)[p - s.db.nextPool];
    }
    forall c, i | c in s'.requests && 0 <= i < |s'.requests[c].picks| ensures SnapBelow(s'.db, s'.requests[c].picks[i]) {
      assert SoundRequest(s.requests[c], s.db.nextPool) && SnapBelow(s.db, s.requests[c].picks[i]);
    }
  }

  lemma ReleaseHidesNothing(s: State, e: Event)
    requires e.CommittedRelease? && Enabled(s, e) && Patient(s, e) && SnapsBelow(s) && NothingHidden(s)
    ensures SnapsBelow(Next(s, e)) && NothingHidden(Next(s, e))
  {
    var s' := Next(s, e);
    forall c, i | c in s'.requests && 0 <= i < |s'.requests[c].picks| ensures SnapBelow(s'.db, s'.requests[c].picks[i]) {
      assert SnapBelow(s.db, s.requests[c].picks[i]) && Wants(s.requests[c], s.requests[c].picks[i].id);
    }
  }

  lemma StepHidesNothing(s: State, e: Event)
    requires Sound(s) && Enabled(s, e) && Patient(s, e) && SnapsBelow(s) && NothingHidden(s)
    ensures SnapsBelow(Next(s, e)) && NothingHidden(Next(s, e))
  {
    match e
    case Added(_, _) => AddHidesNothing(s, e);
    case Began(_, _, _, _, _) => BeginHidesNothing(s, e);
    case Picked(call) => PickHidesNothing(s, call);
    case CommittedRelease(_) => ReleaseHidesNothing(s, e);
    case _ =>
      var s' := Next(s, e);
      forall c, i | c in s'.requests && 0 <= i < |s'.requests[c].picks| ensures SnapBelow(s'.db, s'.requests[c].picks[i]) {
        assert SnapBelow(s.db, s.requests[c].picks[i]);
      }
  }

  /** As long as no release commits on a row between a request's read and its transaction, no row with room is
      ever marked exhausted, whatever else overlaps. */
  lemma {:induction false} NeverHidden(states: seq<State>, events: seq<Event>, n: nat)
    requires AllocationRaces.IsRun(states, events) && n < |states|
    requires forall i :: 0 <= i < |events| ==> Patient(states[i], events[i])
    ensures SnapsBelow(states[n]) && NothingHidden(states[n])
    decreases n
  {
    if n == 0 {
      forall p | p in states[0].db.pools ensures !Hidden(states[0].db.pools[p]) { assert PoolInBooks(states[0].db, p); }
    } else {
      NeverHidden(states, events, n - 1);
      CounterDrift(states, events);
      StepHidesNothing(states[n - 1], events[n - 1]);
    }
  }

  const HALF_TAKEN := Pool("tenant", None, "US", None, 2, 1, Allocated, None)
  const HELD := Allocation("tenant", 0, None, true)

  lemma HalfTakenStart() returns (s: State)
    ensures Reachable(s, 1) && s.db == Db(map[0 := HALF_TAKEN], map[0 := HELD], 1, 1)
    ensures s.requests == map[] && s.releases == map[]
  {
    var db := Db(map[0 := HALF_TAKEN], map[0 := HELD], 1, 1);
    s := State(db, map[], map[], map[], map[]);
    assert ActiveOn(db, 0) == {0};
    ReachStart(s, 1);
  }

  lemma HalfTakenChosen(db: Db)
    requires db.pools == map[0 := HALF_TAKEN]
    ensures Allocatable(db, [0]) == [0] && Chosen(db, [0], 1) == [0]
  {
    assert HasRoom(HALF_TAKEN);
    assert [0][..0] == [] && Allocatable(db, []) == [];
    assert [0][..1] == [0];
  }

  const LAST_SLOT := Request("tenant", [Snap(0, 1, 2)], None)

  lemma HalfTakenRead() returns (s: State)
    ensures Reachable(s, 1) && s.db == Db(map[0 := HALF_TAKEN], map[0 := HELD], 1, 1)
    ensures s.requests == map[0 := LAST_SLOT] && s.releases == map[]
  {
    var s0 := HalfTakenStart();
    HalfTakenChosen(s0.db);
    var e := Began(0, ANY_US, [0], 1, None);
    assert SnapsOf(s0.db, [0]) == [Snap(0, 1, 2)];
    ReachNext(s0, e, 1);
    s := Next(s0, e);
  }

  lemma ReleasedMeanwhile() returns (s: State)
    ensures Reachable(s, 1) && s.requests == map[0 := LAST_SLOT]
    ensures s.db.pools == map[0 := HALF_TAKEN.(currentAllocations := 0, status := Available)]
  {
    var s1 := HalfTakenRead();
    ReachNext(s1, FoundRelease(1, "tenant", 0), 1);
    var s2 := Next(s1, FoundRelease(1, "tenant", 0));
    ReachNext(s2, CommittedRelease(1), 1);
    s := Next(s2, CommittedRelease(1));
  }

  /** Otherwise one request and one release are enough: the row has room, is marked exhausted, and no answer of
      the inventory holds it. */
  lemma StaleStatusHides() returns (s: State)
    ensures Reachable(s, 1) && 0 in s.db.pools && Hidden(s.db.pools[0])
    ensures forall q, rows :: IsAnswer(s.db, q, rows) ==> 0 !in rows
  {
    var before := ReleasedMeanwhile();
    assert Next(before, Picked(0)).requests.Keys == {0};
    ReachNext(before, Picked(0), 1);
    s := Next(before, Picked(0));
  }

  // ---------- Active allocations that end ----------

  /** The active allocations that a step ends. */
  ghost function EndedBy(s: State, e: Event): set<nat>
    requires Enabled(s, e)
  {
    set a | a in s.db.allocations && s.db.allocations[a].active
            && !(a in Next(s, e).db.allocations && Next(s, e).db.allocations[a].active)
  }

  /** A release ends the allocation it found, if that is still active; a deletion ends every active allocation of
      its row; no other step ends any. */
  lemma EndedExactly(s: State, e: Event)
    requires Sound(s) && Enabled(s, e)
    ensures EndedBy(s, e)
         == match e
            case CommittedRelease(call) => set a | a in s.db.allocations && s.db.allocations[a].active && a == s.releases[call]
            case CommittedDelete(call) => ActiveOn(s.db, s.deletes[call])
            case _ => {}
  {
  }

  /** In every run with distinct releases a deletion takes as many active allocations along as the counter of its
      row shows when it commits: none exactly when its guard still holds by then. */
  lemma DeletionTakes(states: seq<State>, events: seq<Event>, i: nat)
    requires AllocationRaces.IsRun(states, events) && i < |events| && events[i].CommittedDelete?
    requires forall j :: 0 <= j < |states| ==> DistinctReleases(states[j])
    requires states[i].deletes[events[i].call] in states[i].db.pools
    ensures var counter := states[i].db.pools[states[i].deletes[events[i].call]].currentAllocations;
            |EndedBy(states[i], events[i])| == counter && (EndedBy(states[i], events[i]) == {} <==> counter <= 0)
  {
    CounterDrift(states, events);
    ExactWithDistinctReleases(states, events, i);
    EndedExactly(states[i], events[i]);
  }

  /** No transaction takes a slot of a row whose deletion has passed its guard. */
  predicate SparesDoomed(s: State, e: Event) {
    e.Picked? && e.call in s.requests && s.requests[e.call].picks != [] ==>
      forall c :: c in s.deletes ==> s.deletes[c] != s.requests[e.call].picks[0].id
  }

  ghost predicate GuardsHold(s: State) {
    forall c :: c in s.deletes && s.deletes[c] in s.db.pools ==> s.db.pools[s.deletes[c]].currentAllocations <= 0
  }

  lemma StepGuards(s: State, e: Event)
    requires Enabled(s, e) && GuardsHold(s) && SparesDoomed(s, e)
    ensures GuardsHold(Next(s, e))
  {
    if e.Added? {
      var s' := Next(s, e);
      forall c | c in s'.deletes && s'.deletes[c] in s'.db.pools ensures s'.db.pools[s'.deletes[c]].currentAllocations <= 0 {
        var p := s.deletes[c];
        if s.db.nextPool <= p < s.db.nextPool + |e.proxies| {
          assert s'.db.pools[p] == FreshPools(e.tenant, e.proxies)[p - s.db.nextPool];
        }
      }
    }
  }

  lemma {:induction false} RunGuards(states: seq<State>, events: seq<Event>, n: nat)
    requires AllocationRaces.IsRun(states, events) && n < |states|
    requires forall i :: 0 <= i < |events| ==> SparesDoomed(states[i], events[i])
    ensures GuardsHold(states[n])
    decreases n
  {
    if n > 0 {
      RunGuards(states, events, n - 1);
      StepGuards(states[n - 1], events[n - 1]);
    }
  }

  /** While no slot is taken under a deletion and overlapping releases are distinct, an active allocation ends
      only by a release that names it. */
  lemma OnlyReleasesEnd(states: seq<State>, events: seq<Event>, i: nat, a: nat)
    requires AllocationRaces.IsRun(states, events) && i < |events|
    requires forall j :: 0 <= j < |states| ==> DistinctReleases(states[j])
    requires forall j :: 0 <= j < |events| ==> SparesDoomed(states[j], events[j])
    requires a in EndedBy(states[i], events[i])
    ensures events[i].CommittedRelease? && states[i].releases[events[i].call] == a
  {
    CounterDrift(states, events);
    EndedExactly(states[i], events[i]);
    if events[i].CommittedDelete? {
      RunGuards(states, events, i);
      assert states[i].db.allocations[a].poolId in states[i].db.pools;
      DeletionTakes(states, events, i);
    }
  }

  /** A slot taken after the guard of a deletion is lost with it, although a single request was under way. */
  lemma DeletionLosesSlot() returns (s: State, e: Event)
    ensures Reachable(s, 1) && Enabled(s, e) && e.CommittedDelete? && EndedBy(s, e) != {}
  {
    var s0 := ReadTogether(1, 1);
    ReachNext(s0, FoundDelete(1, "tenant", 0), 1);
    var s1 := Next(s0, FoundDelete(1, "tenant", 0));
    assert Next(s1, Picked(0)).requests.Keys == s1.requests.Keys;
    assert |Next(s1, Picked(0)).requests| == |Next(s1, Picked(0)).requests.Keys|;
    ReachNext(s1, Picked(0), 1);
    s, e := Next(s1, Picked(0)), CommittedDelete(1);
    assert 0 in EndedBy(s, e);
  }
}
