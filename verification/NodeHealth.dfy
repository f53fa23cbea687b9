/** The health checker: one counter of bad checks and one of recovering checks per node, both kept in
    Redis where they may expire at any time, and the node's status, which others write too. */
module NodeHealth {

  datatype Status = Online | Offline | Other

  /** A missing counter is 0. */
  datatype State = State(status: Status, health: nat, recovery: nat)

  /** `seen` is the status read when the job started; it may be out of date. */
  datatype Event =
    | Check(healthy: bool, seen: Status, unhealthyThreshold: int, healthyThreshold: int)
    | HealthExpires
    | RecoveryExpires
    | StatusSet(status: Status)

  predicate MarksOffline(s: State, e: Event) {
    e.Check? && !e.healthy && s.health + 1 >= e.unhealthyThreshold && e.seen == Online
  }

  predicate MarksOnline(s: State, e: Event) {
    e.Check? && e.healthy && e.seen == Offline && s.recovery + 1 >= e.healthyThreshold
  }

  function Checked(s: State, e: Event): State
    requires e.Check?
  {
    if !e.healthy then State(if MarksOffline(s, e) then Offline else s.status, s.health + 1, 0)
    else if e.seen != Offline then State(s.status, 0, s.recovery)
    else if MarksOnline(s, e) then State(Online, 0, 0)
    else State(s.status, s.health, s.recovery + 1)
  }

  function Next(s: State, e: Event): State {
    match e
    case Check(_, _, _, _) => Checked(s, e)
    case HealthExpires => s.(health := 0)
    case RecoveryExpires => s.(recovery := 0)
    case StatusSet(status) => s.(status := status)
  }

  ghost predicate IsRun(states: seq<State>, events: seq<Event>) {
    && |states| == |events| + 1
    && states[0].health == 0 && states[0].recovery == 0
    && forall i :: 0 <= i < |events| ==> states[i + 1] == Next(states[i], events[i])
  }

  function WithResult(results: seq<bool>, e: Event): seq<bool> {
    if e.Check? then results + [e.healthy] else results
  }

  /** The results of all checks, oldest first. */
  function Results(events: seq<Event>): seq<bool> {
    if events == [] then [] else WithResult(Results(events[..|events| - 1]), events[|events| - 1])
  }

  /** How many of the latest results in a row equal `v`. */
  function Tail(results: seq<bool>, v: bool): (n: nat)
    ensures n <= |results|
  {
    if results == [] || results[|results| - 1] != v then 0 else 1 + Tail(results[..|results| - 1], v)
  }

  /** The latest `threshold` results are all `v`. */
  predicate Earned(results: seq<bool>, threshold: int, v: bool) {
    threshold <= |results| && forall j :: 0 <= j < |results| && |results| - threshold <= j ==> results[j] == v
  }

  lemma {:induction false} TailIsEarned(results: seq<bool>, threshold: int, v: bool)
    ensures Earned(results, threshold, v) <==> threshold <= Tail(results, v)
    decreases |results|
  {
    if results != [] {
      var n := |results| - 1;
      var before := results[..n];
      TailIsEarned(before, threshold - 1, v);
      if Earned(results, threshold, v) && 0 < threshold {
        assert results[n] == v;
        forall j | 0 <= j < n && n - (threshold - 1) <= j ensures before[j] == v { assert before[j] == results[j]; }
      }
      if threshold <= Tail(results, v) && 0 < threshold {
        forall j | 0 <= j < |results| && |results| - threshold <= j ensures results[j] == v {
          if j < n { assert before[j] == v; }
        }
      }
    }
  }

  lemma ResultsGrow(events: seq<Event>, n: nat)
    requires n < |events|
    ensures Results(events[..n + 1]) == WithResult(Results(events[..n]), events[n])
  {
    assert events[..n + 1][..n] == events[..n];
  }

  lemma TailGrows(results: seq<bool>, r: bool, v: bool)
    ensures Tail(results + [r], v) == if r == v then 1 + Tail(results, v) else 0
  {
    assert (results + [r])[..|results|] == results;
  }

  // ---------- Recovery ----------

  lemma {:induction false} RecoveryCountsHealthy(states: seq<State>, events: seq<Event>, n: nat)
    requires IsRun(states, events) && n <= |events|
    ensures states[n].recovery <= Tail(Results(events[..n]), true)
    decreases n
  {
    if n > 0 {
      RecoveryCountsHealthy(states, events, n - 1);
      ResultsGrow(events, n - 1);
    }
  }

  /** Whatever expires, whatever else writes the status and however old the status a check works with:
      a node is marked online only when the latest `healthyThreshold` checks were all healthy. */
  lemma OnlineIsEarned(states: seq<State>, events: seq<Event>, n: nat)
    requires IsRun(states, events) && n < |events| && MarksOnline(states[n], events[n])
    ensures states[n + 1] == State(Online, 0, 0)
    ensures Earned(Results(events[..n + 1]), events[n].healthyThreshold, true)
  {
    RecoveryCountsHealthy(states, events, n);
    ResultsGrow(events, n);
    TailIsEarned(Results(events[..n + 1]), events[n].healthyThreshold, true);
  }

  // ---------- Failure ----------

  /** No more bad checks are counted than the latest results hold in a row. */
  predicate Clean(s: State, results: seq<bool>) {
    s.health <= Tail(results, false)
  }

  /** A check works with the current status, and whoever else takes a node out of offline does so only
      when the counter holds nothing older than the latest healthy check. */
  predicate CarefulEvent(s: State, results: seq<bool>, e: Event) {
    && (e.Check? ==> e.seen == s.status)
    && (e.StatusSet? && s.status == Offline && e.status != Offline ==> Clean(s, results))
  }

  ghost predicate Careful(states: seq<State>, events: seq<Event>)
    requires IsRun(states, events)
  {
    forall i :: 0 <= i < |events| ==> CarefulEvent(states[i], Results(events[..i]), events[i])
  }

  lemma StaysClean(s: State, results: seq<bool>, e: Event)
    requires s.status == Offline || Clean(s, results)
    requires CarefulEvent(s, results, e)
    ensures Next(s, e).status == Offline || Clean(Next(s, e), WithResult(results, e))
  {
    if e.Check? { TailGrows(results, e.healthy, false); }
  }

  lemma {:induction false} HealthCountsUnhealthy(states: seq<State>, events: seq<Event>, n: nat)
    requires IsRun(states, events) && Careful(states, events) && n <= |events|
    ensures states[n].status == Offline || Clean(states[n], Results(events[..n]))
    decreases n
  {
    if n > 0 {
      HealthCountsUnhealthy(states, events, n - 1);
      ResultsGrow(events, n - 1);
      StaysClean(states[n - 1], Results(events[..n - 1]), events[n - 1]);
    }
  }

  /** In a careful run a node is marked offline only when the latest `unhealthyThreshold` checks were
      all unhealthy. */
  lemma OfflineIsEarned(states: seq<State>, events: seq<Event>, n: nat)
    requires IsRun(states, events) && Careful(states, events)
    requires n < |events| && MarksOffline(states[n], events[n])
    ensures states[n + 1].status == Offline
    ensures Earned(Results(events[..n + 1]), events[n].unhealthyThreshold, false)
  {
    HealthCountsUnhealthy(states, events, n);
    ResultsGrow(events, n);
    TailIsEarned(Results(events[..n + 1]), events[n].unhealthyThreshold, false);
  }

  /** The condition is exact: for an online node the next unhealthy check can be trusted, whatever its
      threshold, if and only if the counter is clean. */
  lemma NextMarkIsEarnedIff(s: State, results: seq<bool>)
    requires s.status == Online
    ensures Clean(s, results)
       <==> forall t: int, h: int ::
              MarksOffline(s, Check(false, Online, t, h)) ==> Earned(results + [false], t, false)
  {
    forall t: int | MarksOffline(s, Check(false, Online, t, 0)) && Clean(s, results) ensures Earned(results + [false], t, false) {
      TailIsEarned(results + [false], t, false);
    }
    if !Clean(s, results) {
      var t := s.health + 1;
      TailIsEarned(results + [false], t, false);
      assert MarksOffline(s, Check(false, Online, t, 0));
    }
  }

  // ---------- Exactly when the status changes ----------

  /** Checks that work with the current status, and nothing else: no expiry and no other writer. */
  ghost predicate Quiet(states: seq<State>, events: seq<Event>)
    requires IsRun(states, events)
  {
    forall i :: 0 <= i < |events| ==> events[i].Check? && events[i].seen == states[i].status
  }

  /** The counter that matters for the status is the number of latest results in a row. */
  predicate CounterIsTail(s: State, results: seq<bool>) {
    if s.status == Offline then s.recovery == Tail(results, true) else s.health == Tail(results, false)
  }

  lemma CheckKeepsTail(s: State, results: seq<bool>, e: Event)
    requires CounterIsTail(s, results) && e.Check? && e.seen == s.status
    ensures CounterIsTail(Next(s, e), results + [e.healthy])
  {
    TailGrows(results, e.healthy, true);
    TailGrows(results, e.healthy, false);
  }

  lemma {:induction false} CountersAreTails(states: seq<State>, events: seq<Event>, n: nat)
    requires IsRun(states, events) && Quiet(states, events) && n <= |events|
    ensures CounterIsTail(states[n], Results(events[..n]))
    decreases n
  {
    if n > 0 {
      CountersAreTails(states, events, n - 1);
      ResultsGrow(events, n - 1);
      CheckKeepsTail(states[n - 1], Results(events[..n - 1]), events[n - 1]);
    }
  }

  /** Then the checker is exact hysteresis: a node goes offline with the check that makes the latest
      `unhealthyThreshold` results all unhealthy, comes back with the check that makes the latest `healthyThreshold`
      results all healthy, and changes its status at no other check. */
  lemma ExactHysteresis(states: seq<State>, events: seq<Event>, n: nat)
    requires IsRun(states, events) && Quiet(states, events) && n < |events|
    ensures var e, results := events[n], Results(events[..n + 1]);
            states[n + 1].status ==
              if !e.healthy && states[n].status == Online && Earned(results, e.unhealthyThreshold, false) then Offline
              else if e.healthy && states[n].status == Offline && Earned(results, e.healthyThreshold, true) then Online
              else states[n].status
  {
    CountersAreTails(states, events, n);
    ResultsGrow(events, n);
    var e, results := events[n], Results(events[..n + 1]);
    TailIsEarned(results, e.unhealthyThreshold, false);
    TailIsEarned(results, e.healthyThreshold, true);
  }

  // ---------- What a careless writer does ----------

  ghost predicate Reachable(s: State, events: seq<Event>) {
    exists states :: IsRun(states, events) && states[|events|] == s
  }

  lemma ReachNext(s: State, events: seq<Event>, e: Event)
    requires Reachable(s, events)
    ensures Reachable(Next(s, e), events + [e])
    ensures Results(events + [e]) == WithResult(Results(events), e)
  {
    var states :| IsRun(states, events) && states[|events|] == s;
    var more, all := states + [Next(s, e)], events + [e];
    forall i | 0 <= i < |all| ensures more[i + 1] == Next(more[i], all[i]) {
      if i < |events| { assert all[i] == events[i]; }
    }
    assert IsRun(more, all);
    assert all[..|events|] == events;
  }

  /** Status reports of the agent force a node online without touching the counters. Three failed checks,
      one healthy one, a report, and a single failed check takes the node offline again although the
      threshold is three. */
  lemma ReportDefeatsHysteresis() returns (s: State, events: seq<Event>, e: Event)
    ensures Reachable(s, events) && s.status == Online && e == Check(false, Online, 3, 2)
    ensures MarksOffline(s, e) && !Earned(Results(events + [e]), 3, false)
    ensures Results(events + [e]) == [false, false, false, true, false]
  {
    s, events := State(Online, 0, 0), [];
    assert IsRun([s], events) && [s][0] == s;
    var bad, good := Check(false, Online, 3, 2), Check(true, Offline, 3, 2);
    ReachNext(s, events, bad);
    s, events := Next(s, bad), events + [bad];
    ReachNext(s, events, bad);
    s, events := Next(s, bad), events + [bad];
    ReachNext(s, events, bad);
    s, events := Next(s, bad), events + [bad];
    ReachNext(s, events, good);
    s, events := Next(s, good), events + [good];
    ReachNext(s, events, StatusSet(Online));
    s, events := Next(s, StatusSet(Online)), events + [StatusSet(Online)];
    e := bad;
    ReachNext(s, events, e);
    assert Results(events + [e])[3];
  }

  // ---------- The processor ----------

  /** A node row as the job read it, with the verdict of its check and the settings of its group. */
  datatype Row = Row(id: string, seen: Status, healthy: bool)
  datatype Group = Group(enabled: bool, unhealthyThreshold: int, healthyThreshold: int, rows: seq<Row>)

  function CheckOf(g: Group, row: Row): Event {
    Check(row.healthy, row.seen, g.unhealthyThreshold, g.healthyThreshold)
  }

  /** What one node goes through in one group. */
  function AfterRows(g: Group, rows: seq<Row>, id: string, s: State): State {
    if rows == [] then s
    else
      var before, row := AfterRows(g, rows[..|rows| - 1], id, s), rows[|rows| - 1];
      if row.id == id then Checked(before, CheckOf(g, row)) else before
  }

  function AfterGroups(groups: seq<Group>, id: string, s: State): State {
    if groups == [] then s
    else
      var before, g := AfterGroups(groups[..|groups| - 1], id, s), groups[|groups| - 1];
      if g.enabled then AfterRows(g, g.rows, id, before) else before
  }

  predicate CheckedIn(groups: seq<Group>, id: string) {
    exists i, j :: 0 <= i < |groups| && groups[i].enabled && 0 <= j < |groups[i].rows| && groups[i].rows[j].id == id
  }

  lemma {:induction false} RowsElsewhere(g: Group, rows: seq<Row>, id: string, s: State)
    requires forall j :: 0 <= j < |rows| ==> rows[j].id != id
    ensures AfterRows(g, rows, id, s) == s
    decreases |rows|
  {
    if rows != [] { RowsElsewhere(g, rows[..|rows| - 1], id, s); }
  }

  /** A node that is in no enabled group goes through no check. */
  lemma {:induction false} UncheckedUntouched(groups: seq<Group>, id: string, s: State)
    requires !CheckedIn(groups, id)
    ensures AfterGroups(groups, id, s) == s
    decreases |groups|
  {
    if groups != [] {
      var n := |groups| - 1;
      assert forall i :: 0 <= i < n ==> groups[..n][i] == groups[i];
      UncheckedUntouched(groups[..n], id, s);
      if groups[n].enabled { RowsElsewhere(groups[n], groups[n].rows, id, s); }
    }
  }

  /** After the groups, ungrouped online nodes that have been silent too long go offline at once. */
  function AfterJob(groups: seq<Group>, silent: set<string>, id: string, s: State): State {
    var t := AfterGroups(groups, id, s);
    if id in silent && !CheckedIn(groups, id) && t.status == Online then t.(status := Offline) else t
  }

  /** The job checks the nodes of enabled groups, and of the others only takes silent online ones offline. */
  lemma JobMeaning(groups: seq<Group>, silent: set<string>, id: string, s: State)
    ensures CheckedIn(groups, id) || id !in silent ==> AfterJob(groups, silent, id, s) == AfterGroups(groups, id, s)
    ensures !CheckedIn(groups, id) ==>
              AfterJob(groups, silent, id, s) == if id in silent && s.status == Online then s.(status := Offline) else s
  {
    if !CheckedIn(groups, id) { UncheckedUntouched(groups, id, s); }
  }

  class HealthProcessor {
    var statuses: map<string, Status>
    var health: map<string, nat>
    var recovery: map<string, nat>

    function Of(id: string): State
      requires id in statuses
      reads this
    {
      State(statuses[id], if id in health then health[id] else 0, if id in recovery then recovery[id] else 0)
    }

    method IncrHealth(id: string) returns (count: nat)
      modifies `health
      ensures health == old(health)[id := count] && count == 1 + (if id in old(health) then old(health)[id] else 0)
    {
      count := (if id in health then health[id] else 0) + 1;
      health := health[id := count];
    }

    method IncrRecovery(id: string) returns (count: nat)
      modifies `recovery
      ensures recovery == old(recovery)[id := count] && count == 1 + (if id in old(recovery) then old(recovery)[id] else 0)
    {
      count := (if id in recovery then recovery[id] else 0) + 1;
      recovery := recovery[id := count];
    }

    method CheckNodeHealth(g: Group, row: Row)
      requires row.id in statuses
      modifies this
      ensures statuses.Keys == old(statuses).Keys
      ensures Of(row.id) == Checked(old(Of(row.id)), CheckOf(g, row))
      ensures !row.healthy ==> Of(row.id).health == old(Of(row.id)).health + 1 && Of(row.id).recovery == 0
      ensures !row.healthy && row.seen == Online && old(Of(row.id)).health + 1 >= g.unhealthyThreshold ==> Of(row.id).status == Offline
      ensures !row.healthy && !(row.seen == Online && old(Of(row.id)).health + 1 >= g.unhealthyThreshold) ==>
                Of(row.id).status == old(Of(row.id)).status
      ensures row.healthy && row.seen == Offline && old(Of(row.id)).recovery + 1 >= g.healthyThreshold ==>
                Of(row.id) == State(Online, 0, 0)
      ensures row.healthy && row.seen == Offline && old(Of(row.id)).recovery + 1 < g.healthyThreshold ==>
                Of(row.id) == old(Of(row.id)).(recovery := old(Of(row.id)).recovery + 1)
      ensures row.healthy && row.seen != Offline ==> Of(row.id) == old(Of(row.id)).(health := 0)
      ensures forall other :: other in statuses && other != row.id ==> Of(other) == old(Of(other))
    {
      if !row.healthy {
        var count := IncrHealth(row.id);
        recovery := recovery - {row.id};
        if count >= g.unhealthyThreshold && row.seen == Online {
          statuses := statuses[row.id := Offline];
        }
      } else if row.seen == Offline {
        var recoveryCount := IncrRecovery(row.id);
        if recoveryCount >= g.healthyThreshold {
          statuses := statuses[row.id := Online];
          health := health - {row.id};
          recovery := recovery - {row.id};
        }
      } else {
        health := health - {row.id};
      }
    }

    method CheckGroup(g: Group)
      requires forall j :: 0 <= j < |g.rows| ==> g.rows[j].id in statuses
      modifies this
      ensures statuses.Keys == old(statuses).Keys
      ensures forall id :: id in statuses ==> Of(id) == AfterRows(g, g.rows, id, old(Of(id)))
    {
      for j := 0 to |g.rows|
        invariant statuses.Keys == old(statuses).Keys
        invariant forall id :: id in statuses ==> Of(id) == AfterRows(g, g.rows[..j], id, old(Of(id)))
      {
        assert g.rows[..j + 1][..j] == g.rows[..j];
        CheckNodeHealth(g, g.rows[j]);
      }
      assert g.rows[..|g.rows|] == g.rows;
    }

    method MarkSilent(silent: set<string>, checked: set<string>)
      modifies `statuses
      ensures statuses.Keys == old(statuses).Keys
      ensures forall id :: id in statuses ==>
        statuses[id] == if id in silent && id !in checked && old(statuses)[id] == Online then Offline else old(statuses)[id]
    {
      statuses := map id | id in statuses :: if id in silent && id !in checked && statuses[id] == Online then Offline else statuses[id];
    }

    method Process(groups: seq<Group>, silent: set<string>)
      requires forall i, j :: 0 <= i < |groups| && 0 <= j < |groups[i].rows| ==> groups[i].rows[j].id in statuses
      modifies this
      ensures statuses.Keys == old(statuses).Keys
      ensures forall id :: id in statuses ==> Of(id) == AfterJob(groups, silent, id, old(Of(id)))
    {
      var checked: set<string> := {};
      for i := 0 to |groups|
        invariant statuses.Keys == old(statuses).Keys
        invariant forall id :: id in statuses ==> Of(id) == AfterGroups(groups[..i], id, old(Of(id)))
        invariant forall id :: id in checked <==> CheckedIn(groups[..i], id)
      {
        assert groups[..i + 1][..i] == groups[..i];
        if groups[i].enabled {
          CheckGroup(groups[i]);
          checked := checked + set j | 0 <= j < |groups[i].rows| :: groups[i].rows[j].id;
        }
      }
      assert groups[..|groups|] == groups;
      MarkSilent(silent, checked);
    }
  }

}
