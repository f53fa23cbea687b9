/** The agent: start, user ticks, config ticks and kicks, each taken as one atomic step.
    Answers of the Panel and outcomes of file writes and process control are parameters. */
module Agent {
  import opened Sums
  import opened Generator
  import opened GeneratorServices
  import opened HotSync

  datatype Answer<+T> = Failed | Unchanged | Fresh(value: T)

  /** How far a config tick got: the file could not be written, the old process could not be
      stopped, the new one did not come up, or it runs on the new file. */
  datatype Outcome = NotWritten | NotStopped | NotStarted | Restarted

  datatype UserList = UserList(users: seq<User>, limits: seq<RateLimit>)

  /** Whom each inbound of a freshly started process serves. */
  function ServedBy(inbounds: seq<Inbound>): map<string, set<string>> {
    if inbounds == [] then map[]
    else
      var inbound := inbounds[|inbounds| - 1];
      ServedBy(inbounds[..|inbounds| - 1])[inbound.tag := Served(inbound)]
  }

  // ---------- The agent's view of itself, and its steps ----------

  /** What the agent stores, and what its core runs: whom each inbound serves and which limits are held. */
  datatype View = View(
    inbounds: seq<Inbound>,
    users: seq<User>,
    limits: seq<RateLimit>,
    running: map<string, set<string>>,
    held: map<string, Limit>)

  datatype Event =
    | UserTick(list: Answer<UserList>, kept: map<string, set<string>>, missed: map<string, set<string>>, failed: set<string>)
    | ConfigTick(inbounds: Answer<seq<Inbound>>, outcome: Outcome)
    | Kick(removed: map<string, set<string>>)
    | Crash

  /** A process just started knows no limits. */
  ghost function Started(inbounds: seq<Inbound>, users: seq<User>, limits: seq<RateLimit>): View {
    View(inbounds, users, limits, ServedBy(BuiltAll(inbounds, users)), map[])
  }

  ghost function AfterUsers(v: View, list: UserList, kept: map<string, set<string>>, missed: map<string, set<string>>, failed: set<string>): View {
    View(v.inbounds, list.users, list.limits,
         map t | t in v.running :: Synced(v.running[t], Members(v.users, t), Members(list.users, t), At(kept, t), At(missed, t)),
         AdjustedLimits(v.held, LimitsOf(v.limits), LimitsOf(list.limits), failed))
  }

  ghost function Restarting(v: View, outcome: Outcome): View {
    match outcome
    case NotWritten => v
    case NotStopped => v
    case NotStarted => v.(running := map[], held := map[])
    case Restarted => Started(v.inbounds, v.users, v.limits)
  }

  ghost function Next(v: View, e: Event): View {
    match e
    case UserTick(Failed, _, _, _) => v
    case UserTick(Unchanged, kept, missed, failed) => AfterUsers(v, UserList(v.users, v.limits), kept, missed, failed)
    case UserTick(Fresh(list), kept, missed, failed) => AfterUsers(v, list, kept, missed, failed)
    case ConfigTick(Failed, _) => v
    case ConfigTick(Unchanged, outcome) => Restarting(v, outcome)
    case ConfigTick(Fresh(inbounds), outcome) => Restarting(v.(inbounds := inbounds), outcome)
    case Kick(removed) => v.(running := map t | t in v.running :: v.running[t] - At(removed, t))
    case Crash => v.(running := map[], held := map[])
  }

  ghost predicate IsRun(views: seq<View>, events: seq<Event>) {
    && |views| == |events| + 1
    && views[0] == Started(views[0].inbounds, views[0].users, views[0].limits)
    && forall i :: 0 <= i < |events| ==> views[i + 1] == Next(views[i], events[i])
  }

  // ---------- Nobody unlisted is served ----------

  ghost predicate OnlyListed(v: View, t: string) {
    t in v.running ==> v.running[t] <= Members(v.users, t)
  }

  ghost predicate ExactlyListed(v: View, t: string) {
    t in v.running ==> v.running[t] == Members(v.users, t)
  }

  /** No http inbound of this tag has accounts of its own. */
  predicate TagHidesNobody(inbounds: seq<Inbound>, t: string) {
    forall inbound :: inbound in inbounds && inbound.tag == t ==> HidesNobody(inbound)
  }

  predicate TagNotHttp(inbounds: seq<Inbound>, t: string) {
    forall inbound :: inbound in inbounds && inbound.tag == t ==> inbound.protocol != "http"
  }

  lemma {:induction false} ServedByKnown(inbounds: seq<Inbound>, t: string)
    requires t in ServedBy(inbounds)
    ensures exists i :: 0 <= i < |inbounds| && inbounds[i].tag == t && ServedBy(inbounds)[t] == Served(inbounds[i])
    decreases |inbounds|
  {
    var n := |inbounds| - 1;
    if inbounds[n].tag != t {
      ServedByKnown(inbounds[..n], t);
      var i :| 0 <= i < n && inbounds[..n][i].tag == t && ServedBy(inbounds[..n])[t] == Served(inbounds[..n][i]);
      assert inbounds[i].tag == t && ServedBy(inbounds)[t] == Served(inbounds[i]);
    } else {
      assert ServedBy(inbounds)[t] == Served(inbounds[n]);
    }
  }

  lemma FreshProcessListed(v: View, t: string)
    ensures TagHidesNobody(v.inbounds, t) ==> OnlyListed(Started(v.inbounds, v.users, v.limits), t)
    ensures TagNotHttp(v.inbounds, t) ==> ExactlyListed(Started(v.inbounds, v.users, v.limits), t)
  {
    var built := BuiltAll(v.inbounds, v.users);
    if t in ServedBy(built) {
      ServedByKnown(built, t);
      var i :| 0 <= i < |built| && built[i].tag == t && ServedBy(built)[t] == Served(built[i]);
      assert v.inbounds[i] in v.inbounds && built[i] == Built(v.inbounds[i], v.users);
      BuiltServesListed(v.inbounds[i], v.users);
    }
  }

  /** No removal of a hot sync failed on this tag. */
  ghost predicate RemovalsSucceed(e: Event, t: string) {
    e.UserTick? ==> At(e.kept, t) == {}
  }

  ghost predicate AdditionsSucceed(e: Event, t: string) {
    e.UserTick? ==> At(e.missed, t) == {}
  }

  ghost predicate NobodyKicked(e: Event, t: string) {
    e.Kick? ==> At(e.removed, t) == {}
  }

  ghost predicate BringsHidden(e: Event, t: string) {
    e.ConfigTick? && e.inbounds.Fresh? ==> TagHidesNobody(e.inbounds.value, t)
  }

  ghost predicate BringsHttp(e: Event, t: string) {
    e.ConfigTick? && e.inbounds.Fresh? ==> TagNotHttp(e.inbounds.value, t)
  }

  lemma StepKeepsListed(v: View, e: Event, t: string)
    requires RemovalsSucceed(e, t) && BringsHidden(e, t) && TagHidesNobody(v.inbounds, t) && OnlyListed(v, t)
    ensures OnlyListed(Next(v, e), t) && TagHidesNobody(Next(v, e).inbounds, t)
  {
    if e.ConfigTick? {
      FreshProcessListed(Next(v, e), t);
    }
  }

  /** In every run of start, user ticks, config ticks, kicks and crashes: a tag whose removals succeed and whose
      http inbounds, if any, bring no accounts of their own serves only users the stored list gives it.
      Additions may fail, and what happens on other tags does not matter. */
  lemma {:induction false} NobodyUnlistedIsServed(views: seq<View>, events: seq<Event>, t: string)
    requires IsRun(views, events) && TagHidesNobody(views[0].inbounds, t)
    requires forall i :: 0 <= i < |events| ==> RemovalsSucceed(events[i], t) && BringsHidden(events[i], t)
    ensures forall i :: 0 <= i < |views| ==> OnlyListed(views[i], t) && TagHidesNobody(views[i].inbounds, t)
    decreases |events|
  {
    if events == [] {
      FreshProcessListed(views[0], t);
    } else {
      var n := |events| - 1;
      assert forall i :: 0 <= i <= n ==> views[..n + 1][i] == views[i];
      NobodyUnlistedIsServed(views[..n + 1], events[..n], t);
      assert views[..n + 1][n] == views[n];
      StepKeepsListed(views[n], events[n], t);
    }
  }

  lemma StepKeepsExact(v: View, e: Event, t: string)
    requires RemovalsSucceed(e, t) && AdditionsSucceed(e, t) && NobodyKicked(e, t)
    requires BringsHttp(e, t) && TagNotHttp(v.inbounds, t) && ExactlyListed(v, t)
    ensures ExactlyListed(Next(v, e), t) && TagNotHttp(Next(v, e).inbounds, t)
  {
    if e.ConfigTick? {
      FreshProcessListed(Next(v, e), t);
    }
  }

  /** A tag without http inbounds, kicks and failed calls serves exactly its listed users throughout, although
      user ticks only ever push differences. */
  lemma {:induction false} EverybodyListedIsServed(views: seq<View>, events: seq<Event>, t: string)
    requires IsRun(views, events) && TagNotHttp(views[0].inbounds, t)
    requires forall i :: 0 <= i < |events| ==>
               RemovalsSucceed(events[i], t) && AdditionsSucceed(events[i], t) && NobodyKicked(events[i], t) && BringsHttp(events[i], t)
    ensures forall i :: 0 <= i < |views| ==> ExactlyListed(views[i], t) && TagNotHttp(views[i].inbounds, t)
    decreases |events|
  {
    if events == [] {
      FreshProcessListed(views[0], t);
    } else {
      var n := |events| - 1;
      assert forall i :: 0 <= i <= n ==> views[..n + 1][i] == views[i];
      EverybodyListedIsServed(views[..n + 1], events[..n], t);
      assert views[..n + 1][n] == views[n];
      StepKeepsExact(views[n], events[n], t);
    }
  }

  /** The proviso is needed: an http inbound with an account serves it although no user is listed. */
  lemma HttpAccountsEscape() returns (v: View)
    ensures v == Started(v.inbounds, [], []) && !OnlyListed(v, "web")
  {
    var account := Entry(map["user" := Text("stranger")]);
    var inbound := Inbound("web", "http", Settings(None, Some([account]), map[]));
    v := Started([inbound], [], []);
    BuiltServesListed(inbound, []);
    var built := BuiltAll([inbound], []);
    assert built == [Built(inbound, [])];
    assert ServedBy(built) == map["web" := Served(Built(inbound, []))];
    assert account in [account];
    assert "stranger" in v.running["web"] && "stranger" !in Members([], "web");
  }

  // ---------- Which limits the core holds ----------

  /** The step leaves a new core, or none. */
  predicate EndsProcess(e: Event) {
    e.Crash? || (e.ConfigTick? && !e.inbounds.Failed? && (e.outcome.NotStarted? || e.outcome.Restarted?))
  }

  /** The email's limit in the stored list has changed since the present process started. */
  ghost predicate Pushed(views: seq<View>, events: seq<Event>, n: nat, email: string)
    requires n <= |events| < |views|
    decreases n
  {
    n > 0 && !EndsProcess(events[n - 1])
    && (Pushed(views, events, n - 1, email)
        || LimitAt(LimitsOf(views[n - 1].limits), email) != LimitAt(LimitsOf(views[n].limits), email))
  }

  ghost predicate LimitCallsSucceed(e: Event, email: string) {
    e.UserTick? ==> email !in e.failed
  }

  lemma StepHolds(v: View, e: Event, email: string)
    requires LimitCallsSucceed(e, email)
    ensures var was, now := LimitAt(LimitsOf(v.limits), email), LimitAt(LimitsOf(Next(v, e).limits), email);
            LimitAt(Next(v, e).held, email)
            == if EndsProcess(e) then None else if was == now then LimitAt(v.held, email) else now
  {
  }

  /** In every run in which the limit calls for an email succeed, the core holds the listed limit if it has
      changed since the process started, and no limit otherwise. */
  lemma {:induction false} LimitHeld(views: seq<View>, events: seq<Event>, n: nat, email: string)
    requires IsRun(views, events) && n <= |events|
    requires forall i :: 0 <= i < n ==> LimitCallsSucceed(events[i], email)
    ensures LimitAt(views[n].held, email)
         == if Pushed(views, events, n, email) then LimitAt(LimitsOf(views[n].limits), email) else None
    decreases n
  {
    if n > 0 {
      LimitHeld(views, events, n - 1, email);
      StepHolds(views[n - 1], events[n - 1], email);
    }
  }

  /** Exactly when the core enforces all listed limits: every limited email has had its limit changed since
      the present process started. */
  lemma LimitsCompleteIff(views: seq<View>, events: seq<Event>, n: nat)
    requires IsRun(views, events) && n <= |events|
    requires forall i, email :: 0 <= i < n ==> LimitCallsSucceed(events[i], email)
    ensures views[n].held == LimitsOf(views[n].limits)
       <==> forall email :: email in LimitsOf(views[n].limits) ==> Pushed(views, events, n, email)
  {
    var held, listed := views[n].held, LimitsOf(views[n].limits);
    forall email ensures LimitAt(held, email) == if Pushed(views, events, n, email) then LimitAt(listed, email) else None {
      LimitHeld(views, events, n, email);
    }
    if forall email :: email in listed ==> Pushed(views, events, n, email) {
      forall email ensures LimitAt(held, email) == LimitAt(listed, email) { }
      SameLimits(held, listed);
    } else {
      var email :| email in listed && !Pushed(views, events, n, email);
      assert LimitAt(held, email) != LimitAt(listed, email);
    }
  }

  const ONE_LIMIT := RateLimit("a", 1, 1)

  /** A limit arrives with the list that brings it, is gone after a restart, and the unchanged list does not
      bring it back. */
  lemma RestartLosesLimits() returns (views: seq<View>, events: seq<Event>)
    ensures IsRun(views, events) && |events| == 3
    ensures views[1].limits == [ONE_LIMIT] && views[1].held == LimitsOf([ONE_LIMIT]) == map["a" := (1, 1)]
    ensures events[1] == ConfigTick(Unchanged, Restarted)
    ensures events[2].UserTick? && events[2].list == Unchanged && events[2].failed == {}
    ensures views[3].limits == [ONE_LIMIT] && views[3].held == map[]
  {
    var v0 := Started([], [], []);
    var brings := UserTick(Fresh(UserList([], [ONE_LIMIT])), map[], map[], {});
    var repeats := UserTick(Unchanged, map[], map[], {});
    var restart := ConfigTick(Unchanged, Restarted);
    var v1 := Next(v0, brings);
    var v2 := Next(v1, restart);
    var v3 := Next(v2, repeats);
    views, events := [v0, v1, v2, v3], [brings, restart, repeats];
    assert LimitsOf([]) == map[] && LimitsOf([ONE_LIMIT]) == map["a" := (1, 1)] by {
      assert [ONE_LIMIT][..0] == [];
    }
    SameLimits(v1.held, LimitsOf([ONE_LIMIT]));
    SameLimits(v3.held, map[]);
    forall i | 0 <= i < 3 ensures views[i + 1] == Next(views[i], events[i]) {
      if i == 0 { assert views[1] == v1; } else if i == 1 { assert views[2] == v2; } else { assert views[3] == v3; }
    }
  }

  // ---------- The manager ----------

  /** The core after a hot sync of users and limits is what the user tick of the machine describes. */
  lemma SyncedIsAfterUsers(v: View, after: map<string, set<string>>, list: UserList,
                           kept: map<string, set<string>>, missed: map<string, set<string>>,
                           held: map<string, Limit>, failed: set<string>)
    requires SyncedSoFar(v.running, after, v.users, list.users, {}, kept, missed)
    requires AdjustedTo(v.held, held, LimitsOf(v.limits), LimitsOf(list.limits), failed)
    ensures View(v.inbounds, list.users, list.limits, after, held) == AfterUsers(v, list, kept, missed, failed)
  {
    AdjustedIs(v.held, held, LimitsOf(v.limits), LimitsOf(list.limits), failed);
  }

  function RoutingOf(config: Option<NodeConfig>): set<Routing> {
    if config.Some? && config.value.routing != null then {config.value.routing} else {}
  }

  function OutcomeOf(writable: bool, stops: bool, starts: bool): Outcome {
    if !writable then NotWritten else if !stops then NotStopped else if !starts then NotStarted else Restarted
  }

  /** The calls of a kick: one removal per inbound of the configuration. */
  function KickCalls(inbounds: seq<Inbound>, email: string): (r: seq<Rpc>)
    ensures |r| == |inbounds| && forall i :: 0 <= i < |r| ==> r[i] == RemoveUser(inbounds[i].tag, email)
  {
    seq(|inbounds|, i requires 0 <= i < |inbounds| => RemoveUser(inbounds[i].tag, email))
  }

  function ConfigIn(a: Answer<NodeConfig>): Option<NodeConfig> {
    if a.Fresh? then Some(a.value) else None
  }

  class Manager {
    const core: Core
    var nodeConfig: Option<NodeConfig>
    var users: seq<User>
    var limits: seq<RateLimit>
    var userEmails: seq<string>
    var file: seq<Inbound>

    ghost function State(): View
      reads this, core
    {
      View(if nodeConfig.Some? then nodeConfig.value.inbounds else [], users, limits, core.inbounds, core.limits)
    }

    constructor (core: Core)
      ensures this.core == core && nodeConfig == None && users == [] && limits == []
    {
      this.core := core;
      nodeConfig, users, limits, userEmails, file := None, [], [], [], [];
    }

    method SyncConfig(answer: Answer<NodeConfig>) returns (ok: bool)
      modifies `nodeConfig
      ensures ok == !answer.Failed?
      ensures nodeConfig == if answer.Fresh? then Some(answer.value) else old(nodeConfig)
    {
      if answer.Failed? { return false; }
      if answer.Fresh? { nodeConfig := Some(answer.value); }
      ok := true;
    }

    method SyncUsers(answer: Answer<UserList>) returns (ok: bool)
      modifies `users, `limits
      ensures ok == !answer.Failed?
      ensures users == if answer.Fresh? then answer.value.users else old(users)
      ensures limits == if answer.Fresh? then answer.value.limits else old(limits)
    {
      if answer.Failed? { return false; }
      if answer.Fresh? { users, limits := answer.value.users, answer.value.limits; }
      ok := true;
    }

    /** Without a configuration nothing is written and that counts as success. The API inbound
        comes first in the file; the core's table below leaves it out. */
    method GenerateAndWriteConfig(writable: bool) returns (ok: bool)
      modifies `file, RoutingOf(nodeConfig)
      ensures ok == (nodeConfig.None? || writable)
      ensures forall r :: r in RoutingOf(nodeConfig) ==> r.rules == Regenerated(old(r.rules))
      ensures file == if nodeConfig.Some? && writable then BuiltAll(nodeConfig.value.inbounds, users) else old(file)
      ensures nodeConfig.Some? && writable ==> AllHaveUsers(file, nodeConfig.value.inbounds, users)
    {
      if nodeConfig.None? { return true; }
      var x := Generate(nodeConfig.value, users);
      if writable { file := x.inbounds[1..]; }
      ok := writable;
    }

    method Run()
      modifies core`inbounds, core`limits
      ensures core.inbounds == ServedBy(file) && core.limits == map[]
    {
      var running: map<string, set<string>> := map[];
      for i := 0 to |file|
        invariant running == ServedBy(file[..i])
      {
        assert file[..i + 1][..i] == file[..i];
        running := running[file[i].tag := Served(file[i])];
      }
      assert file[..|file|] == file;
      core.inbounds, core.limits := running, map[];
    }

    method Restart(stops: bool, starts: bool)
      modifies core`inbounds, core`limits
      ensures !stops ==> core.inbounds == old(core.inbounds) && core.limits == old(core.limits)
      ensures stops && !starts ==> core.inbounds == map[] && core.limits == map[]
      ensures stops && starts ==> core.inbounds == ServedBy(file) && core.limits == map[]
    {
      if !stops { return; }
      core.inbounds, core.limits := map[], map[];
      if starts { Run(); }
    }

    /** Either poll may fail, and then nothing is started. A first poll carries no ETag, so a Panel that
        answers sends full answers. */
    method Start(config: Answer<NodeConfig>, list: Answer<UserList>, writable: bool, starts: bool) returns (ok: bool)
      modifies this, core`inbounds, core`limits, RoutingOf(nodeConfig), RoutingOf(ConfigIn(config))
      ensures ok == (!config.Failed? && !list.Failed? && (nodeConfig.None? || writable) && starts)
      ensures nodeConfig == if config.Fresh? then Some(config.value) else old(nodeConfig)
      ensures ok && nodeConfig.Some? ==> State() == Started(nodeConfig.value.inbounds, users, limits)
      ensures ok && list.Fresh? ==> users == list.value.users && limits == list.value.limits
      ensures config.Failed? ==> State() == old(State())
      ensures !ok ==> core.inbounds == old(core.inbounds) && core.limits == old(core.limits)
    {
      ok := SyncConfig(config);
      if !ok { return; }
      ok := SyncUsers(list);
      if !ok { return; }
      ok := GenerateAndWriteConfig(writable);
      if !ok || !starts { return false; }
      Run();
    }

    method OnConfigTick(answer: Answer<NodeConfig>, writable: bool, stops: bool, starts: bool) returns (ghost e: Event)
      requires nodeConfig.Some?
      modifies `nodeConfig, `file, core`inbounds, core`limits, RoutingOf(nodeConfig), RoutingOf(ConfigIn(answer))
      ensures nodeConfig.Some? && State() == Next(old(State()), e)
      ensures e.ConfigTick? && (answer.Fresh? <==> e.inbounds.Fresh?)
      ensures answer.Fresh? ==> e.inbounds.value == answer.value.inbounds
      ensures answer.Failed? <==> e.inbounds.Failed?
      ensures e.outcome == OutcomeOf(writable, stops, starts)
    {
      var ok := SyncConfig(answer);
      e := ConfigTick(if answer.Fresh? then Fresh(answer.value.inbounds) else if ok then Unchanged else Failed,
                      OutcomeOf(writable, stops, starts));
      if !ok { return; }
      ok := GenerateAndWriteConfig(writable);
      if !ok { return; }
      Restart(stops, starts);
    }

    /** The hot sync never reports an error, so the loop's fallback to a restart is not reached. */
    method OnUserTick(answer: Answer<UserList>)
      returns (ghost e: Event, failedLimits: set<string>, ghost ops: seq<Rpc>, ghost limitOps: seq<LimitCall>)
      modifies `users, `limits, `userEmails, core
      ensures State() == Next(old(State()), e)
      ensures e.UserTick? && e.list == answer && e.failed == failedLimits
      ensures core.calls == old(core.calls) + ops && OncePerUser(ops)
      ensures forall op :: op in ops <==> !answer.Failed? && DueBetween(old(users), users, op)
      ensures core.limitCalls == old(core.limitCalls) + limitOps && OncePerEmail(limitOps)
      ensures forall c :: c in limitOps <==> !answer.Failed? && LimitDue(LimitsOf(old(limits)), LimitsOf(limits), c)
      ensures !answer.Failed? ==> |userEmails| == |users| && forall i :: 0 <= i < |users| ==> userEmails[i] == users[i].email
    {
      var oldUsers, oldLimits := users, limits;
      ghost var before := State();
      failedLimits, ops, limitOps := {}, [], [];
      e := UserTick(answer, map[], map[], {});
      var ok := SyncUsers(answer);
      if !ok { return; }
      var kept, missed;
      kept, missed, ops := HotSyncUsers(core, oldUsers, users);
      TrackEmails();
      failedLimits, limitOps := HotSyncRateLimits(core, oldLimits, limits);
      SyncedIsAfterUsers(before, core.inbounds, UserList(users, limits), kept, missed, core.limits, failedLimits);
      e := UserTick(answer, kept, missed, failedLimits);
    }

    method TrackEmails()
      modifies `userEmails
      ensures |userEmails| == |users| && forall i :: 0 <= i < |users| ==> userEmails[i] == users[i].email
    {
      userEmails := [];
      for i := 0 to |users|
        invariant |userEmails| == i && forall k :: 0 <= k < i ==> userEmails[k] == users[k].email
      {
        userEmails := userEmails + [users[i].email];
      }
    }

    /** Kick one user from every inbound of the current configuration. */
    method OnKick(email: string) returns (ghost e: Event)
      requires nodeConfig.Some?
      modifies core`inbounds, core`calls
      ensures State() == Next(old(State()), e) && e.Kick?
      ensures core.calls == old(core.calls) + KickCalls(nodeConfig.value.inbounds, email)
      ensures forall t :: t in e.removed ==>
                e.removed[t] == {email} && exists i :: 0 <= i < |nodeConfig.value.inbounds| && nodeConfig.value.inbounds[i].tag == t
    {
      var inbounds := nodeConfig.value.inbounds;
      ghost var removed: map<string, set<string>> := map[];
      for i := 0 to |inbounds|
        invariant core.calls == old(core.calls) + KickCalls(inbounds, email)[..i]
        invariant core.inbounds.Keys == old(core.inbounds).Keys
        invariant forall t :: t in core.inbounds ==> core.inbounds[t] == old(core.inbounds)[t] - At(removed, t)
        invariant forall t :: t in removed ==> removed[t] == {email} && exists k :: 0 <= k < i && inbounds[k].tag == t
      {
        var ok := core.Remove(inbounds[i].tag, email);
        if ok { removed := removed[inbounds[i].tag := {email}]; }
      }
      e := Kick(removed);
    }
  }
}
