/** The ETag protocol between agent and Panel. A poll that finds its ETag in the Panel's cache is
    answered "not modified"; otherwise the Panel builds a configuration, caches its ETag for five
    minutes, and sends it. Polls, data changes and invalidations interleave freely. */
module ConfigPolling {
  import opened Sums

  /** A configuration as the JSON text its ETag is computed from. */
  type Config = string

  const TTL := 300

  datatype Cached = Cached(etag: string, expires: int)

  /** A poll the Panel did not answer from its cache. */
  datatype Request = Waiting | Built(config: Config, builtAt: int) | Answered(config: Config)

  /** `versions` is the Panel's data over time; `stores` records every ETag the Panel cached. */
  datatype Version = Version(config: Config, since: int)
  datatype Stored = Stored(config: Config, at: int, builtAt: int)

  datatype State = State(
    now: int,
    versions: seq<Version>,
    cache: Option<Cached>,
    requests: map<nat, Request>,
    agent: Option<Config>,
    agentEtag: string,
    stores: seq<Stored>)

  datatype Event =
    | Wait(seconds: nat)
    | Change(config: Config)
    | Invalidate
    | Poll(call: nat)
    | Build(call: nat)
    | StoreEtag(call: nat)
    | Deliver(call: nat)
    | Lose(call: nat)

  ghost predicate GoodHash(hash: Config -> string) {
    && (forall a, b :: hash(a) == hash(b) ==> a == b)
    && (forall a :: hash(a) != "")
  }

  /** The cached ETag as Redis returns it now. */
  function Live(s: State): string {
    if s.cache.Some? && s.now < s.cache.value.expires then s.cache.value.etag else ""
  }

  /** A poll sent now would be answered "not modified". */
  predicate NotModified(s: State) {
    Live(s) != "" && Live(s) == s.agentEtag
  }

  predicate Enabled(s: State, e: Event) {
    match e
    case Poll(call) => call !in s.requests
    case Build(call) => call in s.requests && s.requests[call].Waiting?
    case StoreEtag(call) => call in s.requests && s.requests[call].Built?
    case Deliver(call) => call in s.requests && s.requests[call].Answered?
    case Lose(call) => call in s.requests
    case _ => true
  }

  function Source(s: State): Config {
    if s.versions == [] then "" else s.versions[|s.versions| - 1].config
  }

  function Next(s: State, e: Event, hash: Config -> string): State
    requires Enabled(s, e)
  {
    match e
    case Wait(seconds) => s.(now := s.now + seconds)
    case Change(config) => s.(versions := s.versions + [Version(config, s.now)])
    case Invalidate => s.(cache := None)
    case Poll(call) => if NotModified(s) then s else s.(requests := s.requests[call := Waiting])
    case Build(call) => s.(requests := s.requests[call := Built(Source(s), s.now)])
    case StoreEtag(call) =>
      var r := s.requests[call];
      s.(cache := Some(Cached(hash(r.config), s.now + TTL)),
         stores := s.stores + [Stored(r.config, s.now, r.builtAt)],
         requests := s.requests[call := Answered(r.config)])
    case Deliver(call) =>
      var config := s.requests[call].config;
      s.(agent := Some(config), agentEtag := hash(config), requests := s.requests - {call})
    case Lose(call) => s.(requests := s.requests - {call})
  }

  ghost predicate IsStart(s: State) {
    && |s.versions| == 1 && s.versions[0].since <= s.now
    && s.cache == None && s.requests == map[] && s.agent == None && s.agentEtag == "" && s.stores == []
  }

  ghost predicate Steps(states: seq<State>, events: seq<Event>, hash: Config -> string) {
    && |states| == |events| + 1
    && forall i :: 0 <= i < |events| ==> Enabled(states[i], events[i]) && states[i + 1] == Next(states[i], events[i], hash)
  }

  // ---------- What every step keeps ----------

  /** This was the Panel's configuration at that time. */
  ghost predicate WasCurrent(versions: seq<Version>, config: Config, at: int) {
    exists i :: 0 <= i < |versions| && versions[i].config == config && versions[i].since <= at
      && (i + 1 < |versions| ==> at <= versions[i + 1].since)
  }

  ghost predicate SoundStore(s: State, r: Stored) {
    r.builtAt <= r.at <= s.now && WasCurrent(s.versions, r.config, r.builtAt)
  }

  ghost predicate SoundRequest(s: State, r: Request) {
    r.Built? ==> r.builtAt <= s.now && WasCurrent(s.versions, r.config, r.builtAt)
  }

  ghost predicate Vouches(c: Cached, r: Stored, hash: Config -> string) {
    c.etag == hash(r.config) && c.expires == r.at + TTL
  }

  ghost predicate SoundVersions(s: State) {
    && s.versions != []
    && (forall i :: 0 <= i < |s.versions| ==> s.versions[i].since <= s.now)
  }

  ghost predicate SoundAgent(s: State, hash: Config -> string) {
    s.agentEtag == if s.agent.Some? then hash(s.agent.value) else ""
  }

  ghost predicate Sound(s: State, hash: Config -> string) {
    && SoundVersions(s)
    && SoundAgent(s, hash)
    && (forall r :: r in s.stores ==> SoundStore(s, r))
    && (forall call :: call in s.requests ==> SoundRequest(s, s.requests[call]))
    && (s.cache.Some? ==> exists r :: r in s.stores && Vouches(s.cache.value, r, hash))
  }

  lemma CurrentStays(versions: seq<Version>, v: Version, config: Config, at: int)
    requires WasCurrent(versions, config, at) && at <= v.since
    ensures WasCurrent(versions + [v], config, at)
  {
    var i :| 0 <= i < |versions| && versions[i].config == config && versions[i].since <= at
      && (i + 1 < |versions| ==> at <= versions[i + 1].since);
    var longer := versions + [v];
    assert longer[i] == versions[i];
    assert i + 1 < |longer| ==> longer[i + 1] == if i + 1 < |versions| then versions[i + 1] else v;
  }

  lemma ChangeSound(s: State, config: Config, hash: Config -> string)
    requires Sound(s, hash)
    ensures Sound(s.(versions := s.versions + [Version(config, s.now)]), hash)
  {
    var s' := s.(versions := s.versions + [Version(config, s.now)]);
    forall r | r in s'.stores ensures SoundStore(s', r) {
      assert SoundStore(s, r);
      CurrentStays(s.versions, Version(config, s.now), r.config, r.builtAt);
    }
    forall call | call in s'.requests ensures SoundRequest(s', s'.requests[call]) {
      var r := s.requests[call];
      assert SoundRequest(s, r);
      if r.Built? { CurrentStays(s.versions, Version(config, s.now), r.config, r.builtAt); }
    }
  }

  lemma BuildSound(s: State, call: nat, hash: Config -> string)
    requires Sound(s, hash) && call in s.requests
    ensures Sound(s.(requests := s.requests[call := Built(Source(s), s.now)]), hash)
  {
    var s' := s.(requests := s.requests[call := Built(Source(s), s.now)]);
    var n := |s.versions| - 1;
    assert s.versions[n].config == Source(s) && s.versions[n].since <= s.now;
    forall c | c in s'.requests ensures SoundRequest(s', s'.requests[c]) {
      if c != call { assert SoundRequest(s, s.requests[c]); }
    }
    forall r | r in s'.stores ensures SoundStore(s', r) { assert SoundStore(s, r); }
  }

  lemma StoreSound(s: State, call: nat, hash: Config -> string)
    requires Sound(s, hash) && Enabled(s, StoreEtag(call))
    ensures Sound(Next(s, StoreEtag(call), hash), hash)
  {
    var r, s' := s.requests[call], Next(s, StoreEtag(call), hash);
    var stored := Stored(r.config, s.now, r.builtAt);
    assert SoundRequest(s, r);
    forall x | x in s'.stores ensures SoundStore(s', x) {
      if x != stored { assert x in s.stores && SoundStore(s, x); }
    }
    forall c | c in s'.requests ensures SoundRequest(s', s'.requests[c]) {
      if c != call { assert SoundRequest(s, s.requests[c]); }
    }
    assert stored in s'.stores && Vouches(s'.cache.value, stored, hash);
  }

  lemma OtherStepsSound(s: State, e: Event, hash: Config -> string)
    requires Sound(s, hash) && Enabled(s, e) && !e.Change? && !e.Build? && !e.StoreEtag?
    ensures Sound(Next(s, e, hash), hash)
  {
    var s' := Next(s, e, hash);
    forall r | r in s'.stores ensures SoundStore(s', r) { assert SoundStore(s, r); }
    forall c | c in s'.requests ensures SoundRequest(s', s'.requests[c]) {
      if c in s.requests { assert SoundRequest(s, s.requests[c]); }
    }
  }

  lemma StepSound(s: State, e: Event, hash: Config -> string)
    requires Sound(s, hash) && Enabled(s, e)
    ensures Sound(Next(s, e, hash), hash)
  {
    match e
    case Change(config) => ChangeSound(s, config, hash);
    case Build(call) => BuildSound(s, call, hash);
    case StoreEtag(call) => StoreSound(s, call, hash);
    case _ => OtherStepsSound(s, e, hash);
  }

  lemma {:induction false} RunSound(states: seq<State>, events: seq<Event>, hash: Config -> string)
    requires Steps(states, events, hash) && Sound(states[0], hash)
    ensures forall i :: 0 <= i < |states| ==> Sound(states[i], hash)
    decreases |events|
  {
    if events != [] {
      var n := |events| - 1;
      assert forall i :: 0 <= i <= n ==> states[..n + 1][i] == states[i];
      RunSound(states[..n + 1], events[..n], hash);
      assert states[..n + 1][n] == states[n] && states[n + 1] == Next(states[n], events[n], hash);
      StepSound(states[n], events[n], hash);
    }
  }

  lemma StartIsSound(s: State, hash: Config -> string)
    requires IsStart(s)
    ensures Sound(s, hash)
  {
  }

  // ---------- Staleness ----------

  /** "Not modified" at this moment is backed by this cached ETag. */
  ghost predicate BackedBy(s: State, r: Stored) {
    && r in s.stores && s.agent == Some(r.config)
    && r.builtAt <= r.at <= s.now < r.at + 300
    && WasCurrent(s.versions, r.config, r.builtAt)
  }

  /** A "not modified" answer means the agent holds a configuration whose ETag was cached less
      than 300 seconds ago and which was the Panel's data when its request read it. */
  lemma NotModifiedIsRecent(states: seq<State>, events: seq<Event>, hash: Config -> string, i: nat)
    requires GoodHash(hash) && Steps(states, events, hash) && IsStart(states[0])
    requires i < |states| && NotModified(states[i])
    ensures exists r :: BackedBy(states[i], r)
  {
    StartIsSound(states[0], hash);
    RunSound(states, events, hash);
    var s := states[i];
    var r :| r in s.stores && Vouches(s.cache.value, r, hash);
    assert SoundStore(s, r) && SoundAgent(s, hash);
    assert BackedBy(s, r);
  }

  /** If no request takes longer than `slowest` from reading the data to caching the ETag, the
      agent's configuration was current less than 300 + slowest seconds ago. */
  lemma StaleAtMost(states: seq<State>, events: seq<Event>, hash: Config -> string, i: nat, slowest: nat)
    requires GoodHash(hash) && Steps(states, events, hash) && IsStart(states[0])
    requires i < |states| && NotModified(states[i])
    requires forall r :: r in states[i].stores ==> r.at - r.builtAt <= slowest
    ensures states[i].agent.Some?
    ensures exists t :: states[i].now - 300 - slowest < t <= states[i].now && WasCurrent(states[i].versions, states[i].agent.value, t)
  {
    NotModifiedIsRecent(states, events, hash, i);
    var r :| BackedBy(states[i], r);
    assert WasCurrent(states[i].versions, r.config, r.builtAt);
  }

  // ---------- Invalidation ----------

  /** The configuration was the Panel's data when version `from` was current, or later. */
  ghost predicate SinceVersion(versions: seq<Version>, from: nat, config: Config) {
    exists j :: from <= j < |versions| && versions[j].config == config
  }

  /** Whatever is cached, or can still be cached, is at least as new as that version. */
  ghost predicate OnlySince(s: State, from: nat, hash: Config -> string) {
    && from < |s.versions|
    && (forall call :: call in s.requests && s.requests[call].Built? ==> SinceVersion(s.versions, from, s.requests[call].config))
    && (s.cache.Some? ==> exists c :: s.cache.value.etag == hash(c) && SinceVersion(s.versions, from, c))
  }

  lemma SinceStays(versions: seq<Version>, v: Version, from: nat, config: Config)
    requires SinceVersion(versions, from, config)
    ensures SinceVersion(versions + [v], from, config)
  {
    var j :| from <= j < |versions| && versions[j].config == config;
    assert (versions + [v])[j] == versions[j];
  }

  lemma ChangeOnlySince(s: State, config: Config, from: nat, hash: Config -> string)
    requires OnlySince(s, from, hash)
    ensures OnlySince(s.(versions := s.versions + [Version(config, s.now)]), from, hash)
  {
    var v := Version(config, s.now);
    forall call | call in s.requests && s.requests[call].Built?
      ensures SinceVersion(s.versions + [v], from, s.requests[call].config)
    {
      SinceStays(s.versions, v, from, s.requests[call].config);
    }
    if s.cache.Some? {
      var c :| s.cache.value.etag == hash(c) && SinceVersion(s.versions, from, c);
      SinceStays(s.versions, v, from, c);
    }
  }

  lemma StepOnlySince(s: State, e: Event, from: nat, hash: Config -> string)
    requires Enabled(s, e) && OnlySince(s, from, hash)
    ensures OnlySince(Next(s, e, hash), from, hash)
  {
    match e
    case Change(config) => ChangeOnlySince(s, config, from, hash);
    case Build(call) => assert s.versions[|s.versions| - 1].config == Source(s);
    case _ =>
  }

  lemma {:induction false} RunOnlySince(states: seq<State>, events: seq<Event>, from: nat, hash: Config -> string)
    requires Steps(states, events, hash) && OnlySince(states[0], from, hash)
    ensures forall i :: 0 <= i < |states| ==> OnlySince(states[i], from, hash)
    decreases |events|
  {
    if events != [] {
      var n := |events| - 1;
      assert forall i :: 0 <= i <= n ==> states[..n + 1][i] == states[i];
      RunOnlySince(states[..n + 1], events[..n], from, hash);
      assert states[..n + 1][n] == states[n] && states[n + 1] == Next(states[n], events[n], hash);
      StepOnlySince(states[n], events[n], from, hash);
    }
  }

  lemma {:induction false} DataUnchanged(states: seq<State>, events: seq<Event>, hash: Config -> string, i: nat)
    requires Steps(states, events, hash) && i <= |events|
    requires forall k :: 0 <= k < |events| ==> !events[k].Change?
    ensures states[i].versions == states[0].versions
    decreases i
  {
    if i > 0 {
      DataUnchanged(states, events, hash, i - 1);
      assert states[i] == Next(states[i - 1], events[i - 1], hash);
    }
  }

  /** Every answer built and not yet cached holds the data current now. */
  predicate HalfBuiltIsCurrent(s: State) {
    forall call :: call in s.requests && s.requests[call].Built? ==> s.requests[call].config == Source(s)
  }

  /** Where a "not modified" stands for data, the agent holds them. */
  lemma ConfirmedIsSince(s: State, from: nat, hash: Config -> string)
    requires GoodHash(hash) && SoundAgent(s, hash) && OnlySince(s, from, hash) && NotModified(s)
    ensures s.agent.Some? && SinceVersion(s.versions, from, s.agent.value)
  {
    var c :| s.cache.value.etag == hash(c) && SinceVersion(s.versions, from, c);
    assert s.agent.Some? && hash(s.agent.value) == hash(c);
  }

  /** After an invalidation that overlaps no half-built answer with other data, the next poll is answered
      afresh, and every later "not modified" stands for data current at the invalidation or after it;
      without a change of the data, for exactly those. */
  lemma InvalidationHolds(before: State, states: seq<State>, events: seq<Event>, hash: Config -> string, i: nat)
    requires GoodHash(hash) && Sound(before, hash) && HalfBuiltIsCurrent(before)
    requires Steps(states, events, hash) && states[0] == Next(before, Invalidate, hash) && i < |states|
    ensures !NotModified(states[0])
    ensures NotModified(states[i]) ==>
              states[i].agent.Some? && SinceVersion(states[i].versions, |before.versions| - 1, states[i].agent.value)
    ensures NotModified(states[i]) && (forall k :: 0 <= k < |events| ==> !events[k].Change?) ==>
              states[i].agent == Some(Source(before))
  {
    var from := |before.versions| - 1;
    StepSound(before, Invalidate, hash);
    RunSound(states, events, hash);
    assert before.versions[from].config == Source(before);
    RunOnlySince(states, events, from, hash);
    if NotModified(states[i]) {
      assert Sound(states[i], hash) && OnlySince(states[i], from, hash);
      ConfirmedIsSince(states[i], from, hash);
      if forall k :: 0 <= k < |events| ==> !events[k].Change? {
        DataUnchanged(states, events, hash, i);
      }
    }
  }

  /** Some poll after the invalidation is told "not modified" although what the agent holds was replaced
      before the invalidation. */
  ghost predicate OldDataConfirmed(before: State, states: seq<State>, events: seq<Event>, hash: Config -> string)
    requires before.versions != []
  {
    && Steps(states, events, hash) && states[0] == Next(before, Invalidate, hash)
    && exists i :: 0 <= i < |states| && ConfirmsOld(before, states[i])
  }

  ghost predicate ConfirmsOld(before: State, s: State)
    requires before.versions != []
  {
    NotModified(s) && !(s.agent.Some? && SinceVersion(s.versions, |before.versions| - 1, s.agent.value))
  }

  /** One half-built answer defeats it: cached and delivered after the invalidation, its configuration is
      confirmed as "not modified". */
  lemma HalfBuiltAnswerDefeats(before: State, call: nat, hash: Config -> string) returns (states: seq<State>, events: seq<Event>)
    requires GoodHash(hash) && Sound(before, hash)
    requires call in before.requests && before.requests[call].Built? && before.requests[call].config != Source(before)
    ensures OldDataConfirmed(before, states, events, hash)
    ensures events == [StoreEtag(call), Deliver(call)] && states[2].agent == Some(before.requests[call].config)
  {
    var invalidated := Next(before, Invalidate, hash);
    var stored := Next(invalidated, StoreEtag(call), hash);
    var delivered := Next(stored, Deliver(call), hash);
    states, events := [invalidated, stored, delivered], [StoreEtag(call), Deliver(call)];
    forall i | 0 <= i < 2 ensures Enabled(states[i], events[i]) && states[i + 1] == Next(states[i], events[i], hash) {
      if i == 0 { assert states[1] == stored; } else { assert states[2] == delivered; }
    }
    assert ConfirmsOld(before, states[2]);
  }

  /** Exactly when an invalidation can be relied on, whatever follows it: no answer that is built and not
      yet cached holds other data than the current ones. */
  lemma InvalidationHoldsIff(before: State, hash: Config -> string)
    requires GoodHash(hash) && Sound(before, hash)
    ensures (forall states, events :: !OldDataConfirmed(before, states, events, hash)) <==> HalfBuiltIsCurrent(before)
  {
    if HalfBuiltIsCurrent(before) {
      forall states, events ensures !OldDataConfirmed(before, states, events, hash) {
        if OldDataConfirmed(before, states, events, hash) {
          var i :| 0 <= i < |states| && ConfirmsOld(before, states[i]);
          InvalidationHolds(before, states, events, hash, i);
          assert false;
        }
      }
    } else {
      var call :| call in before.requests && before.requests[call].Built? && before.requests[call].config != Source(before);
      var states, events := HalfBuiltAnswerDefeats(before, call, hash);
    }
  }

  // ---------- The two services ----------

  datatype Answer = Same(etag: string) | Full(config: Config, etag: string)

  class Panel {
    var cache: Option<Cached>

    constructor ()
      ensures cache == None
    {
      cache := None;
    }

    function Current(now: int): string
      reads this
    {
      if cache.Some? && now < cache.value.expires then cache.value.etag else ""
    }

    /** `built` is what building the configuration yields now. */
    method GetNodeConfig(clientEtag: string, built: Config, now: int, hash: Config -> string) returns (r: Answer)
      modifies this
      ensures r.Same? <==> old(Current(now)) != "" && old(Current(now)) == clientEtag
      ensures r.Same? ==> r.etag == clientEtag && cache == old(cache)
      ensures r.Full? ==> r == Full(built, hash(built)) && cache == Some(Cached(hash(built), now + 300))
    {
      var cached := Current(now);
      if cached != "" && cached == clientEtag {
        return Same(cached);
      }
      var etag := hash(built);
      cache := Some(Cached(etag, now + TTL));
      r := Full(built, etag);
    }

    /** From now on no ETag matches, at any time, until the next answer is cached. */
    method InvalidateNodeCache()
      modifies this
      ensures cache == None && forall now :: Current(now) == ""
    {
      cache := None;
    }
  }

  /** Cache and held ETag after a poll that nothing interferes with. */
  function AfterPoll(cache: Option<Cached>, etag: string, built: Config, now: int, hash: Config -> string): (Option<Cached>, string) {
    if cache.Some? && now < cache.value.expires && cache.value.etag != "" && cache.value.etag == etag then (cache, etag)
    else (Some(Cached(hash(built), now + TTL)), hash(built))
  }

  /** The steps of an undisturbed poll in the machine. */
  function PollSteps(s: State, call: nat): seq<Event> {
    if NotModified(s) then [Poll(call)] else [Poll(call), Build(call), StoreEtag(call), Deliver(call)]
  }

  /** The two services run those steps: from any state of the machine, an undisturbed poll leaves the cache and
      the ETag that `GetConfig` leaves, and the agent with the data current now or with what it held. */
  lemma UndisturbedPoll(s: State, call: nat, hash: Config -> string) returns (states: seq<State>)
    requires call !in s.requests && SoundAgent(s, hash)
    ensures Steps(states, PollSteps(s, call), hash) && states[0] == s
    ensures var t := states[|states| - 1];
            && (t.cache, t.agentEtag) == AfterPoll(s.cache, s.agentEtag, Source(s), s.now, hash)
            && t.agent == (if NotModified(s) then s.agent else Some(Source(s)))
            && t.requests == s.requests
  {
    if NotModified(s) {
      states := [s, s];
    } else {
      var s1 := Next(s, Poll(call), hash);
      var s2 := Next(s1, Build(call), hash);
      var s3 := Next(s2, StoreEtag(call), hash);
      var s4 := Next(s3, Deliver(call), hash);
      states := [s, s1, s2, s3, s4];
      var events := PollSteps(s, call);
      forall i | 0 <= i < 4 ensures Enabled(states[i], events[i]) && states[i + 1] == Next(states[i], events[i], hash) {
        if i == 0 { assert states[1] == s1; } else if i == 1 { assert states[2] == s2; } else if i == 2 { assert states[3] == s3; } else { assert states[4] == s4; }
      }
    }
  }

  /** The last full answer among these. */
  predicate LastFull(configs: seq<Option<Config>>, built: seq<Config>, j: nat) {
    j < |configs| <= |built| && configs[j] == Some(built[j]) && forall i :: j < i < |configs| ==> configs[i].None?
  }

  /** Poll k was told "not modified" and keeps the full answer of poll j, less than 300 seconds old. */
  predicate Confirms(configs: seq<Option<Config>>, built: seq<Config>, times: seq<int>, j: nat, k: nat) {
    && j < k < |configs| <= |built| && |configs| <= |times|
    && configs[j] == Some(built[j]) && (forall i :: j < i <= k ==> configs[i].None?)
    && times[k] < times[j] + 300
  }

  /** A poll gets the data of its own time, or keeps those of an earlier one of these polls, never older ones. */
  ghost predicate Justified(configs: seq<Option<Config>>, built: seq<Config>, times: seq<int>, k: nat)
    requires k < |configs| <= |built|
  {
    configs[k] == Some(built[k]) || exists j: nat :: Confirms(configs, built, times, j, k)
  }

  lemma JustifiedStays(configs: seq<Option<Config>>, config: Option<Config>, built: seq<Config>, times: seq<int>, k: nat)
    requires k < |configs| < |built| == |times| && Justified(configs, built, times, k)
    ensures Justified(configs + [config], built, times, k)
  {
    if configs[k] != Some(built[k]) {
      var j: nat :| Confirms(configs, built, times, j, k);
      assert Confirms(configs + [config], built, times, j, k);
    }
  }

  class AgentClient {
    var configETag: string

    constructor ()
      ensures configETag == ""
    {
      configETag := "";
    }

    /** A poll: nothing new, or a full configuration whose ETag the client now holds. */
    method GetConfig(panel: Panel, built: Config, now: int, hash: Config -> string) returns (config: Option<Config>)
      modifies this, panel
      ensures config.None? <==> old(panel.Current(now)) != "" && old(panel.Current(now)) == old(configETag)
      ensures config.None? ==> configETag == old(configETag) && panel.cache == old(panel.cache)
      ensures config.Some? ==> config.value == built && configETag == hash(built) && panel.cache == Some(Cached(hash(built), now + 300))
      ensures old(configETag) == "" || old(panel.cache) == None ==> config.Some?
      ensures (panel.cache, configETag) == AfterPoll(old(panel.cache), old(configETag), built, now, hash)
    {
      var answer := panel.GetNodeConfig(configETag, built, now, hash);
      match answer
      case Same(_) => config := None;
      case Full(c, etag) =>
        configETag := etag;
        config := Some(c);
    }

    /** Polls at any times after the Panel dropped its cached ETag, each finding its own data. */
    method PollAfterInvalidation(panel: Panel, built: seq<Config>, times: seq<int>, hash: Config -> string) returns (configs: seq<Option<Config>>)
      requires |built| == |times|
      modifies this, panel
      ensures |configs| == |built| && forall k :: 0 <= k < |configs| ==> Justified(configs, built, times, k)
    {
      panel.InvalidateNodeCache();
      configs := [];
      ghost var last := 0;
      for k := 0 to |built|
        invariant |configs| == k && forall i :: 0 <= i < k ==> Justified(configs, built, times, i)
        invariant k == 0 ==> panel.cache == None
        invariant 0 < k ==> LastFull(configs, built, last) && configETag == hash(built[last])
        invariant 0 < k ==> panel.cache == Some(Cached(hash(built[last]), times[last] + TTL))
      {
        ghost var before := configs;
        var config := GetConfig(panel, built[k], times[k], hash);
        configs := configs + [config];
        if config.Some? { last := k; }
        forall i | 0 <= i < k ensures Justified(configs, built, times, i) { JustifiedStays(before, config, built, times, i); }
        assert LastFull(configs, built, last);
        assert Justified(configs, built, times, k) by { if config.None? { assert Confirms(configs, built, times, last, k); } }
      }
    }
  }
}
