/** `Generate` itself: the lists are built by loops, and the routing object is shared. */
module GeneratorServices {
  import opened Sums
  import opened Generator

  class Routing {
    var rules: seq<Rule>

    constructor (rules: seq<Rule>)
      ensures this.rules == rules
    {
      this.rules := rules;
    }
  }

  /** The Panel's configuration as the agent holds it. Its routing is a reference. */
  datatype NodeConfig = NodeConfig(inbounds: seq<Inbound>, outbounds: seq<Outbound>, routing: Routing?)

  datatype XrayConfig = XrayConfig(inbounds: seq<Inbound>, outbounds: seq<Outbound>, routing: Routing)

  const API_INBOUND := Inbound("api-inbound", "dokodemo-door", Settings(None, None, map["address" := "127.0.0.1"]))

  ghost function BuiltAll(inbounds: seq<Inbound>, users: seq<User>): (r: seq<Inbound>)
    ensures |r| == |inbounds| && forall i :: 0 <= i < |inbounds| ==> r[i] == Built(inbounds[i], users)
  {
    seq(|inbounds|, i requires 0 <= i < |inbounds| => Built(inbounds[i], users))
  }

  function Grouped(groups: map<string, seq<User>>, tag: string): seq<User> {
    if tag in groups then groups[tag] else []
  }

  /** `r` holds the old groups and the user once more for every time `tags` names the tag. */
  ghost predicate Extended(r: map<string, seq<User>>, groups: map<string, seq<User>>, user: User, tags: seq<string>) {
    forall tag :: Grouped(r, tag) == Grouped(groups, tag) + Repeat(user, Count(tags, tag))
  }

  lemma OneRepeatMore(before: seq<User>, user: User, n: nat)
    ensures before + Repeat(user, n) + [user] == before + Repeat(user, n + 1)
  {
  }

  lemma ExtendedPush(r: map<string, seq<User>>, groups: map<string, seq<User>>, user: User, tags: seq<string>, j: nat)
    requires j < |tags| && Extended(r, groups, user, tags[..j])
    ensures Extended(r[tags[j] := Grouped(r, tags[j]) + [user]], groups, user, tags[..j + 1])
  {
    assert tags[..j + 1][..j] == tags[..j];
    var more := r[tags[j] := Grouped(r, tags[j]) + [user]];
    forall tag ensures Grouped(more, tag) == Grouped(groups, tag) + Repeat(user, Count(tags[..j + 1], tag)) {
      if tag == tags[j] {
        OneRepeatMore(Grouped(groups, tag), user, Count(tags[..j], tag));
      } else {
        assert Grouped(more, tag) == Grouped(r, tag);
      }
    }
  }

  method AddToGroups(groups: map<string, seq<User>>, user: User) returns (r: map<string, seq<User>>)
    ensures Extended(r, groups, user, user.inboundTags)
  {
    r := groups;
    var tags := user.inboundTags;
    for j := 0 to |tags|
      invariant Extended(r, groups, user, tags[..j])
    {
      ExtendedPush(r, groups, user, tags, j);
      r := r[tags[j] := (if tags[j] in r then r[tags[j]] else []) + [user]];
    }
    assert tags[..|tags|] == tags;
  }

  /** Group the users by inbound tag, keeping list order. */
  method GroupUsers(users: seq<User>) returns (groups: map<string, seq<User>>)
    ensures forall tag :: Grouped(groups, tag) == UsersOf(users, tag)
  {
    groups := map[];
    for i := 0 to |users|
      invariant forall tag :: Grouped(groups, tag) == UsersOf(users[..i], tag)
    {
      groups := AddToGroups(groups, users[i]);
      assert users[..i + 1][..i] == users[..i];
    }
    assert users[..|users|] == users;
  }

  function Field(e: Entry, key: string): Option<Value> {
    if key in e.fields then Some(e.fields[key]) else None
  }

  function TextIf(present: bool, s: string): Option<Value> {
    if present then Some(Text(s)) else None
  }

  /** A client entry shows its user's email and level, the credential of its protocol, and the options that are
      set; it has no other field. */
  predicate IsClientOf(e: Entry, protocol: string, u: User) {
    && Field(e, "email") == Some(Text(u.email))
    && Field(e, "level") == Some(Number(u.level))
    && Field(e, "id") == TextIf(protocol == "vless" || protocol == "vmess", u.uuid)
    && Field(e, "alterId") == (if protocol == "vmess" then Some(Number(u.alterId)) else None)
    && Field(e, "password") == TextIf(protocol == "trojan" || protocol == "shadowsocks", u.password)
    && Field(e, "flow") == TextIf(protocol == "vless" && u.flow != "", u.flow)
    && Field(e, "security") == TextIf(protocol == "vmess" && u.security != "", u.security)
    && Field(e, "method") == TextIf(protocol == "shadowsocks" && u.cipher != "", u.cipher)
    && e.fields.Keys <= {"email", "level", "id", "alterId", "password", "flow", "security", "method"}
  }

  predicate IsAccountOf(e: Entry, u: User) {
    e.fields == map["user" := Text(u.email), "pass" := Text(u.password)]
  }

  predicate AreAccountsOf(accounts: seq<Entry>, users: seq<User>) {
    |accounts| == |users| && forall i :: 0 <= i < |users| ==> IsAccountOf(accounts[i], users[i])
  }

  predicate AreClientsOf(clients: seq<Entry>, protocol: string, users: seq<User>) {
    |clients| == |users| && forall i :: 0 <= i < |users| ==> IsClientOf(clients[i], protocol, users[i])
  }

  /** The inbound with the entries of its users in the list its protocol reads; nothing else of it changes. */
  predicate HasUsers(built: Inbound, inbound: Inbound, users: seq<User>) {
    && built.tag == inbound.tag && built.protocol == inbound.protocol && built.settings.others == inbound.settings.others
    && if inbound.protocol == "socks"
       then built.settings.clients == None && built.settings.accounts.Some? && AreAccountsOf(built.settings.accounts.value, users)
       else built.settings.accounts == inbound.settings.accounts && built.settings.clients.Some?
            && AreClientsOf(built.settings.clients.value, inbound.protocol, users)
  }

  predicate AllHaveUsers(built: seq<Inbound>, inbounds: seq<Inbound>, users: seq<User>) {
    |built| == |inbounds| && forall i :: 0 <= i < |built| ==> HasUsers(built[i], inbounds[i], UsersOf(users, inbounds[i].tag))
  }

  method BuildSocksAccounts(users: seq<User>) returns (accounts: seq<Entry>)
    ensures accounts == Accounts(users) && AreAccountsOf(accounts, users)
  {
    accounts := [];
    for i := 0 to |users|
      invariant accounts == Accounts(users[..i]) && AreAccountsOf(accounts, users[..i])
    {
      assert users[..i + 1][..i] == users[..i];
      accounts := accounts + [Entry(map["user" := Text(users[i].email), "pass" := Text(users[i].password)])];
    }
    assert users[..|users|] == users;
  }

  lemma UuidClient(protocol: string, u: User)
    requires protocol == "vless" || protocol == "vmess"
    ensures IsClientOf(ClientFor(protocol, u), protocol, u)
  {
  }

  lemma PasswordClient(protocol: string, u: User)
    requires protocol == "trojan" || protocol == "shadowsocks"
    ensures IsClientOf(ClientFor(protocol, u), protocol, u)
  {
  }

  lemma OtherClient(protocol: string, u: User)
    requires protocol != "vless" && protocol != "vmess" && protocol != "trojan" && protocol != "shadowsocks"
    ensures IsClientOf(ClientFor(protocol, u), protocol, u)
  {
  }

  lemma ClientForIsClient(protocol: string, u: User)
    ensures IsClientOf(ClientFor(protocol, u), protocol, u)
  {
    if protocol == "vless" || protocol == "vmess" {
      UuidClient(protocol, u);
    } else if protocol == "trojan" || protocol == "shadowsocks" {
      PasswordClient(protocol, u);
    } else {
      OtherClient(protocol, u);
    }
  }

  lemma {:induction false} ClientsAreClients(protocol: string, users: seq<User>)
    ensures AreClientsOf(Clients(protocol, users), protocol, users)
    decreases |users|
  {
    if users != [] {
      var n := |users| - 1;
      ClientsAreClients(protocol, users[..n]);
      ClientForIsClient(protocol, users[n]);
      forall i | 0 <= i < |users| ensures IsClientOf(Clients(protocol, users)[i], protocol, users[i]) {
        if i < n { assert Clients(protocol, users)[i] == Clients(protocol, users[..n])[i]; }
      }
    }
  }

  method BuildClient(protocol: string, user: User) returns (client: Entry)
    ensures client == ClientFor(protocol, user)
  {
    var fields := map["email" := Text(user.email), "level" := Number(user.level)];
    if protocol == "vless" {
      fields := fields["id" := Text(user.uuid)];
      if user.flow != "" { fields := fields["flow" := Text(user.flow)]; }
    } else if protocol == "vmess" {
      fields := fields["id" := Text(user.uuid)]["alterId" := Number(user.alterId)];
      if user.security != "" { fields := fields["security" := Text(user.security)]; }
    } else if protocol == "trojan" {
      fields := fields["password" := Text(user.password)];
    } else if protocol == "shadowsocks" {
      fields := fields["password" := Text(user.password)];
      if user.cipher != "" { fields := fields["method" := Text(user.cipher)]; }
    }
    client := Entry(fields);
  }

  method BuildClients(protocol: string, users: seq<User>) returns (clients: seq<Entry>)
    ensures clients == Clients(protocol, users) && AreClientsOf(clients, protocol, users)
  {
    clients := [];
    for i := 0 to |users|
      invariant clients == Clients(protocol, users[..i])
    {
      assert users[..i + 1][..i] == users[..i];
      var client := BuildClient(protocol, users[i]);
      clients := clients + [client];
    }
    assert users[..|users|] == users;
    ClientsAreClients(protocol, users);
  }

  method BuildInboundsWithClients(inbounds: seq<Inbound>, users: seq<User>) returns (result: seq<Inbound>)
    ensures result == BuiltAll(inbounds, users)
    ensures AllHaveUsers(result, inbounds, users)
  {
    var groups := GroupUsers(users);
    result := [];
    for i := 0 to |inbounds|
      invariant |result| == i && forall k :: 0 <= k < i ==>
        result[k] == Built(inbounds[k], users) && HasUsers(result[k], inbounds[k], UsersOf(users, inbounds[k].tag))
    {
      var inbound := inbounds[i];
      var mine := Grouped(groups, inbound.tag);
      var settings := inbound.settings;
      if inbound.protocol == "socks" {
        var accounts := BuildSocksAccounts(mine);
        settings := settings.(accounts := Some(accounts), clients := None);
      } else {
        var clients := BuildClients(inbound.protocol, mine);
        settings := settings.(clients := Some(clients));
      }
      result := result + [Inbound(inbound.tag, inbound.protocol, settings)];
    }
  }

  method ValidRules(rules: seq<Rule>) returns (valid: seq<Rule>)
    ensures valid == Regenerated(rules)
    ensures valid[0] == ObjectRule(map["type" := "field", "inboundTag" := "api-inbound", "outboundTag" := "api"])
    ensures forall rule :: rule in valid[1..] <==>
              rule in rules && rule.ObjectRule? && ("outboundTag" in rule.fields || "balancerTag" in rule.fields)
  {
    valid := [API_RULE];
    for i := 0 to |rules|
      invariant valid == [API_RULE] + KeepValid(rules[..i])
    {
      assert rules[..i + 1][..i] == rules[..i];
      var rule := rules[i];
      if rule.ObjectRule? {
        if "outboundTag" in rule.fields {
          valid := valid + [rule];
        } else if "balancerTag" in rule.fields {
          valid := valid + [rule];
        }
      }
    }
    assert rules[..|rules|] == rules;
    forall rule { KeptRules(rules, rule); }
  }

  /** The first outbound with the direct tag, or a default one put at the end. */
  method FindDirect(outbounds: seq<Outbound>) returns (all: seq<Outbound>, direct: Outbound)
    ensures direct == DirectOf(outbounds)
    ensures FirstOfOthers(all) == FirstOfOthers(outbounds)
  {
    var i := 0;
    while i < |outbounds| && outbounds[i].tag != "direct"
      invariant 0 <= i <= |outbounds| && DirectOf(outbounds) == DirectOf(outbounds[i..])
    {
      i := i + 1;
    }
    all := if i < |outbounds| then outbounds else outbounds + [DEFAULT_DIRECT];
    direct := all[i];
    if i == |outbounds| {
      assert all[..|all| - 1] == outbounds;
    }
  }

  lemma DirectFrom(outbounds: seq<Outbound>)
    ensures DirectOf(outbounds) == Outbound("direct", "freedom", "{}")
         || (DirectOf(outbounds).tag == "direct" && DirectOf(outbounds) in outbounds)
  {
    DirectIsDirect(outbounds);
  }

  /** The default 'direct' is appended when none is present; then the first 'direct' moves to the
      front, 'api' follows, and every tag not seen yet keeps its first outbound. */
  method NormaliseOutbounds(outbounds: seq<Outbound>) returns (deduped: seq<Outbound>)
    ensures deduped == Normalised(outbounds)
    ensures 2 <= |deduped| && deduped[1] == Outbound("api", "blackhole", "{}")
    ensures deduped[0] == Outbound("direct", "freedom", "{}") || (deduped[0].tag == "direct" && deduped[0] in outbounds)
  {
    var all, direct := FindDirect(outbounds);
    deduped := [direct, API_OUTBOUND];
    var seen := {"direct", "api"};
    for k := 0 to |all|
      invariant deduped == [direct, API_OUTBOUND] + FirstOfOthers(all[..k])
      invariant seen == {"direct", "api"} + Tags(all[..k])
    {
      assert all[..k + 1][..k] == all[..k];
      var ob := all[k];
      if ob.tag !in seen {
        seen := seen + {ob.tag};
        deduped := deduped + [ob];
      }
    }
    assert all[..|all|] == all;
    DirectFrom(outbounds);
  }

  method Generate(config: NodeConfig, users: seq<User>) returns (x: XrayConfig)
    modifies config.routing
    ensures x.inbounds == [API_INBOUND] + BuiltAll(config.inbounds, users)
    ensures AllHaveUsers(x.inbounds[1..], config.inbounds, users)
    ensures x.outbounds == Normalised(config.outbounds)
    ensures x.inbounds[0].tag == "api-inbound"
    ensures config.routing != null ==>
              x.routing == config.routing && x.routing.rules == Regenerated(old(config.routing.rules))
    ensures config.routing == null ==> fresh(x.routing) && x.routing.rules == Regenerated([])
  {
    var inbounds := BuildInboundsWithClients(config.inbounds, users);
    var routing: Routing;
    if config.routing == null {
      routing := new Routing([]);
    } else {
      routing := config.routing;
    }
    var rules := ValidRules(routing.rules);
    routing.rules := rules;
    var outbounds := NormaliseOutbounds(config.outbounds);
    x := XrayConfig([API_INBOUND] + inbounds, outbounds, routing);
    assert x.inbounds[1..] == inbounds;
  }

  /** k config ticks on an unchanged configuration: one more API rule each time, the same routing. */
  method UnchangedTicks(config: NodeConfig, users: seq<User>, k: nat) returns (last: XrayConfig)
    requires config.routing != null && 1 <= k
    modifies config.routing
    ensures last.routing == config.routing
    ensures config.routing.rules == Repeat(API_RULE, k) + KeepValid(old(config.routing.rules))
    ensures forall fits: Rule -> bool ::
              Route(config.routing.rules, fits) == Route(Regenerated(old(config.routing.rules)), fits)
  {
    ghost var rules := config.routing.rules;
    last := Generate(config, users);
    assert config.routing.rules == RegeneratedTimes(rules, 1) by {
      assert RegeneratedTimes(rules, 0) == rules;
    }
    for i := 1 to k
      invariant last.routing == config.routing
      invariant config.routing.rules == RegeneratedTimes(rules, i)
    {
      last := Generate(config, users);
    }
    RegeneratedShape(rules, k);
    forall fits: Rule -> bool ensures Route(RegeneratedTimes(rules, k), fits) == Route(Regenerated(rules), fits) {
      RegenerationKeepsRouting(rules, k, fits);
    }
  }
}
