/** The agent's config generator. `Generate` writes its routing rules through the routing object
    it was handed, so a second call starts from the rules of the first. */
module Generator {
  import opened Sums

  // ---------- Users and inbounds ----------

  datatype User = User(
    email: string,
    uuid: string,
    password: string,
    flow: string,
    security: string,
    cipher: string,
    alterId: int,
    level: int,
    inboundTags: seq<string>)

  datatype Value = Text(s: string) | Number(n: int)
  datatype Entry = Entry(fields: map<string, Value>)
  datatype Settings = Settings(clients: Option<seq<Entry>>, accounts: Option<seq<Entry>>, others: map<string, string>)
  datatype Inbound = Inbound(tag: string, protocol: string, settings: Settings)

  function AccountFor(u: User): Entry {
    Entry(map["user" := Text(u.email), "pass" := Text(u.password)])
  }

  function Given(key: string, s: string): map<string, Value> {
    if s == "" then map[] else map[key := Text(s)]
  }

  function ClientFor(protocol: string, u: User): Entry {
    Entry(map["email" := Text(u.email), "level" := Number(u.level)] +
      if protocol == "vless" then map["id" := Text(u.uuid)] + Given("flow", u.flow)
      else if protocol == "vmess" then
        map["id" := Text(u.uuid), "alterId" := Number(u.alterId)] + Given("security", u.security)
      else if protocol == "trojan" then map["password" := Text(u.password)]
      else if protocol == "shadowsocks" then map["password" := Text(u.password)] + Given("method", u.cipher)
      else map[])
  }

  function Repeat<T>(x: T, n: nat): (s: seq<T>)
    ensures |s| == n && forall i :: 0 <= i < n ==> s[i] == x
  {
    if n == 0 then [] else Repeat(x, n - 1) + [x]
  }

  function Count(tags: seq<string>, tag: string): nat {
    if tags == [] then 0 else Count(tags[..|tags| - 1], tag) + (if tags[|tags| - 1] == tag then 1 else 0)
  }

  /** The users of an inbound in list order, once for every time they name its tag. */
  function UsersOf(users: seq<User>, tag: string): seq<User> {
    if users == [] then []
    else
      var u := users[|users| - 1];
      UsersOf(users[..|users| - 1], tag) + Repeat(u, Count(u.inboundTags, tag))
  }

  function Accounts(users: seq<User>): seq<Entry> {
    if users == [] then [] else Accounts(users[..|users| - 1]) + [AccountFor(users[|users| - 1])]
  }

  function Clients(protocol: string, users: seq<User>): seq<Entry> {
    if users == [] then [] else Clients(protocol, users[..|users| - 1]) + [ClientFor(protocol, users[|users| - 1])]
  }

  /** 'socks' gets an accounts list and no clients; everything else gets a clients list,
      and whatever accounts list its settings came with stays. */
  function Built(inbound: Inbound, users: seq<User>): Inbound {
    var mine := UsersOf(users, inbound.tag);
    if inbound.protocol == "socks"
    then inbound.(settings := inbound.settings.(accounts := Some(Accounts(mine)), clients := None))
    else inbound.(settings := inbound.settings.(clients := Some(Clients(inbound.protocol, mine))))
  }

  // ---------- Whom a running inbound serves ----------

  function Names(entries: seq<Entry>, key: string): set<string> {
    set e | e in entries && key in e.fields && e.fields[key].Text? :: e.fields[key].s
  }

  function ListOf(list: Option<seq<Entry>>): seq<Entry> {
    if list.Some? then list.value else []
  }

  /** 'socks' and 'http' authenticate against accounts, everything else against clients. */
  function Served(inbound: Inbound): set<string> {
    if inbound.protocol == "socks" || inbound.protocol == "http"
    then Names(ListOf(inbound.settings.accounts), "user")
    else Names(ListOf(inbound.settings.clients), "email")
  }

  /** The emails a user list gives a tag. */
  function Members(users: seq<User>, tag: string): set<string> {
    set u | u in users && tag in u.inboundTags :: u.email
  }

  lemma {:induction false} CountPositive(tags: seq<string>, tag: string)
    ensures 0 < Count(tags, tag) <==> tag in tags
    decreases |tags|
  {
    if tags != [] {
      assert tags == tags[..|tags| - 1] + [tags[|tags| - 1]];
      CountPositive(tags[..|tags| - 1], tag);
    }
  }

  lemma {:induction false} UsersOfMeaning(users: seq<User>, tag: string)
    ensures forall u :: u in UsersOf(users, tag) <==> u in users && tag in u.inboundTags
    decreases |users|
  {
    if users != [] {
      var n := |users| - 1;
      assert users == users[..n] + [users[n]];
      UsersOfMeaning(users[..n], tag);
      CountPositive(users[n].inboundTags, tag);
      var copies := Repeat(users[n], Count(users[n].inboundTags, tag));
      assert users[n] in copies <==> copies != [] by { if copies != [] { assert copies[0] == users[n]; } }
    }
  }

  lemma {:induction false} AccountNames(users: seq<User>)
    ensures Names(Accounts(users), "user") == set u | u in users :: u.email
    decreases |users|
  {
    if users != [] {
      var n := |users| - 1;
      assert users == users[..n] + [users[n]];
      AccountNames(users[..n]);
      assert Names(Accounts(users), "user") == Names(Accounts(users[..n]), "user") + {users[n].email};
    }
  }

  lemma NamesAppend(a: seq<Entry>, b: seq<Entry>, key: string)
    ensures Names(a + b, key) == Names(a, key) + Names(b, key)
  {
  }

  lemma ClientName(protocol: string, u: User)
    ensures Names([ClientFor(protocol, u)], "email") == {u.email}
  {
    var e := ClientFor(protocol, u);
    assert "email" in e.fields && e.fields["email"] == Text(u.email);
    assert forall x :: x in [e] <==> x == e;
  }

  lemma {:induction false} ClientNames(protocol: string, users: seq<User>)
    ensures Names(Clients(protocol, users), "email") == set u | u in users :: u.email
    decreases |users|
  {
    if users != [] {
      var n := |users| - 1;
      assert users == users[..n] + [users[n]];
      ClientNames(protocol, users[..n]);
      ClientName(protocol, users[n]);
      NamesAppend(Clients(protocol, users[..n]), [ClientFor(protocol, users[n])], "email");
    }
  }

  /** A built inbound serves exactly its listed users, unless it is an http inbound. */
  lemma BuiltServesListed(inbound: Inbound, users: seq<User>)
    ensures inbound.protocol != "http" ==> Served(Built(inbound, users)) == Members(users, inbound.tag)
    ensures inbound.protocol == "http" ==> Served(Built(inbound, users)) == Names(ListOf(inbound.settings.accounts), "user")
  {
    var mine := UsersOf(users, inbound.tag);
    UsersOfMeaning(users, inbound.tag);
    AccountNames(mine);
    ClientNames(inbound.protocol, mine);
    assert (set u | u in mine :: u.email) == Members(users, inbound.tag);
  }

  predicate HidesNobody(inbound: Inbound) {
    inbound.protocol != "http" || Names(ListOf(inbound.settings.accounts), "user") == {}
  }

  /** Exactly when a rebuilt inbound can never serve anyone the user list leaves out. */
  lemma ServesOnlyListedIff(inbound: Inbound)
    ensures (forall users :: Served(Built(inbound, users)) <= Members(users, inbound.tag)) <==> HidesNobody(inbound)
  {
    forall users ensures HidesNobody(inbound) ==> Served(Built(inbound, users)) <= Members(users, inbound.tag) {
      BuiltServesListed(inbound, users);
    }
    BuiltServesListed(inbound, []);
    assert Members([], inbound.tag) == {};
  }

  // ---------- Routing rules ----------

  datatype Rule = ObjectRule(fields: map<string, string>) | OtherJson(text: string)

  const API_RULE := ObjectRule(map["type" := "field", "inboundTag" := "api-inbound", "outboundTag" := "api"])

  predicate IsValid(rule: Rule) {
    rule.ObjectRule? && ("outboundTag" in rule.fields || "balancerTag" in rule.fields)
  }

  function KeepValid(rules: seq<Rule>): seq<Rule> {
    if rules == [] then []
    else KeepValid(rules[..|rules| - 1]) + (if IsValid(rules[|rules| - 1]) then [rules[|rules| - 1]] else [])
  }

  /** The rules kept are exactly the objects that name an outbound or a balancer. */
  lemma {:induction false} KeptRules(rules: seq<Rule>, rule: Rule)
    ensures rule in KeepValid(rules)
       <==> rule in rules && rule.ObjectRule? && ("outboundTag" in rule.fields || "balancerTag" in rule.fields)
    decreases |rules|
  {
    if rules != [] {
      var n := |rules| - 1;
      assert rules == rules[..n] + [rules[n]];
      KeptRules(rules[..n], rule);
    }
  }

  function Regenerated(rules: seq<Rule>): seq<Rule> {
    [API_RULE] + KeepValid(rules)
  }

  function RegeneratedTimes(rules: seq<Rule>, k: nat): seq<Rule> {
    if k == 0 then rules else Regenerated(RegeneratedTimes(rules, k - 1))
  }

  /** The first rule that fits a request; `fits` is the request's view of the rules. */
  function Route(rules: seq<Rule>, fits: Rule -> bool): Option<Rule> {
    if rules == [] then None
    else if fits(rules[0]) then Some(rules[0])
    else Route(rules[1..], fits)
  }

  lemma {:induction false} KeepValidAppend(a: seq<Rule>, b: seq<Rule>)
    ensures KeepValid(a + b) == KeepValid(a) + KeepValid(b)
    decreases |b|
  {
    if b == [] {
      assert a + b == a;
    } else {
      var n := |b| - 1;
      assert (a + b)[..|a + b| - 1] == a + b[..n];
      KeepValidAppend(a, b[..n]);
    }
  }

  lemma {:induction false} KeepValidStable(rules: seq<Rule>)
    ensures KeepValid(KeepValid(rules)) == KeepValid(rules)
    decreases |rules|
  {
    if rules != [] {
      var n := |rules| - 1;
      KeepValidStable(rules[..n]);
      KeepValidAppend(KeepValid(rules[..n]), if IsValid(rules[n]) then [rules[n]] else []);
    }
  }

  lemma {:induction false} ApiRulesAreValid(k: nat)
    ensures KeepValid(Repeat(API_RULE, k)) == Repeat(API_RULE, k)
  {
    if k > 0 {
      ApiRulesAreValid(k - 1);
      assert Repeat(API_RULE, k)[..k - 1] == Repeat(API_RULE, k - 1);
    }
  }

  lemma AlreadyValid(rules: seq<Rule>, k: nat)
    ensures KeepValid(Repeat(API_RULE, k) + KeepValid(rules)) == Repeat(API_RULE, k) + KeepValid(rules)
  {
    KeepValidAppend(Repeat(API_RULE, k), KeepValid(rules));
    ApiRulesAreValid(k);
    KeepValidStable(rules);
  }

  /** After k regenerations the shared list holds k API rules and then the valid rules in order. */
  lemma {:induction false} RegeneratedShape(rules: seq<Rule>, k: nat)
    requires 1 <= k
    ensures RegeneratedTimes(rules, k) == Repeat(API_RULE, k) + KeepValid(rules)
    decreases k
  {
    if k == 1 {
      assert RegeneratedTimes(rules, 0) == rules;
      assert Repeat(API_RULE, 1) == [API_RULE];
    } else {
      RegeneratedShape(rules, k - 1);
      AlreadyValid(rules, k - 1);
      assert RegeneratedTimes(rules, k) == [API_RULE] + (Repeat(API_RULE, k - 1) + KeepValid(rules));
    }
  }

  lemma {:induction false} RouteAfterCopies(x: Rule, k: nat, rest: seq<Rule>, fits: Rule -> bool)
    ensures Route(Repeat(x, k) + rest, fits) == if 0 < k && fits(x) then Some(x) else Route(rest, fits)
    decreases k
  {
    if k == 0 {
      assert Repeat(x, 0) + rest == rest;
    } else {
      assert (Repeat(x, k) + rest)[1..] == Repeat(x, k - 1) + rest;
      RouteAfterCopies(x, k - 1, rest, fits);
    }
  }

  /** However often the shared list was regenerated, every request is routed as after the first
      time: by the API rule if that fits, else by the first fitting rule among the valid ones. */
  lemma RegenerationKeepsRouting(rules: seq<Rule>, k: nat, fits: Rule -> bool)
    requires 1 <= k
    ensures Route(RegeneratedTimes(rules, k), fits) == Route(RegeneratedTimes(rules, 1), fits)
    ensures Route(RegeneratedTimes(rules, k), fits)
         == if fits(API_RULE) then Some(API_RULE) else Route(KeepValid(rules), fits)
  {
    RegeneratedShape(rules, k);
    RegeneratedShape(rules, 1);
    RouteAfterCopies(API_RULE, k, KeepValid(rules), fits);
    RouteAfterCopies(API_RULE, 1, KeepValid(rules), fits);
  }

  // ---------- Outbounds ----------

  datatype Outbound = Outbound(tag: string, protocol: string, body: string)

  const DEFAULT_DIRECT := Outbound("direct", "freedom", "{}")
  const API_OUTBOUND := Outbound("api", "blackhole", "{}")

  predicate Reserved(tag: string) {
    tag == "direct" || tag == "api"
  }

  function Tags(obs: seq<Outbound>): set<string> {
    if obs == [] then {} else Tags(obs[..|obs| - 1]) + {obs[|obs| - 1].tag}
  }

  lemma {:induction false} TagsMeaning(obs: seq<Outbound>, tag: string)
    ensures tag in Tags(obs) <==> exists i :: 0 <= i < |obs| && obs[i].tag == tag
    decreases |obs|
  {
    if obs != [] {
      var n := |obs| - 1;
      TagsMeaning(obs[..n], tag);
      if obs[n].tag == tag { assert tag in Tags(obs); }
      if i :| 0 <= i < |obs| && obs[i].tag == tag && i < n { assert obs[..n][i].tag == tag; }
    }
  }

  /** The outbound that 'direct' traffic uses: the first so tagged, or the default one. */
  function DirectOf(obs: seq<Outbound>): Outbound {
    if obs == [] then DEFAULT_DIRECT else if obs[0].tag == "direct" then obs[0] else DirectOf(obs[1..])
  }

  /** The first outbound of every other tag, in order. */
  function FirstOfOthers(obs: seq<Outbound>): seq<Outbound> {
    if obs == [] then []
    else
      var ob, before := obs[|obs| - 1], obs[..|obs| - 1];
      FirstOfOthers(before) + (if Reserved(ob.tag) || ob.tag in Tags(before) then [] else [ob])
  }

  function Normalised(obs: seq<Outbound>): seq<Outbound> {
    [DirectOf(obs), API_OUTBOUND] + FirstOfOthers(obs)
  }

  predicate DistinctTags(obs: seq<Outbound>) {
    forall i, j :: 0 <= i < j < |obs| ==> obs[i].tag != obs[j].tag
  }

  predicate IsFirst(obs: seq<Outbound>, i: nat)
    requires i < |obs|
  {
    forall j :: 0 <= j < i ==> obs[j].tag != obs[i].tag
  }

  lemma FirstIffNew(obs: seq<Outbound>, n: nat)
    requires n < |obs|
    ensures IsFirst(obs, n) <==> obs[n].tag !in Tags(obs[..n])
  {
    TagsMeaning(obs[..n], obs[n].tag);
    assert forall i :: 0 <= i < n ==> obs[..n][i] == obs[i];
  }

  /** The positions of the kept outbounds. */
  ghost function Kept(obs: seq<Outbound>): seq<nat> {
    if obs == [] then []
    else
      var n := |obs| - 1;
      Kept(obs[..n]) + (if Reserved(obs[n].tag) || obs[n].tag in Tags(obs[..n]) then [] else [n])
  }

  /** What is kept stands at the kept positions, in the original order. */
  lemma {:induction false} KeptInOrder(obs: seq<Outbound>)
    ensures |Kept(obs)| == |FirstOfOthers(obs)|
    ensures forall i :: 0 <= i < |Kept(obs)| ==> Kept(obs)[i] < |obs| && FirstOfOthers(obs)[i] == obs[Kept(obs)[i]]
    ensures forall i, j :: 0 <= i < j < |Kept(obs)| ==> Kept(obs)[i] < Kept(obs)[j]
    decreases |obs|
  {
    if obs != [] {
      KeptInOrder(obs[..|obs| - 1]);
    }
  }

  /** Kept are exactly the first occurrences of the tags that are not reserved. */
  lemma {:induction false} KeptIff(obs: seq<Outbound>, p: nat)
    ensures p in Kept(obs) <==> p < |obs| && IsFirst(obs, p) && !Reserved(obs[p].tag)
    decreases |obs|
  {
    if obs != [] {
      var n := |obs| - 1;
      KeptIff(obs[..n], p);
      FirstIffNew(obs, n);
      if p < n { assert IsFirst(obs, p) <==> IsFirst(obs[..n], p); }
    }
  }

  /** It is the first outbound tagged 'direct', or the default one when there is none. */
  lemma {:induction false} DirectIsDirect(obs: seq<Outbound>)
    ensures DirectOf(obs).tag == "direct"
    ensures || (exists i :: 0 <= i < |obs| && obs[i].tag == "direct" && IsFirst(obs, i) && DirectOf(obs) == obs[i])
            || ((forall i :: 0 <= i < |obs| ==> obs[i].tag != "direct") && DirectOf(obs) == DEFAULT_DIRECT)
    decreases |obs|
  {
    if obs != [] {
      if obs[0].tag == "direct" {
        assert IsFirst(obs, 0);
      } else {
        var rest := obs[1..];
        DirectIsDirect(rest);
      }
    }
  }

  lemma {:induction false} OthersDistinct(obs: seq<Outbound>)
    ensures DistinctTags(FirstOfOthers(obs))
    ensures forall i :: 0 <= i < |FirstOfOthers(obs)| ==> !Reserved(FirstOfOthers(obs)[i].tag)
  {
    KeptInOrder(obs);
    var kept, rest := Kept(obs), FirstOfOthers(obs);
    forall j | 0 <= j < |rest|
      ensures !Reserved(rest[j].tag) && forall i :: 0 <= i < j ==> rest[i].tag != rest[j].tag
    {
      KeptIff(obs, kept[j]);
    }
  }

  lemma {:induction false} OthersKeepTags(obs: seq<Outbound>, tag: string)
    ensures tag in Tags(FirstOfOthers(obs)) <==> tag in Tags(obs) && !Reserved(tag)
    decreases |obs|
  {
    if obs != [] {
      var n := |obs| - 1;
      OthersKeepTags(obs[..n], tag);
      var before := FirstOfOthers(obs[..n]);
      assert before + [] == before;
    }
  }

  /** 'direct' comes first, 'api' second, no tag twice, and no other tag appears or is lost. */
  lemma NormalisedShape(obs: seq<Outbound>)
    ensures Normalised(obs)[0].tag == "direct" && Normalised(obs)[1] == API_OUTBOUND
    ensures DistinctTags(Normalised(obs))
    ensures forall tag :: tag in Tags(Normalised(obs)[2..]) <==> tag in Tags(obs) && !Reserved(tag)
  {
    DirectIsDirect(obs);
    OthersDistinct(obs);
    assert Normalised(obs)[2..] == FirstOfOthers(obs);
    forall tag ensures tag in Tags(FirstOfOthers(obs)) <==> tag in Tags(obs) && !Reserved(tag) {
      OthersKeepTags(obs, tag);
    }
  }

  lemma NewOtherIsKept(before: seq<Outbound>, ob: Outbound)
    requires !Reserved(ob.tag) && forall i :: 0 <= i < |before| ==> before[i].tag != ob.tag
    ensures FirstOfOthers(before + [ob]) == FirstOfOthers(before) + [ob]
  {
    assert (before + [ob])[..|before|] == before;
    TagsMeaning(before, ob.tag);
  }

  /** A list without duplicates or reserved tags after a reserved head passes unchanged. */
  lemma {:induction false} OthersOfDistinct(head: seq<Outbound>, rest: seq<Outbound>)
    requires DistinctTags(head + rest)
    requires forall i :: 0 <= i < |head| ==> Reserved(head[i].tag)
    requires forall i :: 0 <= i < |rest| ==> !Reserved(rest[i].tag)
    ensures FirstOfOthers(head + rest) == rest
    decreases |rest|
  {
    if rest == [] {
      assert head + rest == head;
      OnlyReserved(head);
    } else {
      var n := |rest| - 1;
      var before := head + rest[..n];
      assert head + rest == before + [rest[n]];
      DistinctBefore(before, rest[n]);
      OthersOfDistinct(head, rest[..n]);
      NewOtherIsKept(before, rest[n]);
    }
  }

  lemma DistinctBefore(before: seq<Outbound>, ob: Outbound)
    requires DistinctTags(before + [ob])
    ensures DistinctTags(before) && forall i :: 0 <= i < |before| ==> before[i].tag != ob.tag
  {
    var all := before + [ob];
    forall i | 0 <= i < |before| ensures all[i] == before[i] && before[i].tag != ob.tag { assert all[|before|] == ob; }
  }

  lemma {:induction false} OnlyReserved(obs: seq<Outbound>)
    requires forall i :: 0 <= i < |obs| ==> Reserved(obs[i].tag)
    ensures FirstOfOthers(obs) == []
    decreases |obs|
  {
    if obs != [] { OnlyReserved(obs[..|obs| - 1]); }
  }

  /** Normalising twice is normalising once. */
  lemma NormalisingIsIdempotent(obs: seq<Outbound>)
    ensures Normalised(Normalised(obs)) == Normalised(obs)
  {
    NormalisedShape(obs);
    OthersDistinct(obs);
    OthersOfDistinct([DirectOf(obs), API_OUTBOUND], FirstOfOthers(obs));
    DirectIsDirect(obs);
  }
}
