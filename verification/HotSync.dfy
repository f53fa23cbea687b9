/** Hot reload: bring the running core from the old user list to the new one by adding and
    removing single users, in whatever order the maps are walked. */
module HotSync {
  import opened Sums
  import opened Generator

  datatype Rpc = RemoveUser(tag: string, email: string) | AddUser(tag: string, user: User)

  function Subject(op: Rpc): (string, string) {
    if op.RemoveUser? then (op.tag, op.email) else (op.tag, op.user.email)
  }

  type Limit = (int, int)

  /** Setting the limit of an email, or removing it. */
  datatype LimitCall = LimitCall(email: string, limit: Option<Limit>)

  /** The running core: per inbound the emails it accepts, per email a rate limit, and every
      user and limit call it ever received. A call either takes effect or fails and changes nothing. */
  class Core {
    var inbounds: map<string, set<string>>
    var limits: map<string, Limit>
    var calls: seq<Rpc>
    var limitCalls: seq<LimitCall>

    constructor ()
      ensures inbounds == map[] && limits == map[] && calls == [] && limitCalls == []
    {
      inbounds, limits, calls, limitCalls := map[], map[], [], [];
    }

    method Remove(tag: string, email: string) returns (ok: bool)
      modifies `inbounds, `calls
      ensures calls == old(calls) + [RemoveUser(tag, email)]
      ensures ok ==> tag in old(inbounds)
      ensures inbounds == if ok then old(inbounds)[tag := old(inbounds)[tag] - {email}] else old(inbounds)
    {
      calls := calls + [RemoveUser(tag, email)];
      ok := *;
      ok := ok && tag in inbounds;
      if ok { inbounds := inbounds[tag := inbounds[tag] - {email}]; }
    }

    method Add(tag: string, user: User) returns (ok: bool)
      modifies `inbounds, `calls
      ensures calls == old(calls) + [AddUser(tag, user)]
      ensures ok ==> tag in old(inbounds)
      ensures inbounds == if ok then old(inbounds)[tag := old(inbounds)[tag] + {user.email}] else old(inbounds)
    {
      calls := calls + [AddUser(tag, user)];
      ok := *;
      ok := ok && tag in inbounds;
      if ok { inbounds := inbounds[tag := inbounds[tag] + {user.email}]; }
    }
  }

  function At(m: map<string, set<string>>, tag: string): set<string> {
    if tag in m then m[tag] else {}
  }

  function UsersAt(m: map<string, map<string, User>>, tag: string): map<string, User> {
    if tag in m then m[tag] else map[]
  }

  // ---------- Which calls are due ----------

  /** The last entry of a list with this email on this tag: the one an addition carries. */
  ghost predicate IsLast(users: seq<User>, tag: string, u: User) {
    exists i :: 0 <= i < |users| && users[i] == u && tag in u.inboundTags
      && forall j :: i < j < |users| ==> !(users[j].email == u.email && tag in users[j].inboundTags)
  }

  ghost predicate Due(was: set<string>, now: map<string, User>, tag: string, op: Rpc) {
    match op
    case RemoveUser(t, email) => t == tag && email in was && email !in now
    case AddUser(t, u) => t == tag && u.email in now && now[u.email] == u && u.email !in was
  }

  ghost predicate OncePerUser(ops: seq<Rpc>) {
    forall i, j :: 0 <= i < j < |ops| ==> Subject(ops[i]) != Subject(ops[j])
  }

  lemma OneMore(ops: seq<Rpc>, op: Rpc)
    requires OncePerUser(ops) && forall o :: o in ops ==> Subject(o) != Subject(op)
    ensures OncePerUser(ops + [op])
  {
    forall i, j | 0 <= i < j < |ops + [op]| ensures Subject((ops + [op])[i]) != Subject((ops + [op])[j]) {
      if j == |ops| { assert ops[i] in ops; }
    }
  }

  // ---------- One inbound ----------

  /** Remove the users that are no longer listed; `kept` are those whose removal failed. */
  method RemoveGone(core: Core, tag: string, was: set<string>, now: map<string, User>)
    returns (kept: set<string>, ghost ops: seq<Rpc>)
    modifies core`inbounds, core`calls
    ensures core.calls == old(core.calls) + ops && OncePerUser(ops)
    ensures forall op :: op in ops <==> op.RemoveUser? && Due(was, now, tag, op)
    ensures core.inbounds.Keys == old(core.inbounds).Keys
    ensures forall t :: t in core.inbounds && t != tag ==> core.inbounds[t] == old(core.inbounds)[t]
    ensures kept <= was - now.Keys
    ensures tag in core.inbounds ==> core.inbounds[tag] == old(core.inbounds)[tag] - (was - now.Keys - kept)
  {
    kept, ops := {}, [];
    var rest := was;
    while rest != {}
      invariant rest <= was && kept <= was - now.Keys - rest
      invariant core.calls == old(core.calls) + ops && OncePerUser(ops)
      invariant forall op :: op in ops <==> op.RemoveUser? && Due(was - rest, now, tag, op)
      invariant core.inbounds.Keys == old(core.inbounds).Keys
      invariant forall t :: t in core.inbounds && t != tag ==> core.inbounds[t] == old(core.inbounds)[t]
      invariant tag in core.inbounds ==> core.inbounds[tag] == old(core.inbounds)[tag] - (was - rest - now.Keys - kept)
      decreases rest
    {
      var email :| email in rest;
      if email !in now {
        var ok := core.Remove(tag, email);
        OneMore(ops, RemoveUser(tag, email));
        ops := ops + [RemoveUser(tag, email)];
        if !ok { kept := kept + {email}; }
      }
      rest := rest - {email};
    }
  }

  /** Add the users that were not listed; `missed` are those whose addition failed. */
  method AddNew(core: Core, tag: string, was: set<string>, now: map<string, User>)
    returns (missed: set<string>, ghost ops: seq<Rpc>)
    requires forall email :: email in now ==> now[email].email == email
    modifies core`inbounds, core`calls
    ensures core.calls == old(core.calls) + ops && OncePerUser(ops)
    ensures forall op :: op in ops <==> op.AddUser? && Due(was, now, tag, op)
    ensures core.inbounds.Keys == old(core.inbounds).Keys
    ensures forall t :: t in core.inbounds && t != tag ==> core.inbounds[t] == old(core.inbounds)[t]
    ensures missed <= now.Keys - was
    ensures tag in core.inbounds ==> core.inbounds[tag] == old(core.inbounds)[tag] + (now.Keys - was - missed)
  {
    missed, ops := {}, [];
    var rest := now.Keys;
    while rest != {}
      invariant rest <= now.Keys && missed <= now.Keys - was - rest
      invariant core.calls == old(core.calls) + ops && OncePerUser(ops)
      invariant forall op :: op in ops <==> op.AddUser? && op.user.email !in rest && Due(was, now, tag, op)
      invariant core.inbounds.Keys == old(core.inbounds).Keys
      invariant forall t :: t in core.inbounds && t != tag ==> core.inbounds[t] == old(core.inbounds)[t]
      invariant tag in core.inbounds ==> core.inbounds[tag] == old(core.inbounds)[tag] + (now.Keys - rest - was - missed)
      decreases rest
    {
      var email :| email in rest;
      if email !in was {
        var ok := core.Add(tag, now[email]);
        OneMore(ops, AddUser(tag, now[email]));
        ops := ops + [AddUser(tag, now[email])];
        if !ok { missed := missed + {email}; }
      }
      rest := rest - {email};
    }
  }

  /** One inbound: afterwards it holds what it held, minus the users gone, plus the new ones,
      except for the calls that failed. */
  method SyncTag(core: Core, tag: string, was: set<string>, now: map<string, User>)
    returns (kept: set<string>, missed: set<string>, ghost ops: seq<Rpc>)
    requires forall email :: email in now ==> now[email].email == email
    modifies core`inbounds, core`calls
    ensures core.calls == old(core.calls) + ops && OncePerUser(ops)
    ensures forall op :: op in ops <==> Due(was, now, tag, op)
    ensures core.inbounds.Keys == old(core.inbounds).Keys
    ensures forall t :: t in core.inbounds && t != tag ==> core.inbounds[t] == old(core.inbounds)[t]
    ensures kept <= was - now.Keys && missed <= now.Keys - was
    ensures tag in core.inbounds ==>
              core.inbounds[tag] == (old(core.inbounds)[tag] - (was - now.Keys - kept)) + (now.Keys - was - missed)
  {
    ghost var removals;
    kept, removals := RemoveGone(core, tag, was, now);
    ghost var additions;
    missed, additions := AddNew(core, tag, was, now);
    ops := removals + additions;
  }

  // ---------- The comparison maps ----------

  method MapOld(users: seq<User>) returns (m: map<string, set<string>>)
    ensures forall tag :: At(m, tag) == Members(users, tag)
  {
    m := map[];
    for i := 0 to |users|
      invariant forall tag :: At(m, tag) == Members(users[..i], tag)
    {
      m := MarkOld(m, users[i]);
      assert users[..i + 1] == users[..i] + [users[i]];
    }
    assert users[..|users|] == users;
  }

  method MarkOld(m: map<string, set<string>>, u: User) returns (r: map<string, set<string>>)
    ensures forall tag :: At(r, tag) == At(m, tag) + (if tag in u.inboundTags then {u.email} else {})
  {
    r := m;
    for j := 0 to |u.inboundTags|
      invariant forall tag :: At(r, tag) == At(m, tag) + (if tag in u.inboundTags[..j] then {u.email} else {})
    {
      var tag := u.inboundTags[j];
      r := r[tag := At(r, tag) + {u.email}];
      assert u.inboundTags[..j + 1] == u.inboundTags[..j] + [tag];
    }
    assert u.inboundTags[..|u.inboundTags|] == u.inboundTags;
  }

  ghost predicate MapsNew(m: map<string, map<string, User>>, users: seq<User>) {
    && (forall tag :: UsersAt(m, tag).Keys == Members(users, tag))
    && (forall tag, email :: email in UsersAt(m, tag) ==>
          UsersAt(m, tag)[email].email == email && IsLast(users, tag, UsersAt(m, tag)[email]))
  }

  method MapNew(users: seq<User>) returns (m: map<string, map<string, User>>)
    ensures MapsNew(m, users)
  {
    m := map[];
    for i := 0 to |users|
      invariant MapsNew(m, users[..i])
    {
      ghost var before := m;
      m := MarkNew(m, users[i]);
      MarkedIsLast(before, m, users, i);
    }
    assert users[..|users|] == users;
  }

  function Marked(m: map<string, User>, u: User, tag: string, tags: seq<string>): map<string, User> {
    if tag in tags then m[u.email := u] else m
  }

  method MarkNew(m: map<string, map<string, User>>, u: User) returns (r: map<string, map<string, User>>)
    ensures forall tag :: UsersAt(r, tag) == Marked(UsersAt(m, tag), u, tag, u.inboundTags)
  {
    r := m;
    for j := 0 to |u.inboundTags|
      invariant forall tag :: UsersAt(r, tag) == Marked(UsersAt(m, tag), u, tag, u.inboundTags[..j])
    {
      var tag := u.inboundTags[j];
      r := r[tag := UsersAt(r, tag)[u.email := u]];
      assert u.inboundTags[..j + 1] == u.inboundTags[..j] + [tag];
    }
    assert u.inboundTags[..|u.inboundTags|] == u.inboundTags;
  }

  lemma LastStays(users: seq<User>, i: nat, tag: string, u: User)
    requires i < |users| && IsLast(users[..i], tag, u)
    requires !(users[i].email == u.email && tag in users[i].inboundTags)
    ensures IsLast(users[..i + 1], tag, u)
  {
    var k :| 0 <= k < i && users[..i][k] == u && tag in u.inboundTags
      && forall j :: k < j < i ==> !(users[..i][j].email == u.email && tag in users[..i][j].inboundTags);
    var longer := users[..i + 1];
    assert longer[k] == u;
    forall j | k < j < |longer| ensures !(longer[j].email == u.email && tag in longer[j].inboundTags) {
      if j < i { assert longer[j] == users[..i][j]; }
    }
  }

  lemma MarkedIsLast(m: map<string, map<string, User>>, r: map<string, map<string, User>>, users: seq<User>, i: nat)
    requires i < |users| && MapsNew(m, users[..i])
    requires forall tag :: UsersAt(r, tag) == Marked(UsersAt(m, tag), users[i], tag, users[i].inboundTags)
    ensures MapsNew(r, users[..i + 1])
  {
    forall tag ensures UsersAt(r, tag).Keys == Members(users[..i + 1], tag) { }
    forall tag, email | email in UsersAt(r, tag)
      ensures UsersAt(r, tag)[email].email == email && IsLast(users[..i + 1], tag, UsersAt(r, tag)[email])
    {
      if tag in users[i].inboundTags && email == users[i].email {
      } else {
        assert email in UsersAt(m, tag);
        LastStays(users, i, tag, UsersAt(m, tag)[email]);
      }
    }
  }

  // ---------- All inbounds ----------

  /** What hot sync makes of one inbound's emails; `kept` and `missed` name the failed calls. */
  ghost function Synced(emails: set<string>, was: set<string>, now: set<string>, kept: set<string>, missed: set<string>): set<string> {
    (emails - (was - now - kept)) + (now - was - missed)
  }

  ghost predicate DueBetween(oldUsers: seq<User>, newUsers: seq<User>, op: Rpc) {
    match op
    case RemoveUser(tag, email) => email in Members(oldUsers, tag) - Members(newUsers, tag)
    case AddUser(tag, u) => u.email in Members(newUsers, tag) - Members(oldUsers, tag) && IsLast(newUsers, tag, u)
  }

  ghost predicate SyncedSoFar(before: map<string, set<string>>, after: map<string, set<string>>,
                              oldUsers: seq<User>, newUsers: seq<User>, rest: set<string>,
                              kept: map<string, set<string>>, missed: map<string, set<string>>)
  {
    && after.Keys == before.Keys
    && forall t :: t in after ==>
         after[t] == if t in rest then before[t]
                     else Synced(before[t], Members(oldUsers, t), Members(newUsers, t), At(kept, t), At(missed, t))
  }

  /** One step of the walk over all tags, in terms of the two lists. */
  method SyncListed(core: Core, tag: string, ghost oldUsers: seq<User>, ghost newUsers: seq<User>,
                    oldMap: map<string, set<string>>, newMap: map<string, map<string, User>>)
    returns (kept: set<string>, missed: set<string>, ghost ops: seq<Rpc>)
    requires At(oldMap, tag) == Members(oldUsers, tag) && MapsNew(newMap, newUsers)
    modifies core`inbounds, core`calls
    ensures core.calls == old(core.calls) + ops && OncePerUser(ops)
    ensures forall op :: op in ops <==> op.tag == tag && DueBetween(oldUsers, newUsers, op)
    ensures core.inbounds.Keys == old(core.inbounds).Keys
    ensures forall t :: t in core.inbounds ==>
              core.inbounds[t] == if t != tag then old(core.inbounds)[t]
                else Synced(old(core.inbounds)[t], Members(oldUsers, t), Members(newUsers, t), kept, missed)
  {
    kept, missed, ops := SyncTag(core, tag, At(oldMap, tag), UsersAt(newMap, tag));
    forall op ensures op in ops <==> op.tag == tag && DueBetween(oldUsers, newUsers, op) { }
  }

  lemma SyncedOneMore(before: map<string, set<string>>, mid: map<string, set<string>>, after: map<string, set<string>>,
                      oldUsers: seq<User>, newUsers: seq<User>, rest: set<string>, tag: string,
                      kept: map<string, set<string>>, missed: map<string, set<string>>, k: set<string>, m: set<string>)
    requires SyncedSoFar(before, mid, oldUsers, newUsers, rest, kept, missed) && tag in rest
    requires after.Keys == mid.Keys
    requires forall t :: t in after ==>
               after[t] == if t != tag then mid[t] else Synced(mid[t], Members(oldUsers, t), Members(newUsers, t), k, m)
    ensures SyncedSoFar(before, after, oldUsers, newUsers, rest - {tag}, kept[tag := k], missed[tag := m])
  {
  }

  /** Whatever order the tags and emails come in: every (tag, email) on which the lists differ
      gets exactly one call, no other gets any, and each inbound ends as Synced says. */
  method HotSyncUsers(core: Core, oldUsers: seq<User>, newUsers: seq<User>)
    returns (kept: map<string, set<string>>, missed: map<string, set<string>>, ghost ops: seq<Rpc>)
    modifies core`inbounds, core`calls
    ensures core.calls == old(core.calls) + ops && OncePerUser(ops)
    ensures forall op :: op in ops <==> DueBetween(oldUsers, newUsers, op)
    ensures SyncedSoFar(old(core.inbounds), core.inbounds, oldUsers, newUsers, {}, kept, missed)
  {
    var oldMap := MapOld(oldUsers);
    var newMap := MapNew(newUsers);
    var rest := oldMap.Keys + newMap.Keys;
    kept, missed, ops := map[], map[], [];
    forall t | t !in rest ensures Members(oldUsers, t) == {} && Members(newUsers, t) == {} {
      assert At(oldMap, t) == Members(oldUsers, t);
      assert UsersAt(newMap, t).Keys == Members(newUsers, t);
    }
    while rest != {}
      invariant core.calls == old(core.calls) + ops && OncePerUser(ops)
      invariant forall op :: op in ops <==> op.tag !in rest && DueBetween(oldUsers, newUsers, op)
      invariant SyncedSoFar(old(core.inbounds), core.inbounds, oldUsers, newUsers, rest, kept, missed)
      decreases rest
    {
      var tag :| tag in rest;
      ghost var mid := core.inbounds;
      var k, m;
      ghost var due;
      k, m, due := SyncListed(core, tag, oldUsers, newUsers, oldMap, newMap);
      SyncedOneMore(old(core.inbounds), mid, core.inbounds, oldUsers, newUsers, rest, tag, kept, missed, k, m);
      ops := ops + due;
      kept, missed := kept[tag := k], missed[tag := m];
      rest := rest - {tag};
    }
  }

  /** An http inbound keeps serving the accounts of its own settings; a hot sync agrees with that only
      if none of the users gone and all of the users new are among them. */
  predicate SyncAgrees(inbound: Inbound, oldUsers: seq<User>, newUsers: seq<User>) {
    var was, now := Members(oldUsers, inbound.tag), Members(newUsers, inbound.tag);
    var own := Names(ListOf(inbound.settings.accounts), "user");
    inbound.protocol != "http" || ((was - now) * own == {} && now - was <= own)
  }

  /** Hot sync is a fast form of rebuilding: from an inbound built for the old list, with every
      call succeeding, it reaches what rebuilding for the new list would serve, exactly when the
      inbound is not an http one or the difference of the lists says nothing new to it. */
  lemma HotSyncRefinesRebuildIff(inbound: Inbound, oldUsers: seq<User>, newUsers: seq<User>)
    ensures Synced(Served(Built(inbound, oldUsers)), Members(oldUsers, inbound.tag), Members(newUsers, inbound.tag), {}, {})
            == Served(Built(inbound, newUsers))
       <==> SyncAgrees(inbound, oldUsers, newUsers)
  {
    BuiltServesListed(inbound, oldUsers);
    BuiltServesListed(inbound, newUsers);
  }

  // ---------- Rate limits ----------

  datatype RateLimit = RateLimit(email: string, up: int, down: int)

  /** The limit of every email; the last entry of an email wins. */
  function LimitsOf(list: seq<RateLimit>): map<string, Limit> {
    if list == [] then map[]
    else
      var rl := list[|list| - 1];
      LimitsOf(list[..|list| - 1])[rl.email := (rl.up, rl.down)]
  }

  /** The entry that counts for its email: no later entry of the list has the same one. */
  predicate Counts(list: seq<RateLimit>, i: int) {
    0 <= i < |list| && forall j :: i < j < |list| ==> list[j].email != list[i].email
  }

  predicate Gives(m: map<string, Limit>, rl: RateLimit) {
    rl.email in m && m[rl.email].0 == rl.up && m[rl.email].1 == rl.down
  }

  predicate Mentions(list: seq<RateLimit>, email: string) {
    exists i :: 0 <= i < |list| && list[i].email == email
  }

  lemma CountsBefore(list: seq<RateLimit>, i: int)
    requires list != [] && Counts(list, i) && i < |list| - 1
    ensures Counts(list[..|list| - 1], i) && list[i].email != list[|list| - 1].email
  {
    var before := list[..|list| - 1];
    forall j | i < j < |before| ensures before[j].email != before[i].email { assert list[j].email != list[i].email; }
  }

  lemma MentionsSplit(list: seq<RateLimit>, email: string)
    requires list != []
    ensures Mentions(list, email) <==> Mentions(list[..|list| - 1], email) || list[|list| - 1].email == email
  {
    if Mentions(list[..|list| - 1], email) {
      var i :| 0 <= i < |list| - 1 && list[..|list| - 1][i].email == email;
      assert list[i].email == email;
    }
  }

  /** The limits of a list are those of the entries that count, upload first, and no others. */
  lemma {:induction false} LimitsOfMeaning(list: seq<RateLimit>)
    ensures forall i :: Counts(list, i) ==> Gives(LimitsOf(list), list[i])
    ensures forall email :: email in LimitsOf(list) <==> Mentions(list, email)
    decreases |list|
  {
    if list != [] {
      var n := |list| - 1;
      LimitsOfMeaning(list[..n]);
      forall i | Counts(list, i) ensures Gives(LimitsOf(list), list[i]) {
        if i < n {
          CountsBefore(list, i);
          assert Gives(LimitsOf(list[..n]), list[..n][i]);
        }
      }
      forall email ensures email in LimitsOf(list) <==> Mentions(list, email) { MentionsSplit(list, email); }
    }
  }

  function LimitAt(m: map<string, Limit>, email: string): Option<Limit> {
    if email in m then Some(m[email]) else None
  }

  method MapLimits(list: seq<RateLimit>) returns (m: map<string, Limit>)
    ensures m == LimitsOf(list)
  {
    m := map[];
    for i := 0 to |list|
      invariant m == LimitsOf(list[..i])
    {
      assert list[..i + 1][..i] == list[..i];
      m := m[list[i].email := (list[i].up, list[i].down)];
    }
    assert list[..|list|] == list;
  }

  /** The change a limit goes through, from what the core holds now. */
  ghost function Adjusted(held: Option<Limit>, was: Option<Limit>, now: Option<Limit>): Option<Limit> {
    if was == now then held else now
  }

  ghost predicate AdjustedTo(before: map<string, Limit>, after: map<string, Limit>, was: map<string, Limit>, now: map<string, Limit>, failed: set<string>) {
    forall email :: LimitAt(after, email) ==
      if email in failed then LimitAt(before, email)
      else Adjusted(LimitAt(before, email), LimitAt(was, email), LimitAt(now, email))
  }

  ghost function AdjustedLimit(held: map<string, Limit>, was: map<string, Limit>, now: map<string, Limit>, failed: set<string>, email: string): Option<Limit> {
    if email in failed then LimitAt(held, email) else Adjusted(LimitAt(held, email), LimitAt(was, email), LimitAt(now, email))
  }

  /** All limits after a sync. */
  ghost function AdjustedLimits(held: map<string, Limit>, was: map<string, Limit>, now: map<string, Limit>, failed: set<string>): (m: map<string, Limit>)
    ensures forall email :: LimitAt(m, email) == AdjustedLimit(held, was, now, failed, email)
  {
    map email | email in held.Keys + now.Keys && AdjustedLimit(held, was, now, failed, email).Some? ::
      AdjustedLimit(held, was, now, failed, email).value
  }

  lemma SameLimits(a: map<string, Limit>, b: map<string, Limit>)
    requires forall email :: LimitAt(a, email) == LimitAt(b, email)
    ensures a == b
  {
    assert forall email :: email in a <==> LimitAt(a, email).Some?;
    assert forall email :: email in b <==> LimitAt(b, email).Some?;
    forall email | email in a ensures a[email] == b[email] { assert LimitAt(a, email) == LimitAt(b, email); }
  }

  lemma AdjustedIs(before: map<string, Limit>, after: map<string, Limit>, was: map<string, Limit>, now: map<string, Limit>, failed: set<string>)
    requires AdjustedTo(before, after, was, now, failed)
    ensures after == AdjustedLimits(before, was, now, failed)
  {
    SameLimits(after, AdjustedLimits(before, was, now, failed));
  }

  method RemoveLimit(core: Core, email: string) returns (ok: bool)
    modifies core`limits, core`limitCalls
    ensures core.limitCalls == old(core.limitCalls) + [LimitCall(email, None)]
    ensures core.limits == if ok then old(core.limits) - {email} else old(core.limits)
  {
    core.limitCalls := core.limitCalls + [LimitCall(email, None)];
    ok := *;
    if ok { core.limits := core.limits - {email}; }
  }

  method SetLimit(core: Core, email: string, limit: Limit) returns (ok: bool)
    modifies core`limits, core`limitCalls
    ensures core.limitCalls == old(core.limitCalls) + [LimitCall(email, Some(limit))]
    ensures core.limits == if ok then old(core.limits)[email := limit] else old(core.limits)
  {
    core.limitCalls := core.limitCalls + [LimitCall(email, Some(limit))];
    ok := *;
    if ok { core.limits := core.limits[email := limit]; }
  }

  /** Every email on which the limits differ, with its new limit or none. */
  ghost predicate LimitDue(was: map<string, Limit>, now: map<string, Limit>, c: LimitCall) {
    LimitAt(was, c.email) != LimitAt(now, c.email) && c.limit == LimitAt(now, c.email)
  }

  ghost predicate OncePerEmail(ops: seq<LimitCall>) {
    forall i, j :: 0 <= i < j < |ops| ==> ops[i].email != ops[j].email
  }

  method RemoveGoneLimits(core: Core, was: map<string, Limit>, now: map<string, Limit>)
    returns (failed: set<string>, ghost ops: seq<LimitCall>)
    modifies core`limits, core`limitCalls
    ensures core.limitCalls == old(core.limitCalls) + ops && OncePerEmail(ops)
    ensures forall c :: c in ops <==> c.limit == None && LimitDue(was, now, c)
    ensures failed <= was.Keys - now.Keys
    ensures forall email :: LimitAt(core.limits, email) ==
              if email in was && email !in now && email !in failed then None else LimitAt(old(core.limits), email)
  {
    failed, ops := {}, [];
    var rest := was.Keys;
    while rest != {}
      invariant rest <= was.Keys && failed <= was.Keys - now.Keys - rest
      invariant core.limitCalls == old(core.limitCalls) + ops && OncePerEmail(ops)
      invariant forall c :: c in ops <==> c.limit == None && c.email !in rest && LimitDue(was, now, c)
      invariant forall email :: LimitAt(core.limits, email) ==
                  if email in was && email !in now && email !in rest && email !in failed then None
                  else LimitAt(old(core.limits), email)
      decreases rest
    {
      var email :| email in rest;
      if email !in now {
        var ok := RemoveLimit(core, email);
        ops := ops + [LimitCall(email, None)];
        if !ok { failed := failed + {email}; }
      }
      rest := rest - {email};
    }
  }

  method SetChangedLimits(core: Core, was: map<string, Limit>, now: map<string, Limit>)
    returns (failed: set<string>, ghost ops: seq<LimitCall>)
    modifies core`limits, core`limitCalls
    ensures core.limitCalls == old(core.limitCalls) + ops && OncePerEmail(ops)
    ensures forall c :: c in ops <==> c.limit.Some? && LimitDue(was, now, c)
    ensures failed <= now.Keys
    ensures forall email :: LimitAt(core.limits, email) ==
              if email in now && email !in failed && LimitAt(was, email) != LimitAt(now, email) then LimitAt(now, email)
              else LimitAt(old(core.limits), email)
  {
    failed, ops := {}, [];
    var rest := now.Keys;
    while rest != {}
      invariant rest <= now.Keys && failed <= now.Keys - rest
      invariant core.limitCalls == old(core.limitCalls) + ops && OncePerEmail(ops)
      invariant forall c :: c in ops <==> c.limit.Some? && c.email !in rest && LimitDue(was, now, c)
      invariant forall email :: LimitAt(core.limits, email) ==
                  if email in now && email !in rest && email !in failed && LimitAt(was, email) != LimitAt(now, email) then LimitAt(now, email)
                  else LimitAt(old(core.limits), email)
      decreases rest
    {
      var email :| email in rest;
      if email !in was || was[email] != now[email] {
        var ok := SetLimit(core, email, now[email]);
        ops := ops + [LimitCall(email, Some(now[email]))];
        if !ok { failed := failed + {email}; }
      }
      rest := rest - {email};
    }
  }

  /** Whatever order the emails come in: every email on which the lists differ gets exactly one call,
      with its new limit, and no other gets any. */
  method HotSyncRateLimits(core: Core, oldList: seq<RateLimit>, newList: seq<RateLimit>)
    returns (failed: set<string>, ghost ops: seq<LimitCall>)
    modifies core`limits, core`limitCalls
    ensures core.limitCalls == old(core.limitCalls) + ops && OncePerEmail(ops)
    ensures forall c :: c in ops <==> LimitDue(LimitsOf(oldList), LimitsOf(newList), c)
    ensures AdjustedTo(old(core.limits), core.limits, LimitsOf(oldList), LimitsOf(newList), failed)
  {
    var was := MapLimits(oldList);
    var now := MapLimits(newList);
    var kept, unset;
    ghost var removals, settings;
    kept, removals := RemoveGoneLimits(core, was, now);
    unset, settings := SetChangedLimits(core, was, now);
    failed := kept + unset;
    ops := removals + settings;
  }

  /** With every call succeeding, the core ends with exactly the new limits if and only if it already held
      the right limit of every email on which the two lists agree. */
  lemma LimitsArriveIff(before: map<string, Limit>, after: map<string, Limit>, oldList: seq<RateLimit>, newList: seq<RateLimit>)
    requires AdjustedTo(before, after, LimitsOf(oldList), LimitsOf(newList), {})
    ensures after == LimitsOf(newList) <==>
            forall email :: LimitAt(LimitsOf(oldList), email) == LimitAt(LimitsOf(newList), email) ==>
                              LimitAt(before, email) == LimitAt(LimitsOf(newList), email)
  {
    if forall email :: LimitAt(LimitsOf(oldList), email) == LimitAt(LimitsOf(newList), email) ==>
                         LimitAt(before, email) == LimitAt(LimitsOf(newList), email) {
      forall email ensures LimitAt(after, email) == LimitAt(LimitsOf(newList), email) { }
      SameLimits(after, LimitsOf(newList));
    } else {
      var email :| LimitAt(LimitsOf(oldList), email) == LimitAt(LimitsOf(newList), email) && LimitAt(before, email) != LimitAt(LimitsOf(newList), email);
      assert LimitAt(after, email) == LimitAt(before, email);
    }
  }
}
