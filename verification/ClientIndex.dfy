/** Client rows and the copies of them kept inside inbound settings. */
module ClientIndex {
  import opened Sums

  /** An empty string stands for an absent field. */
  datatype Client = Client(
    tenant: string,
    email: string,
    uuid: string,
    password: string,
    flow: string,
    cipher: string,
    level: int,
    inboundTags: seq<string>)

  /** What the config builder makes of a client: a password only for clients without a uuid. */
  datatype XrayClient = XrayClient(email: string, level: int, id: string, flow: string, password: string, cipher: string)

  function BuildClient(c: Client): XrayClient {
    if c.uuid != "" then XrayClient(c.email, c.level, c.uuid, c.flow, "", "")
    else if c.password != "" then XrayClient(c.email, c.level, "", "", c.password, c.cipher)
    else XrayClient(c.email, c.level, "", "", "", "")
  }

  /** An element of a settings list, with the two fields it can be recognised by. */
  datatype Entry = Entry(email: Option<string>, user: Option<string>, pass: string, client: Option<XrayClient>)

  /** `list` is the accounts list for socks and http, the clients list for other protocols;
      a missing list is an empty one. */
  datatype Inbound = Inbound(tenant: string, nodeId: string, tag: string, protocol: string, list: seq<Entry>)

  predicate UsesAccounts(protocol: string) {
    protocol == "socks" || protocol == "http"
  }

  function EntryFor(x: XrayClient, protocol: string): Entry {
    if UsesAccounts(protocol) then Entry(None, Some(x.email), x.password, None) else Entry(Some(x.email), None, "", Some(x))
  }

  predicate Matches(e: Entry, email: string) {
    e.email == Some(email) || e.user == Some(email)
  }

  /** The first matching position, or the length of the list. */
  function FindIndex(list: seq<Entry>, email: string): (i: nat)
    ensures i <= |list|
    ensures i < |list| ==> Matches(list[i], email)
    ensures forall j :: 0 <= j < i ==> !Matches(list[j], email)
  {
    if list == [] then 0 else if Matches(list[0], email) then 0 else 1 + FindIndex(list[1..], email)
  }

  function Upsert(list: seq<Entry>, x: XrayClient, protocol: string): seq<Entry> {
    var i := FindIndex(list, x.email);
    if i < |list| then list[i := EntryFor(x, protocol)] else list + [EntryFor(x, protocol)]
  }

  function Without(list: seq<Entry>, email: string): seq<Entry> {
    if list == [] then []
    else if Matches(list[|list| - 1], email) then Without(list[..|list| - 1], email)
    else Without(list[..|list| - 1], email) + [list[|list| - 1]]
  }

  // ---------- One client, or many at once ----------

  function SyncInto(inbound: Inbound, tenant: string, c: Client): Inbound {
    if inbound.tenant == tenant && inbound.tag in c.inboundTags
    then inbound.(list := Upsert(inbound.list, BuildClient(c), inbound.protocol)) else inbound
  }

  function SyncOne(inbounds: seq<Inbound>, tenant: string, c: Client): (r: seq<Inbound>)
    ensures |r| == |inbounds| && forall k :: 0 <= k < |r| ==> r[k] == SyncInto(inbounds[k], tenant, c)
  {
    seq(|inbounds|, k requires 0 <= k < |inbounds| => SyncInto(inbounds[k], tenant, c))
  }

  /** Client after client, each over all inbounds. */
  function SyncEach(inbounds: seq<Inbound>, tenant: string, cs: seq<Client>): (r: seq<Inbound>)
    ensures |r| == |inbounds|
  {
    if cs == [] then inbounds else SyncOne(SyncEach(inbounds, tenant, cs[..|cs| - 1]), tenant, cs[|cs| - 1])
  }

  function Times(tags: seq<string>, tag: string): nat {
    if tags == [] then 0 else Times(tags[..|tags| - 1], tag) + (if tags[|tags| - 1] == tag then 1 else 0)
  }

  function Copies(c: Client, n: nat): (s: seq<Client>)
    ensures |s| == n
  {
    if n == 0 then [] else Copies(c, n - 1) + [c]
  }

  /** The clients of a tag in order, each as often as it names the tag. */
  function OfTag(cs: seq<Client>, tag: string): seq<Client> {
    if cs == [] then []
    else OfTag(cs[..|cs| - 1], tag) + Copies(cs[|cs| - 1], Times(cs[|cs| - 1].inboundTags, tag))
  }

  function UpsertAll(list: seq<Entry>, cs: seq<Client>, protocol: string): seq<Entry> {
    if cs == [] then list
    else Upsert(UpsertAll(list, cs[..|cs| - 1], protocol), BuildClient(cs[|cs| - 1]), protocol)
  }

  function BatchInto(inbound: Inbound, tenant: string, cs: seq<Client>): Inbound {
    if inbound.tenant == tenant then inbound.(list := UpsertAll(inbound.list, OfTag(cs, inbound.tag), inbound.protocol)) else inbound
  }

  /** Inbound after inbound, each over the clients of its tag. */
  function BatchSync(inbounds: seq<Inbound>, tenant: string, cs: seq<Client>): (r: seq<Inbound>)
    ensures |r| == |inbounds| && forall k :: 0 <= k < |r| ==> r[k] == BatchInto(inbounds[k], tenant, cs)
  {
    seq(|inbounds|, k requires 0 <= k < |inbounds| => BatchInto(inbounds[k], tenant, cs))
  }

  // ---------- Batched sync equals sequential sync ----------

  lemma FirstIsFound(list: seq<Entry>, email: string, i: nat)
    requires i <= |list| && (i < |list| ==> Matches(list[i], email))
    requires forall j :: 0 <= j < i ==> !Matches(list[j], email)
    ensures FindIndex(list, email) == i
  {
    var k := FindIndex(list, email);
    assert !(k < i) && !(i < k);
  }

  /** Upserting the same client again changes nothing. */
  lemma UpsertTwice(list: seq<Entry>, x: XrayClient, protocol: string)
    ensures Upsert(Upsert(list, x, protocol), x, protocol) == Upsert(list, x, protocol)
  {
    var once := Upsert(list, x, protocol);
    var i := FindIndex(list, x.email);
    FirstIsFound(once, x.email, i);
  }

  lemma {:induction false} UpsertCopies(list: seq<Entry>, cs: seq<Client>, c: Client, n: nat, protocol: string)
    ensures UpsertAll(list, cs + Copies(c, n), protocol)
         == if n == 0 then UpsertAll(list, cs, protocol) else Upsert(UpsertAll(list, cs, protocol), BuildClient(c), protocol)
    decreases n
  {
    if n == 0 {
      assert cs + Copies(c, 0) == cs;
    } else {
      var before := cs + Copies(c, n - 1);
      assert cs + Copies(c, n) == before + [c];
      UpsertCopies(list, cs, c, n - 1, protocol);
      if n > 1 { UpsertTwice(UpsertAll(list, cs, protocol), BuildClient(c), protocol); }
    }
  }

  lemma {:induction false} TimesPositive(tags: seq<string>, tag: string)
    ensures 0 < Times(tags, tag) <==> tag in tags
    decreases |tags|
  {
    if tags != [] {
      assert tags == tags[..|tags| - 1] + [tags[|tags| - 1]];
      TimesPositive(tags[..|tags| - 1], tag);
    }
  }

  lemma BatchExtends(inbound: Inbound, tenant: string, cs: seq<Client>)
    requires cs != []
    ensures BatchInto(inbound, tenant, cs) == SyncInto(BatchInto(inbound, tenant, cs[..|cs| - 1]), tenant, cs[|cs| - 1])
  {
    var c, before := cs[|cs| - 1], cs[..|cs| - 1];
    UpsertCopies(inbound.list, OfTag(before, inbound.tag), c, Times(c.inboundTags, inbound.tag), inbound.protocol);
    TimesPositive(c.inboundTags, inbound.tag);
  }

  /** The loop interchange is harmless: grouping by inbound leaves exactly the ordered lists that
      syncing client after client leaves, for every client list and every set of inbounds. */
  lemma {:induction false} BatchEqualsSequential(inbounds: seq<Inbound>, tenant: string, cs: seq<Client>)
    ensures BatchSync(inbounds, tenant, cs) == SyncEach(inbounds, tenant, cs)
    decreases |cs|
  {
    var batch, each := BatchSync(inbounds, tenant, cs), SyncEach(inbounds, tenant, cs);
    if cs == [] {
      forall k | 0 <= k < |inbounds| ensures batch[k] == each[k] { }
    } else {
      var n := |cs| - 1;
      BatchEqualsSequential(inbounds, tenant, cs[..n]);
      forall k | 0 <= k < |inbounds| ensures batch[k] == each[k] {
        BatchExtends(inbounds[k], tenant, cs);
      }
    }
  }

  // ---------- Keys of a list ----------

  predicate OneKey(e: Entry) {
    e.email.Some? != e.user.Some?
  }

  function KeyOf(e: Entry): string {
    if e.email.Some? then e.email.value else if e.user.Some? then e.user.value else ""
  }

  /** Every entry has one key and no key occurs twice. */
  predicate WellKeyed(list: seq<Entry>) {
    && (forall i :: 0 <= i < |list| ==> OneKey(list[i]))
    && (forall i, j :: 0 <= i < j < |list| ==> KeyOf(list[i]) != KeyOf(list[j]))
  }

  predicate Lists(list: seq<Entry>, email: string) {
    exists i :: 0 <= i < |list| && KeyOf(list[i]) == email
  }

  lemma UpsertKeys(list: seq<Entry>, x: XrayClient, protocol: string, email: string)
    requires WellKeyed(list)
    ensures WellKeyed(Upsert(list, x, protocol))
    ensures Lists(Upsert(list, x, protocol), email) <==> Lists(list, email) || email == x.email
  {
    var after, i := Upsert(list, x, protocol), FindIndex(list, x.email);
    assert KeyOf(after[i]) == x.email && OneKey(after[i]);
    forall j | 0 <= j < |list| && j != i ensures after[j] == list[j] && KeyOf(list[j]) != x.email {
      assert OneKey(list[j]);
      if i < |list| { assert KeyOf(list[i]) == x.email; } else { assert !Matches(list[j], x.email); }
    }
    if Lists(list, email) {
      var j :| 0 <= j < |list| && KeyOf(list[j]) == email;
      assert KeyOf(after[j]) == email;
    }
  }

  lemma {:induction false} WithoutFrom(list: seq<Entry>, email: string, i: nat)
    requires i < |Without(list, email)|
    ensures Without(list, email)[i] in list && !Matches(Without(list, email)[i], email)
    decreases |list|
  {
    var n := |list| - 1;
    assert list == list[..n] + [list[n]];
    if i < |Without(list[..n], email)| { WithoutFrom(list[..n], email, i); }
  }

  lemma {:induction false} WithoutWellKeyed(list: seq<Entry>, email: string)
    requires WellKeyed(list)
    ensures WellKeyed(Without(list, email))
    decreases |list|
  {
    if list != [] {
      var n := |list| - 1;
      var before := Without(list[..n], email);
      WithoutWellKeyed(list[..n], email);
      forall i | 0 <= i < |before| ensures KeyOf(before[i]) != KeyOf(list[n]) {
        WithoutFrom(list[..n], email, i);
      }
    }
  }

  lemma {:induction false} WithoutLists(list: seq<Entry>, email: string, other: string)
    requires WellKeyed(list)
    ensures Lists(Without(list, email), other) <==> Lists(list, other) && other != email
    decreases |list|
  {
    if list != [] {
      var n := |list| - 1;
      var before := Without(list[..n], email);
      WithoutLists(list[..n], email, other);
      ListsSplit(list, n, other);
      assert OneKey(list[n]);
      if !Matches(list[n], email) { ListsSplit(before + [list[n]], |before|, other); }
    }
  }

  lemma WithoutKeys(list: seq<Entry>, email: string, other: string)
    requires WellKeyed(list)
    ensures WellKeyed(Without(list, email))
    ensures Lists(Without(list, email), other) <==> Lists(list, other) && other != email
  {
    WithoutWellKeyed(list, email);
    WithoutLists(list, email, other);
  }

  lemma ListsSplit(list: seq<Entry>, n: nat, key: string)
    requires |list| == n + 1
    ensures Lists(list, key) <==> Lists(list[..n], key) || KeyOf(list[n]) == key
  {
    if Lists(list[..n], key) {
      var i :| 0 <= i < n && KeyOf(list[..n][i]) == key;
      assert KeyOf(list[i]) == key;
    }
    if Lists(list, key) {
      var i :| 0 <= i < |list| && KeyOf(list[i]) == key;
      if i < n { assert KeyOf(list[..n][i]) == key; }
    }
  }

  // ---------- Rows and copies ----------

  datatype Db = Db(clients: map<nat, Client>, inbounds: seq<Inbound>, nextClient: nat)

  predicate HasRow(clients: map<nat, Client>, tenant: string, email: string, tag: string) {
    exists id :: id in clients && clients[id].tenant == tenant && clients[id].email == email && tag in clients[id].inboundTags
  }

  /** An email is in an inbound's list exactly when a row of the tenant gives it the tag. */
  ghost predicate InboundInStep(clients: map<nat, Client>, inbound: Inbound) {
    && WellKeyed(inbound.list)
    && forall email :: Lists(inbound.list, email) <==> HasRow(clients, inbound.tenant, email, inbound.tag)
  }

  predicate EmailsUnique(clients: map<nat, Client>) {
    forall a, b :: a in clients && b in clients && clients[a].tenant == clients[b].tenant && clients[a].email == clients[b].email ==> a == b
  }

  ghost predicate InStep(db: Db) {
    && EmailsUnique(db.clients)
    && (forall id :: id in db.clients ==> id < db.nextClient)
    && (forall k :: 0 <= k < |db.inbounds| ==> InboundInStep(db.clients, db.inbounds[k]))
  }

  predicate Taken(clients: map<nat, Client>, tenant: string, email: string) {
    exists id :: id in clients && clients[id].tenant == tenant && clients[id].email == email
  }

  function RemoveFrom(inbound: Inbound, tenant: string, email: string, tags: seq<string>): Inbound {
    if inbound.tenant == tenant && inbound.tag in tags then inbound.(list := Without(inbound.list, email)) else inbound
  }

  function RemoveAll(inbounds: seq<Inbound>, tenant: string, email: string, tags: seq<string>): (r: seq<Inbound>)
    ensures |r| == |inbounds| && forall k :: 0 <= k < |r| ==> r[k] == RemoveFrom(inbounds[k], tenant, email, tags)
  {
    seq(|inbounds|, k requires 0 <= k < |inbounds| => RemoveFrom(inbounds[k], tenant, email, tags))
  }

  // ---------- Create ----------

  /** A client without a uuid gets a fresh one. */
  function WithUuid(c: Client, freshUuid: string): Client {
    if c.uuid != "" then c else c.(uuid := freshUuid)
  }

  function Create(db: Db, c: Client, freshUuid: string): Db {
    var row := WithUuid(c, freshUuid);
    if Taken(db.clients, c.tenant, c.email) then db
    else Db(db.clients[db.nextClient := row], SyncOne(db.inbounds, c.tenant, row), db.nextClient + 1)
  }

  lemma RowAdded(clients: map<nat, Client>, id: nat, c: Client, tenant: string, email: string, tag: string)
    requires id !in clients
    ensures HasRow(clients[id := c], tenant, email, tag)
       <==> HasRow(clients, tenant, email, tag) || (c.tenant == tenant && c.email == email && tag in c.inboundTags)
  {
    var after := clients[id := c];
    if HasRow(clients, tenant, email, tag) {
      var j :| j in clients && clients[j].tenant == tenant && clients[j].email == email && tag in clients[j].inboundTags;
      assert j in after && after[j] == clients[j];
    }
    assert after[id] == c;
  }

  lemma SyncedInStep(clients: map<nat, Client>, id: nat, c: Client, inbound: Inbound)
    requires InboundInStep(clients, inbound) && id !in clients
    ensures InboundInStep(clients[id := c], SyncInto(inbound, c.tenant, c))
  {
    var after := SyncInto(inbound, c.tenant, c);
    UpsertKeys(inbound.list, BuildClient(c), inbound.protocol, "");
    forall email ensures Lists(after.list, email) <==> HasRow(clients[id := c], inbound.tenant, email, inbound.tag) {
      UpsertKeys(inbound.list, BuildClient(c), inbound.protocol, email);
      RowAdded(clients, id, c, inbound.tenant, email, inbound.tag);
    }
  }

  lemma CreateInStep(db: Db, c: Client, freshUuid: string)
    requires InStep(db)
    ensures InStep(Create(db, c, freshUuid))
  {
    if !Taken(db.clients, c.tenant, c.email) {
      var after := Create(db, c, freshUuid);
      forall k | 0 <= k < |db.inbounds| ensures InboundInStep(after.clients, after.inbounds[k]) {
        SyncedInStep(db.clients, db.nextClient, WithUuid(c, freshUuid), db.inbounds[k]);
      }
    }
  }

  /** Because every created client has a uuid, the account made for it in a socks or http inbound never
      has the password it was created with. */
  lemma CreatedAccountsHaveNoPassword(db: Db, c: Client, freshUuid: string, k: nat)
    requires freshUuid != "" && !Taken(db.clients, c.tenant, c.email)
    requires k < |db.inbounds| && db.inbounds[k].tenant == c.tenant && db.inbounds[k].tag in c.inboundTags
    requires UsesAccounts(db.inbounds[k].protocol)
    ensures Entry(None, Some(c.email), "", None) in Create(db, c, freshUuid).inbounds[k].list
  {
    var row := WithUuid(c, freshUuid);
    var list := db.inbounds[k].list;
    var i := FindIndex(list, c.email);
    assert Upsert(list, BuildClient(row), db.inbounds[k].protocol)[i] == Entry(None, Some(c.email), "", None);
  }

  // ---------- Delete ----------

  function Delete(db: Db, tenant: string, id: nat): Db {
    if id in db.clients && db.clients[id].tenant == tenant
    then Db(db.clients - {id}, RemoveAll(db.inbounds, tenant, db.clients[id].email, db.clients[id].inboundTags), db.nextClient)
    else db
  }

  lemma RowRemoved(clients: map<nat, Client>, id: nat, tenant: string, email: string, tag: string)
    requires id in clients && EmailsUnique(clients)
    ensures HasRow(clients - {id}, tenant, email, tag)
       <==> HasRow(clients, tenant, email, tag) && !(clients[id].tenant == tenant && clients[id].email == email)
  {
    var after := clients - {id};
    if HasRow(clients, tenant, email, tag) && !(clients[id].tenant == tenant && clients[id].email == email) {
      var j :| j in clients && clients[j].tenant == tenant && clients[j].email == email && tag in clients[j].inboundTags;
      assert j in after;
    }
    if HasRow(after, tenant, email, tag) {
      var j :| j in after && after[j].tenant == tenant && after[j].email == email && tag in after[j].inboundTags;
      assert j in clients;
    }
  }

  /** Without its row the client is in no list, because it was only in lists of its own tags. */
  lemma DeletedInStep(clients: map<nat, Client>, id: nat, inbound: Inbound)
    requires InboundInStep(clients, inbound) && EmailsUnique(clients) && id in clients
    ensures InboundInStep(clients - {id}, RemoveFrom(inbound, clients[id].tenant, clients[id].email, clients[id].inboundTags))
  {
    var c := clients[id];
    var after := RemoveFrom(inbound, c.tenant, c.email, c.inboundTags);
    WithoutKeys(inbound.list, c.email, "");
    forall email ensures Lists(after.list, email) <==> HasRow(clients - {id}, inbound.tenant, email, inbound.tag) {
      WithoutKeys(inbound.list, c.email, email);
      RowRemoved(clients, id, inbound.tenant, email, inbound.tag);
      assert Lists(inbound.list, email) <==> HasRow(clients, inbound.tenant, email, inbound.tag);
    }
  }

  lemma DeleteInStep(db: Db, tenant: string, id: nat)
    requires InStep(db)
    ensures InStep(Delete(db, tenant, id))
  {
    if id in db.clients && db.clients[id].tenant == tenant {
      forall k | 0 <= k < |db.inbounds| ensures InboundInStep(Delete(db, tenant, id).clients, Delete(db, tenant, id).inbounds[k]) {
        DeletedInStep(db.clients, id, db.inbounds[k]);
      }
    }
  }

  // ---------- Update ----------

  /** None stands for a field the request leaves out; `enableGiven` for a given enable flag. */
  datatype Changes = Changes(
    uuid: Option<string>,
    password: Option<string>,
    flow: Option<string>,
    cipher: Option<string>,
    level: Option<int>,
    inboundTags: Option<seq<string>>,
    enableGiven: bool)

  function Or<T>(o: Option<T>, default: T): T {
    if o.Some? then o.value else default
  }

  function Changed(c: Client, ch: Changes): Client {
    Client(c.tenant, c.email, Or(ch.uuid, c.uuid), Or(ch.password, c.password), Or(ch.flow, c.flow),
      Or(ch.cipher, c.cipher), Or(ch.level, c.level), Or(ch.inboundTags, c.inboundTags))
  }

  predicate NeedsSync(c: Client, ch: Changes) {
    || c.inboundTags != Or(ch.inboundTags, c.inboundTags)
    || Or(ch.uuid, "") != "" || Or(ch.password, "") != "" || Or(ch.flow, "") != "" || ch.enableGiven
  }

  /** The tags of the first list that the second lacks, in order. */
  function Dropped(before: seq<string>, after: seq<string>): (r: seq<string>)
    ensures forall t :: t in r <==> t in before && t !in after
  {
    if before == [] then []
    else Dropped(before[..|before| - 1], after) + (if before[|before| - 1] in after then [] else [before[|before| - 1]])
  }

  function Update(db: Db, tenant: string, id: nat, ch: Changes): Db {
    if id in db.clients && db.clients[id].tenant == tenant then
      var before, after := db.clients[id], Changed(db.clients[id], ch);
      var rows := db.clients[id := after];
      if NeedsSync(before, ch)
      then Db(rows, RemoveAll(SyncOne(db.inbounds, tenant, after), tenant, before.email, Dropped(before.inboundTags, after.inboundTags)), db.nextClient)
      else Db(rows, db.inbounds, db.nextClient)
    else db
  }

  lemma RowChanged(clients: map<nat, Client>, id: nat, c: Client, tenant: string, email: string, tag: string)
    requires id in clients && EmailsUnique(clients)
    requires clients[id].tenant == c.tenant && clients[id].email == c.email
    ensures HasRow(clients[id := c], tenant, email, tag)
       <==> if c.tenant == tenant && c.email == email then tag in c.inboundTags else HasRow(clients, tenant, email, tag)
  {
    var after := clients[id := c];
    assert after[id] == c;
    if HasRow(clients, tenant, email, tag) && !(c.tenant == tenant && c.email == email) {
      var j :| j in clients && clients[j].tenant == tenant && clients[j].email == email && tag in clients[j].inboundTags;
      assert j in after && after[j] == clients[j];
    }
  }

  /** An update that leaves the tags alone moves no email. */
  lemma UntouchedInStep(clients: map<nat, Client>, id: nat, c: Client, inbound: Inbound)
    requires InboundInStep(clients, inbound) && EmailsUnique(clients) && id in clients
    requires clients[id].tenant == c.tenant && clients[id].email == c.email && clients[id].inboundTags == c.inboundTags
    ensures InboundInStep(clients[id := c], inbound)
  {
    forall email ensures Lists(inbound.list, email) <==> HasRow(clients[id := c], inbound.tenant, email, inbound.tag) {
      RowChanged(clients, id, c, inbound.tenant, email, inbound.tag);
    }
  }

  /** The list of one inbound after the client was put in and, where its tag was dropped, taken out. */
  lemma MovedKeys(inbound: Inbound, c: Client, tags: seq<string>, email: string)
    requires WellKeyed(inbound.list)
    ensures var after := RemoveFrom(SyncInto(inbound, c.tenant, c), c.tenant, c.email, tags);
            && WellKeyed(after.list)
            && (Lists(after.list, email) <==>
                  if inbound.tenant == c.tenant && email == c.email
                  then inbound.tag !in tags && (inbound.tag in c.inboundTags || Lists(inbound.list, email))
                  else Lists(inbound.list, email))
  {
    var synced := SyncInto(inbound, c.tenant, c);
    UpsertKeys(inbound.list, BuildClient(c), inbound.protocol, email);
    WithoutKeys(synced.list, c.email, email);
  }

  lemma MovedInStep(clients: map<nat, Client>, id: nat, c: Client, inbound: Inbound)
    requires InboundInStep(clients, inbound) && EmailsUnique(clients) && id in clients
    requires clients[id].tenant == c.tenant && clients[id].email == c.email
    ensures InboundInStep(clients[id := c],
      RemoveFrom(SyncInto(inbound, c.tenant, c), c.tenant, c.email, Dropped(clients[id].inboundTags, c.inboundTags)))
  {
    var tags := Dropped(clients[id].inboundTags, c.inboundTags);
    var after := RemoveFrom(SyncInto(inbound, c.tenant, c), c.tenant, c.email, tags);
    MovedKeys(inbound, c, tags, "");
    forall email ensures Lists(after.list, email) <==> HasRow(clients[id := c], after.tenant, email, after.tag) {
      MovedKeys(inbound, c, tags, email);
      RowChanged(clients, id, c, inbound.tenant, email, inbound.tag);
    }
  }

  lemma UpdateInStep(db: Db, tenant: string, id: nat, ch: Changes)
    requires InStep(db)
    ensures InStep(Update(db, tenant, id, ch))
  {
    if id in db.clients && db.clients[id].tenant == tenant {
      var after := Update(db, tenant, id, ch);
      var c := Changed(db.clients[id], ch);
      forall k | 0 <= k < |db.inbounds| ensures InboundInStep(after.clients, after.inbounds[k]) {
        if NeedsSync(db.clients[id], ch) {
          MovedInStep(db.clients, id, c, db.inbounds[k]);
        } else {
          UntouchedInStep(db.clients, id, c, db.inbounds[k]);
        }
      }
    }
  }

  // ---------- Bulk creation ----------

  /** Rows whose email is taken are skipped. */
  function InsertRows(clients: map<nat, Client>, next: nat, data: seq<Client>): (r: (map<nat, Client>, nat)) {
    if data == [] then (clients, next)
    else
      var (rows, id) := InsertRows(clients, next, data[..|data| - 1]);
      var c := data[|data| - 1];
      if Taken(rows, c.tenant, c.email) then (rows, id) else (rows[id := c], id + 1)
  }

  /** What every client of one bulk request has in common. */
  predicate IsBulk(data: seq<Client>, tenant: string, tags: seq<string>) {
    forall i :: 0 <= i < |data| ==> data[i].tenant == tenant && data[i].inboundTags == tags
  }

  predicate Named(data: seq<Client>, email: string) {
    exists i :: 0 <= i < |data| && data[i].email == email
  }

  /** `ids` answers the query for the tenant's rows with an email of the request, in any order. */
  ghost predicate Fetches(clients: map<nat, Client>, tenant: string, data: seq<Client>, ids: seq<nat>) {
    forall id :: id in ids <==> id in clients && clients[id].tenant == tenant && Named(data, clients[id].email)
  }

  function RowsOf(clients: map<nat, Client>, ids: seq<nat>): (r: seq<Client>)
    requires forall id :: id in ids ==> id in clients
    ensures |r| == |ids| && forall i :: 0 <= i < |r| ==> r[i] == clients[ids[i]]
  {
    seq(|ids|, i requires 0 <= i < |ids| => clients[ids[i]])
  }

  function BulkCreate(db: Db, tenant: string, tags: seq<string>, data: seq<Client>, ids: seq<nat>): Db
    requires forall id :: id in ids ==> id in InsertRows(db.clients, db.nextClient, data).0
  {
    var (rows, next) := InsertRows(db.clients, db.nextClient, data);
    Db(rows, if tags != [] then BatchSync(db.inbounds, tenant, RowsOf(rows, ids)) else db.inbounds, next)
  }

  /** Old rows stay; each new row is one of the request. */
  lemma {:induction false} InsertedRows(clients: map<nat, Client>, next: nat, data: seq<Client>, tenant: string, tags: seq<string>)
    requires EmailsUnique(clients) && IsBulk(data, tenant, tags) && forall id :: id in clients ==> id < next
    ensures var (rows, after) := InsertRows(clients, next, data);
            && EmailsUnique(rows)
            && next <= after && (forall id :: id in rows ==> id < after)
            && (forall id :: id in clients ==> id in rows && rows[id] == clients[id])
            && (forall id :: id in rows && id !in clients ==> rows[id].tenant == tenant && rows[id].inboundTags == tags && Named(data, rows[id].email))
    decreases |data|
  {
    if data != [] {
      var n := |data| - 1;
      InsertedRows(clients, next, data[..n], tenant, tags);
      var (rows, id) := InsertRows(clients, next, data[..n]);
    }
  }

  predicate GivenTag(cs: seq<Client>, email: string, tag: string) {
    exists i :: 0 <= i < |cs| && cs[i].email == email && tag in cs[i].inboundTags
  }

  lemma {:induction false} SyncEachKeys(inbounds: seq<Inbound>, tenant: string, cs: seq<Client>, k: nat, email: string)
    requires k < |inbounds| && WellKeyed(inbounds[k].list)
    ensures var after := SyncEach(inbounds, tenant, cs)[k];
            && after.tenant == inbounds[k].tenant && after.tag == inbounds[k].tag && WellKeyed(after.list)
            && (Lists(after.list, email) <==>
                  Lists(inbounds[k].list, email) || (inbounds[k].tenant == tenant && GivenTag(cs, email, inbounds[k].tag)))
    decreases |cs|
  {
    if cs != [] {
      var n := |cs| - 1;
      SyncEachKeys(inbounds, tenant, cs[..n], k, email);
      var before := SyncEach(inbounds, tenant, cs[..n])[k];
      UpsertKeys(before.list, BuildClient(cs[n]), before.protocol, email);
    }
  }

  /** Where the new rows give no tag, or belong to another tenant, nothing is there to list. */
  lemma RowsElsewhere(clients: map<nat, Client>, rows: map<nat, Client>, tenant: string, email: string, tag: string)
    requires forall id :: id in clients ==> id in rows && rows[id] == clients[id]
    requires forall id :: id in rows && id !in clients ==> rows[id].tenant != tenant || tag !in rows[id].inboundTags
    ensures HasRow(rows, tenant, email, tag) <==> HasRow(clients, tenant, email, tag)
  {
    if HasRow(clients, tenant, email, tag) {
      var j :| j in clients && clients[j].tenant == tenant && clients[j].email == email && tag in clients[j].inboundTags;
      assert j in rows && rows[j] == clients[j];
    }
  }

  lemma BulkInStep(clients: map<nat, Client>, rows: map<nat, Client>, inbounds: seq<Inbound>, tenant: string, data: seq<Client>, ids: seq<nat>, k: nat)
    requires forall id :: id in clients ==> id in rows && rows[id] == clients[id]
    requires forall id :: id in rows && id !in clients ==> rows[id].tenant == tenant && Named(data, rows[id].email)
    requires Fetches(rows, tenant, data, ids)
    requires k < |inbounds| && InboundInStep(clients, inbounds[k])
    ensures InboundInStep(rows, BatchSync(inbounds, tenant, RowsOf(rows, ids))[k])
  {
    var fetched := RowsOf(rows, ids);
    BatchEqualsSequential(inbounds, tenant, fetched);
    var after := SyncEach(inbounds, tenant, fetched)[k];
    SyncEachKeys(inbounds, tenant, fetched, k, "");
    forall email ensures Lists(after.list, email) <==> HasRow(rows, after.tenant, email, after.tag) {
      SyncEachKeys(inbounds, tenant, fetched, k, email);
      if after.tenant == tenant {
      } else {
        RowsElsewhere(clients, rows, after.tenant, email, after.tag);
      }
    }
  }

  lemma BulkWithoutTags(clients: map<nat, Client>, rows: map<nat, Client>, inbound: Inbound)
    requires forall id :: id in clients ==> id in rows && rows[id] == clients[id]
    requires forall id :: id in rows && id !in clients ==> rows[id].inboundTags == []
    requires InboundInStep(clients, inbound)
    ensures InboundInStep(rows, inbound)
  {
    forall email ensures Lists(inbound.list, email) <==> HasRow(rows, inbound.tenant, email, inbound.tag) {
      RowsElsewhere(clients, rows, inbound.tenant, email, inbound.tag);
    }
  }

  lemma BulkCreateInStep(db: Db, tenant: string, tags: seq<string>, data: seq<Client>, ids: seq<nat>)
    requires InStep(db) && IsBulk(data, tenant, tags)
    requires Fetches(InsertRows(db.clients, db.nextClient, data).0, tenant, data, ids)
    ensures InStep(BulkCreate(db, tenant, tags, data, ids))
  {
    InsertedRows(db.clients, db.nextClient, data, tenant, tags);
    var rows := InsertRows(db.clients, db.nextClient, data).0;
    var after := BulkCreate(db, tenant, tags, data, ids);
    forall k | 0 <= k < |db.inbounds| ensures InboundInStep(after.clients, after.inbounds[k]) {
      if tags != [] {
        BulkInStep(db.clients, rows, db.inbounds, tenant, data, ids, k);
      } else {
        BulkWithoutTags(db.clients, rows, db.inbounds[k]);
      }
    }
  }

  // ---------- Whole runs ----------

  datatype Op =
    | OpCreate(c: Client, freshUuid: string)
    | OpBulk(bulkTenant: string, tags: seq<string>, data: seq<Client>, ids: seq<nat>)
    | OpUpdate(updateTenant: string, updated: nat, ch: Changes)
    | OpDelete(deleteTenant: string, deleted: nat)

  ghost predicate Possible(db: Db, op: Op) {
    op.OpBulk? ==>
      && IsBulk(op.data, op.bulkTenant, op.tags)
      && Fetches(InsertRows(db.clients, db.nextClient, op.data).0, op.bulkTenant, op.data, op.ids)
  }

  ghost function Apply(db: Db, op: Op): Db
    requires Possible(db, op)
  {
    match op
    case OpCreate(c, freshUuid) => Create(db, c, freshUuid)
    case OpBulk(tenant, tags, data, ids) => BulkCreate(db, tenant, tags, data, ids)
    case OpUpdate(tenant, id, ch) => Update(db, tenant, id, ch)
    case OpDelete(tenant, id) => Delete(db, tenant, id)
  }

  lemma ApplyInStep(db: Db, op: Op)
    requires InStep(db) && Possible(db, op)
    ensures InStep(Apply(db, op))
  {
    match op
    case OpCreate(c, freshUuid) => CreateInStep(db, c, freshUuid);
    case OpBulk(tenant, tags, data, ids) => BulkCreateInStep(db, tenant, tags, data, ids);
    case OpUpdate(tenant, id, ch) => UpdateInStep(db, tenant, id, ch);
    case OpDelete(tenant, id) => DeleteInStep(db, tenant, id);
  }

  ghost predicate IsRun(states: seq<Db>, ops: seq<Op>) {
    && |states| == |ops| + 1
    && forall i :: 0 <= i < |ops| ==> Possible(states[i], ops[i]) && states[i + 1] == Apply(states[i], ops[i])
  }

  /** From consistent lists, every run of creations, bulk creations, updates and deletions keeps each
      list free of repeated keys and naming exactly the emails whose rows give the inbound's tag. */
  lemma {:induction false} IndexStaysInStep(states: seq<Db>, ops: seq<Op>, n: nat)
    requires IsRun(states, ops) && InStep(states[0]) && n <= |ops|
    ensures InStep(states[n])
    decreases n
  {
    if n > 0 {
      IndexStaysInStep(states, ops, n - 1);
      ApplyInStep(states[n - 1], ops[n - 1]);
    }
  }
}
