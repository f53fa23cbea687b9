/** What the copies of clients in inbound settings say: not only which emails are listed, but with which
    credentials, and after which changes. */
module ClientCopies {
  import opened Sums
  import opened ClientIndex

  /** The entry an inbound of this protocol should hold for a row. A client with a uuid shows no password. */
  function CopyOf(c: Client, protocol: string): Entry {
    if protocol == "socks" || protocol == "http" then
      Entry(None, Some(c.email), if c.uuid == "" then c.password else "", None)
    else
      Entry(Some(c.email), None, "", Some(
        if c.uuid != "" then XrayClient(c.email, c.level, c.uuid, c.flow, "", "")
        else XrayClient(c.email, c.level, "", "", c.password, if c.password != "" then c.cipher else "")))
  }

  ghost predicate InboundCurrent(clients: map<nat, Client>, inbound: Inbound) {
    forall id :: id in clients && clients[id].tenant == inbound.tenant && inbound.tag in clients[id].inboundTags ==>
      CopyOf(clients[id], inbound.protocol) in inbound.list
  }

  /** Every inbound holds, for every row of its tenant that names its tag, the copy the row asks for. */
  ghost predicate Current(db: Db) {
    forall k :: 0 <= k < |db.inbounds| ==> InboundCurrent(db.clients, db.inbounds[k])
  }

  // ---------- Entries of a list ----------

  lemma CopyIsBuilt(c: Client, protocol: string)
    ensures EntryFor(BuildClient(c), protocol) == CopyOf(c, protocol)
    ensures KeyOf(CopyOf(c, protocol)) == c.email
  {
  }

  /** Upserting a client sets its own entry and leaves all others. */
  lemma UpsertEntries(list: seq<Entry>, c: Client, protocol: string, e: Entry)
    requires WellKeyed(list)
    ensures e in Upsert(list, BuildClient(c), protocol)
       <==> e == CopyOf(c, protocol) || (e in list && KeyOf(e) != c.email)
  {
    var after, i := Upsert(list, BuildClient(c), protocol), FindIndex(list, c.email);
    CopyIsBuilt(c, protocol);
    assert after[i] == CopyOf(c, protocol);
    forall j | 0 <= j < |list| && j != i ensures after[j] == list[j] && KeyOf(list[j]) != c.email {
      assert OneKey(list[j]);
      if i < |list| { assert OneKey(list[i]) && KeyOf(list[i]) == c.email; } else { assert !Matches(list[j], c.email); }
    }
    if e in list && KeyOf(e) != c.email {
      var j :| 0 <= j < |list| && list[j] == e;
      assert after[j] == e;
    }
  }

  lemma {:induction false} WithoutEntries(list: seq<Entry>, email: string, e: Entry)
    requires WellKeyed(list)
    ensures e in Without(list, email) <==> e in list && KeyOf(e) != email
    decreases |list|
  {
    if list != [] {
      var n := |list| - 1;
      assert list == list[..n] + [list[n]];
      WithoutEntries(list[..n], email, e);
      assert OneKey(list[n]);
    }
  }

  /** No two entries of a list have the same key. */
  lemma OneEntry(list: seq<Entry>, e: Entry, f: Entry)
    requires WellKeyed(list) && e in list && f in list && KeyOf(e) == KeyOf(f)
    ensures e == f
  {
    var i :| 0 <= i < |list| && list[i] == e;
    var j :| 0 <= j < |list| && list[j] == f;
    assert i == j;
  }

  // ---------- Creation and deletion ----------

  lemma SyncedCurrent(clients: map<nat, Client>, id: nat, c: Client, inbound: Inbound)
    requires InboundCurrent(clients, inbound) && WellKeyed(inbound.list)
    requires forall j :: j in clients && j != id && clients[j].tenant == c.tenant ==> clients[j].email != c.email
    ensures InboundCurrent(clients[id := c], SyncInto(inbound, c.tenant, c))
  {
    var rows, after := clients[id := c], SyncInto(inbound, c.tenant, c);
    forall j | j in rows && rows[j].tenant == after.tenant && after.tag in rows[j].inboundTags
      ensures CopyOf(rows[j], after.protocol) in after.list
    {
      CopyIsBuilt(rows[j], after.protocol);
      UpsertEntries(inbound.list, c, inbound.protocol, CopyOf(rows[j], after.protocol));
    }
  }

  lemma CreateCurrent(db: Db, c: Client, freshUuid: string)
    requires InStep(db) && Current(db)
    ensures Current(Create(db, c, freshUuid))
  {
    if !Taken(db.clients, c.tenant, c.email) {
      var after := Create(db, c, freshUuid);
      forall k | 0 <= k < |db.inbounds| ensures InboundCurrent(after.clients, after.inbounds[k]) {
        SyncedCurrent(db.clients, db.nextClient, WithUuid(c, freshUuid), db.inbounds[k]);
      }
    }
  }

  /** The inbounds of the client's tags hold its copy. */
  ghost predicate AllHold(inbounds: seq<Inbound>, c: Client) {
    forall k :: 0 <= k < |inbounds| && inbounds[k].tenant == c.tenant && inbounds[k].tag in c.inboundTags ==>
      CopyOf(c, inbounds[k].protocol) in inbounds[k].list
  }

  lemma SyncedHold(inbounds: seq<Inbound>, c: Client)
    requires forall k :: 0 <= k < |inbounds| ==> WellKeyed(inbounds[k].list)
    ensures AllHold(SyncOne(inbounds, c.tenant, c), c)
  {
    var after := SyncOne(inbounds, c.tenant, c);
    forall k | 0 <= k < |inbounds| && inbounds[k].tenant == c.tenant && inbounds[k].tag in c.inboundTags
      ensures CopyOf(c, inbounds[k].protocol) in after[k].list
    {
      UpsertEntries(inbounds[k].list, c, inbounds[k].protocol, CopyOf(c, inbounds[k].protocol));
    }
  }

  lemma RemovedCurrent(clients: map<nat, Client>, rows: map<nat, Client>, inbound: Inbound, tenant: string, email: string, tags: seq<string>)
    requires InboundCurrent(clients, inbound) && WellKeyed(inbound.list)
    requires forall j :: j in rows ==> j in clients && rows[j] == clients[j]
    requires forall j :: j in rows && rows[j].tenant == tenant && rows[j].email == email ==>
               forall t :: t in tags ==> t !in rows[j].inboundTags
    ensures InboundCurrent(rows, RemoveFrom(inbound, tenant, email, tags))
  {
    var after := RemoveFrom(inbound, tenant, email, tags);
    forall j | j in rows && rows[j].tenant == after.tenant && after.tag in rows[j].inboundTags
      ensures CopyOf(rows[j], after.protocol) in after.list
    {
      CopyIsBuilt(rows[j], after.protocol);
      WithoutEntries(inbound.list, email, CopyOf(rows[j], after.protocol));
    }
  }

  lemma DeleteCurrent(db: Db, tenant: string, id: nat)
    requires InStep(db) && Current(db)
    ensures Current(Delete(db, tenant, id))
  {
    if id in db.clients && db.clients[id].tenant == tenant {
      var c, after := db.clients[id], Delete(db, tenant, id);
      forall k | 0 <= k < |db.inbounds| ensures InboundCurrent(after.clients, after.inbounds[k]) {
        RemovedCurrent(db.clients, after.clients, db.inbounds[k], tenant, c.email, c.inboundTags);
      }
    }
  }

  // ---------- Bulk creation ----------

  /** A copy is there after a series of upserts if its row is one of the series, or if it was there before and no
      row of the series has its email. */
  lemma {:induction false} SyncEachEntries(inbounds: seq<Inbound>, tenant: string, cs: seq<Client>, k: nat, c: Client)
    requires k < |inbounds| && WellKeyed(inbounds[k].list)
    requires c.tenant == inbounds[k].tenant && inbounds[k].tag in c.inboundTags
    requires forall i :: 0 <= i < |cs| && cs[i].email == c.email && inbounds[k].tenant == tenant ==> cs[i] == c
    requires (c in cs && c.tenant == tenant) || CopyOf(c, inbounds[k].protocol) in inbounds[k].list
    ensures CopyOf(c, inbounds[k].protocol) in SyncEach(inbounds, tenant, cs)[k].list
    ensures SyncEach(inbounds, tenant, cs)[k].protocol == inbounds[k].protocol
    decreases |cs|
  {
    if cs != [] {
      var n := |cs| - 1;
      assert cs == cs[..n] + [cs[n]];
      var before := SyncEach(inbounds, tenant, cs[..n])[k];
      SyncEachKeys(inbounds, tenant, cs[..n], k, "");
      CopyIsBuilt(c, inbounds[k].protocol);
      SameProtocol(inbounds, tenant, cs[..n], k);
      UpsertEntries(before.list, cs[n], before.protocol, CopyOf(c, inbounds[k].protocol));
      if cs[n] != c || inbounds[k].tenant != tenant { SyncEachEntries(inbounds, tenant, cs[..n], k, c); }
    }
  }

  lemma {:induction false} SameProtocol(inbounds: seq<Inbound>, tenant: string, cs: seq<Client>, k: nat)
    requires k < |inbounds|
    ensures SyncEach(inbounds, tenant, cs)[k] == inbounds[k].(list := SyncEach(inbounds, tenant, cs)[k].list)
    decreases |cs|
  {
    if cs != [] { SameProtocol(inbounds, tenant, cs[..|cs| - 1], k); }
  }

  lemma BulkInboundCurrent(clients: map<nat, Client>, rows: map<nat, Client>, inbounds: seq<Inbound>, tenant: string, data: seq<Client>, ids: seq<nat>, k: nat)
    requires EmailsUnique(rows) && Fetches(rows, tenant, data, ids)
    requires forall id :: id in clients ==> id in rows && rows[id] == clients[id]
    requires forall id :: id in rows && id !in clients ==> rows[id].tenant == tenant && Named(data, rows[id].email)
    requires k < |inbounds| && WellKeyed(inbounds[k].list) && InboundCurrent(clients, inbounds[k])
    ensures InboundCurrent(rows, BatchSync(inbounds, tenant, RowsOf(rows, ids))[k])
  {
    var fetched := RowsOf(rows, ids);
    BatchEqualsSequential(inbounds, tenant, fetched);
    SameProtocol(inbounds, tenant, fetched, k);
    var after := SyncEach(inbounds, tenant, fetched)[k];
    forall id | id in rows && rows[id].tenant == after.tenant && after.tag in rows[id].inboundTags
      ensures CopyOf(rows[id], after.protocol) in after.list
    {
      if id in ids {
        var i :| 0 <= i < |ids| && ids[i] == id;
        assert fetched[i] == rows[id];
      }
      forall i | 0 <= i < |fetched| && fetched[i].email == rows[id].email && inbounds[k].tenant == tenant ensures fetched[i] == rows[id] {
        assert ids[i] in ids && rows[ids[i]] == fetched[i];
      }
      SyncEachEntries(inbounds, tenant, fetched, k, rows[id]);
    }
  }

  lemma BulkCreateCurrent(db: Db, tenant: string, tags: seq<string>, data: seq<Client>, ids: seq<nat>)
    requires InStep(db) && Current(db) && IsBulk(data, tenant, tags)
    requires Fetches(InsertRows(db.clients, db.nextClient, data).0, tenant, data, ids)
    ensures Current(BulkCreate(db, tenant, tags, data, ids))
  {
    InsertedRows(db.clients, db.nextClient, data, tenant, tags);
    var rows := InsertRows(db.clients, db.nextClient, data).0;
    var after := BulkCreate(db, tenant, tags, data, ids);
    forall k | 0 <= k < |db.inbounds| ensures InboundCurrent(after.clients, after.inbounds[k]) {
      if tags != [] { BulkInboundCurrent(db.clients, rows, db.inbounds, tenant, data, ids, k); }
    }
  }

  // ---------- Updates ----------

  /** The requests that are copied to the inbounds: a non-empty uuid, password or flow, an enable flag, or other tags. */
  predicate AsksForSync(c: Client, ch: Changes) {
    || (ch.uuid.Some? && ch.uuid.value != "")
    || (ch.password.Some? && ch.password.value != "")
    || (ch.flow.Some? && ch.flow.value != "")
    || ch.enableGiven
    || (ch.inboundTags.Some? && ch.inboundTags.value != c.inboundTags)
  }

  /** Every field given has the value given, and every other field is as before. */
  predicate IsUpdated(before: Client, after: Client, ch: Changes) {
    && after.tenant == before.tenant && after.email == before.email
    && (if ch.uuid == None then after.uuid == before.uuid else Some(after.uuid) == ch.uuid)
    && (if ch.password == None then after.password == before.password else Some(after.password) == ch.password)
    && (if ch.flow == None then after.flow == before.flow else Some(after.flow) == ch.flow)
    && (if ch.cipher == None then after.cipher == before.cipher else Some(after.cipher) == ch.cipher)
    && (if ch.level == None then after.level == before.level else Some(after.level) == ch.level)
    && (if ch.inboundTags == None then after.inboundTags == before.inboundTags else Some(after.inboundTags) == ch.inboundTags)
  }

  /** The copies of the row look the same after the update in every inbound that holds one. */
  ghost predicate LooksTheSame(db: Db, id: nat, ch: Changes)
    requires id in db.clients
  {
    forall k :: 0 <= k < |db.inbounds| && db.inbounds[k].tenant == db.clients[id].tenant && db.inbounds[k].tag in db.clients[id].inboundTags ==>
      CopyOf(Changed(db.clients[id], ch), db.inbounds[k].protocol) == CopyOf(db.clients[id], db.inbounds[k].protocol)
  }

  /** An update that asks for a sync puts the row's new copy into every inbound of its tags, and leaves the entries
      of all other clients as they were. */
  lemma SyncReaches(db: Db, tenant: string, id: nat, ch: Changes, k: nat, e: Entry)
    requires InStep(db) && id in db.clients && db.clients[id].tenant == tenant
    requires AsksForSync(db.clients[id], ch) && k < |db.inbounds|
    ensures var after := Update(db, tenant, id, ch);
            && (db.inbounds[k].tenant == tenant && db.inbounds[k].tag in after.clients[id].inboundTags ==>
                  CopyOf(after.clients[id], db.inbounds[k].protocol) in after.inbounds[k].list)
            && (KeyOf(e) != db.clients[id].email ==> (e in after.inbounds[k].list <==> e in db.inbounds[k].list))
  {
    var before, after := db.clients[id], Changed(db.clients[id], ch);
    var inbound := db.inbounds[k];
    assert NeedsSync(before, ch);
    CopyIsBuilt(after, inbound.protocol);
    UpsertEntries(inbound.list, after, inbound.protocol, e);
    UpsertEntries(inbound.list, after, inbound.protocol, CopyOf(after, inbound.protocol));
    MovedKeys(inbound, after, [], "");
    WithoutEntries(SyncInto(inbound, tenant, after).list, before.email, e);
  }

  lemma UpdatedInbound(db: Db, tenant: string, id: nat, ch: Changes, k: nat)
    requires InStep(db) && Current(db) && id in db.clients && db.clients[id].tenant == tenant
    requires AsksForSync(db.clients[id], ch) && k < |db.inbounds|
    ensures InboundCurrent(Update(db, tenant, id, ch).clients, Update(db, tenant, id, ch).inbounds[k])
  {
    var before, after := db.clients[id], Changed(db.clients[id], ch);
    var rows, inbound := db.clients[id := after], db.inbounds[k];
    assert NeedsSync(before, ch);
    SyncedCurrent(db.clients, id, after, inbound);
    MovedKeys(inbound, after, [], "");
    RemovedCurrent(rows, rows, SyncInto(inbound, tenant, after), tenant, before.email, Dropped(before.inboundTags, after.inboundTags));
  }

  lemma UnsyncedCurrent(db: Db, tenant: string, id: nat, ch: Changes)
    requires InStep(db) && Current(db) && id in db.clients && db.clients[id].tenant == tenant && !AsksForSync(db.clients[id], ch)
    ensures Current(Update(db, tenant, id, ch)) <==> LooksTheSame(db, id, ch)
  {
    var before, after := db.clients[id], Changed(db.clients[id], ch);
    var rows := db.clients[id := after];
    assert Update(db, tenant, id, ch) == Db(rows, db.inbounds, db.nextClient) && after.inboundTags == before.inboundTags;
    forall k | 0 <= k < |db.inbounds| && db.inbounds[k].tenant == tenant && db.inbounds[k].tag in before.inboundTags
      ensures InboundCurrent(rows, db.inbounds[k])
         <==> CopyOf(after, db.inbounds[k].protocol) == CopyOf(before, db.inbounds[k].protocol)
    {
      UnsyncedInbound(db.clients, id, after, db.inbounds[k]);
    }
  }

  lemma UnsyncedInbound(clients: map<nat, Client>, id: nat, after: Client, inbound: Inbound)
    requires InboundCurrent(clients, inbound) && WellKeyed(inbound.list) && id in clients
    requires clients[id].tenant == inbound.tenant && inbound.tag in clients[id].inboundTags
    requires after.tenant == clients[id].tenant && after.email == clients[id].email && after.inboundTags == clients[id].inboundTags
    ensures InboundCurrent(clients[id := after], inbound)
       <==> CopyOf(after, inbound.protocol) == CopyOf(clients[id], inbound.protocol)
  {
    var rows := clients[id := after];
    CopyIsBuilt(after, inbound.protocol);
    CopyIsBuilt(clients[id], inbound.protocol);
    if InboundCurrent(rows, inbound) {
      assert rows[id] == after;
      OneEntry(inbound.list, CopyOf(after, inbound.protocol), CopyOf(clients[id], inbound.protocol));
    }
  }

  /** Exactly when an update leaves all copies current: it asks for a sync, or the row's copies look the same. */
  lemma UpdateCurrentIff(db: Db, tenant: string, id: nat, ch: Changes)
    requires InStep(db) && Current(db) && id in db.clients && db.clients[id].tenant == tenant
    ensures Current(Update(db, tenant, id, ch)) <==> AsksForSync(db.clients[id], ch) || LooksTheSame(db, id, ch)
  {
    if AsksForSync(db.clients[id], ch) {
      forall k | 0 <= k < |db.inbounds|
        ensures InboundCurrent(Update(db, tenant, id, ch).clients, Update(db, tenant, id, ch).inbounds[k])
      {
        UpdatedInbound(db, tenant, id, ch, k);
      }
    } else {
      UnsyncedCurrent(db, tenant, id, ch);
    }
  }

  const NO_CHANGES := Changes(None, None, None, None, None, None, false)

  /** Changing only the level leaves stale copies in every inbound with a clients list, and clearing only the uuid
      leaves the old uuid accepted there. */
  lemma SomeChangesGoStale(db: Db, tenant: string, id: nat, k: nat, level: int)
    requires InStep(db) && Current(db) && id in db.clients && db.clients[id].tenant == tenant
    requires k < |db.inbounds| && db.inbounds[k].tenant == tenant && db.inbounds[k].tag in db.clients[id].inboundTags
    requires db.inbounds[k].protocol != "socks" && db.inbounds[k].protocol != "http"
    ensures level != db.clients[id].level ==> !Current(Update(db, tenant, id, NO_CHANGES.(level := Some(level))))
    ensures db.clients[id].uuid != "" ==> !Current(Update(db, tenant, id, NO_CHANGES.(uuid := Some(""))))
  {
    UpdateCurrentIff(db, tenant, id, NO_CHANGES.(level := Some(level)));
    UpdateCurrentIff(db, tenant, id, NO_CHANGES.(uuid := Some("")));
  }

  // ---------- Whole runs ----------

  /** Every update asks for a sync or leaves the copies looking the same. */
  ghost predicate Refreshes(db: Db, op: Op) {
    op.OpUpdate? && op.updated in db.clients && db.clients[op.updated].tenant == op.updateTenant ==>
      AsksForSync(db.clients[op.updated], op.ch) || LooksTheSame(db, op.updated, op.ch)
  }

  lemma ApplyCurrent(db: Db, op: Op)
    requires InStep(db) && Current(db) && Possible(db, op)
    ensures Current(Apply(db, op)) <==> Refreshes(db, op)
  {
    match op
    case OpCreate(c, freshUuid) => CreateCurrent(db, c, freshUuid);
    case OpBulk(tenant, tags, data, ids) => BulkCreateCurrent(db, tenant, tags, data, ids);
    case OpUpdate(tenant, id, ch) => if id in db.clients && db.clients[id].tenant == tenant { UpdateCurrentIff(db, tenant, id, ch); }
    case OpDelete(tenant, id) => DeleteCurrent(db, tenant, id);
  }

  ghost predicate CurrentSoFar(states: seq<Db>, n: nat)
    requires n < |states|
  {
    forall i :: 0 <= i <= n ==> Current(states[i])
  }

  ghost predicate RefreshesSoFar(states: seq<Db>, ops: seq<Op>, n: nat)
    requires n <= |ops| && n <= |states|
  {
    forall i :: 0 <= i < n ==> Refreshes(states[i], ops[i])
  }

  /** From consistent, current lists, a run keeps every copy current throughout exactly when each of its updates
      asks for a sync or leaves the copies looking the same. */
  lemma {:induction false} CopiesStayCurrentIff(states: seq<Db>, ops: seq<Op>, n: nat)
    requires IsRun(states, ops) && InStep(states[0]) && Current(states[0]) && n <= |ops|
    ensures CurrentSoFar(states, n) <==> RefreshesSoFar(states, ops, n)
    decreases n
  {
    if n > 0 {
      CopiesStayCurrentIff(states, ops, n - 1);
      IndexStaysInStep(states, ops, n - 1);
      assert CurrentSoFar(states, n) <==> CurrentSoFar(states, n - 1) && Current(states[n]);
      assert RefreshesSoFar(states, ops, n) <==> RefreshesSoFar(states, ops, n - 1) && Refreshes(states[n - 1], ops[n - 1]);
      if CurrentSoFar(states, n - 1) { ApplyCurrent(states[n - 1], ops[n - 1]); }
    }
  }
}
