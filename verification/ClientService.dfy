/** The service that writes client rows and copies them into inbound settings. Node ids whose cached
    configuration it drops are collected in `invalidated`. */
module ClientServices {
  import opened Sums
  import opened ClientIndex
  import opened ClientCopies

  /** The parsed settings of one inbound while it is being edited. */
  class Settings {
    var list: seq<Entry>

    constructor (list: seq<Entry>)
      ensures this.list == list
    {
      this.list := list;
    }

    method UpsertClient(client: XrayClient, protocol: string)
      modifies this
      ensures list == Upsert(old(list), client, protocol)
    {
      var idx := 0;
      while idx < |list| && !Matches(list[idx], client.email)
        invariant idx <= |list| && list == old(list)
        invariant forall j :: 0 <= j < idx ==> !Matches(list[j], client.email)
      {
        idx := idx + 1;
      }
      FirstIsFound(list, client.email, idx);
      var data := if UsesAccounts(protocol) then Entry(None, Some(client.email), client.password, None)
                  else Entry(Some(client.email), None, "", Some(client));
      if idx < |list| {
        list := list[idx := data];
      } else {
        list := list + [data];
      }
    }

    method RemoveClient(email: string)
      modifies this
      ensures list == Without(old(list), email)
    {
      var kept: seq<Entry> := [];
      for i := 0 to |list|
        invariant list == old(list) && kept == Without(list[..i], email)
      {
        assert list[..i + 1][..i] == list[..i];
        if !Matches(list[i], email) { kept := kept + [list[i]]; }
      }
      assert list[..|list|] == list;
      list := kept;
    }
  }

  // ---------- The clients of each tag ----------

  function Listed(byTag: map<string, seq<Client>>, tag: string): seq<Client> {
    if tag in byTag then byTag[tag] else []
  }

  function Push(byTag: map<string, seq<Client>>, tag: string, c: Client): (r: map<string, seq<Client>>)
    ensures forall t :: Listed(r, t) == if t == tag then Listed(byTag, t) + [c] else Listed(byTag, t)
  {
    byTag[tag := Listed(byTag, tag) + [c]]
  }

  /** After the first `j` tags of a client. */
  ghost predicate Grouped(byTag: map<string, seq<Client>>, cs: seq<Client>, c: Client, tags: seq<string>) {
    forall t :: Listed(byTag, t) == OfTag(cs, t) + Copies(c, Times(tags, t))
  }

  ghost predicate GroupedAll(byTag: map<string, seq<Client>>, cs: seq<Client>) {
    forall t :: Listed(byTag, t) == OfTag(cs, t)
  }

  lemma OneCopyMore(before: seq<Client>, c: Client, n: nat)
    ensures before + Copies(c, n) + [c] == before + Copies(c, n + 1)
  {
  }

  lemma GroupedPush(byTag: map<string, seq<Client>>, cs: seq<Client>, c: Client, tags: seq<string>, n: nat)
    requires n < |tags| && Grouped(byTag, cs, c, tags[..n])
    ensures Grouped(Push(byTag, tags[n], c), cs, c, tags[..n + 1])
  {
    assert tags[..n + 1][..n] == tags[..n];
    forall t ensures Listed(Push(byTag, tags[n], c), t) == OfTag(cs, t) + Copies(c, Times(tags[..n + 1], t)) {
      if t == tags[n] { OneCopyMore(OfTag(cs, t), c, Times(tags[..n], t)); }
    }
  }

  lemma GroupedStart(byTag: map<string, seq<Client>>, cs: seq<Client>, c: Client)
    requires GroupedAll(byTag, cs)
    ensures Grouped(byTag, cs, c, [])
  {
    forall t ensures Listed(byTag, t) == OfTag(cs, t) + Copies(c, 0) { }
  }

  lemma GroupedDone(byTag: map<string, seq<Client>>, cs: seq<Client>, n: nat)
    requires n < |cs| && Grouped(byTag, cs[..n], cs[n], cs[n].inboundTags)
    ensures GroupedAll(byTag, cs[..n + 1])
  {
    assert cs[..n + 1][..n] == cs[..n];
  }

  method GroupByTag(clients: seq<Client>) returns (byTag: map<string, seq<Client>>)
    ensures GroupedAll(byTag, clients)
  {
    byTag := map[];
    for i := 0 to |clients|
      invariant GroupedAll(byTag, clients[..i])
    {
      var tags := clients[i].inboundTags;
      GroupedStart(byTag, clients[..i], clients[i]);
      for j := 0 to |tags|
        invariant Grouped(byTag, clients[..i], clients[i], tags[..j])
      {
        GroupedPush(byTag, clients[..i], clients[i], tags, j);
        byTag := byTag[tags[j] := (if tags[j] in byTag then byTag[tags[j]] else []) + [clients[i]]];
      }
      assert tags[..|tags|] == tags;
      GroupedDone(byTag, clients, i);
    }
    assert clients[..|clients|] == clients;
  }

  /** The nodes of the tenant's inbounds that changed hands: every inbound with one of the tags. */
  function NodesOf(inbounds: seq<Inbound>, tenant: string, tags: seq<string>): (r: set<string>)
    ensures forall k :: 0 <= k < |inbounds| && inbounds[k].tenant == tenant && inbounds[k].tag in tags ==> inbounds[k].nodeId in r
  {
    set k | 0 <= k < |inbounds| && inbounds[k].tenant == tenant && inbounds[k].tag in tags :: inbounds[k].nodeId
  }

  lemma NodesGrow(inbounds: seq<Inbound>, tenant: string, tags: seq<string>, n: nat)
    requires n < |inbounds|
    ensures NodesOf(inbounds[..n + 1], tenant, tags)
         == NodesOf(inbounds[..n], tenant, tags) + (if inbounds[n].tenant == tenant && inbounds[n].tag in tags then {inbounds[n].nodeId} else {})
  {
    var more, less := inbounds[..n + 1], inbounds[..n];
    forall k | 0 <= k < n ensures more[k] == less[k] { }
    assert more[n] == inbounds[n];
    forall id | id in NodesOf(more, tenant, tags)
      ensures id in NodesOf(less, tenant, tags) || (id == inbounds[n].nodeId && inbounds[n].tenant == tenant && inbounds[n].tag in tags)
    {
      var k :| 0 <= k < n + 1 && more[k].tenant == tenant && more[k].tag in tags && more[k].nodeId == id;
      if k < n { assert less[k] == more[k]; }
    }
  }

  class ClientService {
    var clients: map<nat, Client>
    var inbounds: seq<Inbound>
    var nextClient: nat
    var invalidated: set<string>

    ghost function Rows(): Db
      reads this
    {
      Db(clients, inbounds, nextClient)
    }

    /** Copies one client into the lists of its tags, in one transaction. */
    method SyncClientToInbounds(tenant: string, client: Client)
      modifies `inbounds, `invalidated
      ensures inbounds == SyncOne(old(inbounds), tenant, client)
      ensures invalidated == old(invalidated) + NodesOf(old(inbounds), tenant, client.inboundTags)
    {
      var xrayClient := BuildClient(client);
      var updates, nodes: set<string> := [], {};
      for k := 0 to |inbounds|
        invariant inbounds == old(inbounds) && invalidated == old(invalidated)
        invariant |updates| == k && forall j :: 0 <= j < k ==> updates[j] == SyncInto(inbounds[j], tenant, client)
        invariant nodes == NodesOf(inbounds[..k], tenant, client.inboundTags)
      {
        NodesGrow(inbounds, tenant, client.inboundTags, k);
        var inbound := inbounds[k];
        if inbound.tenant == tenant && inbound.tag in client.inboundTags {
          var settings := new Settings(inbound.list);
          settings.UpsertClient(xrayClient, inbound.protocol);
          updates := updates + [inbound.(list := settings.list)];
          nodes := nodes + {inbound.nodeId};
        } else {
          updates := updates + [inbound];
        }
      }
      assert inbounds[..|inbounds|] == inbounds;
      assert updates == SyncOne(inbounds, tenant, client);
      inbounds := updates;
      invalidated := invalidated + nodes;
    }

    /** The list of one inbound with the clients of its tag put in. */
    method UpsertTagClients(inbound: Inbound, tagClients: seq<Client>) returns (list: seq<Entry>)
      ensures list == UpsertAll(inbound.list, tagClients, inbound.protocol)
    {
      var settings := new Settings(inbound.list);
      for j := 0 to |tagClients|
        invariant settings.list == UpsertAll(inbound.list, tagClients[..j], inbound.protocol)
      {
        assert tagClients[..j + 1][..j] == tagClients[..j];
        settings.UpsertClient(BuildClient(tagClients[j]), inbound.protocol);
      }
      assert tagClients[..|tagClients|] == tagClients;
      list := settings.list;
    }

    /** One inbound with the clients of its tag put in, if it is the tenant's and has any. */
    method BatchSyncInbound(inbound: Inbound, tenant: string, byTag: map<string, seq<Client>>, ghost cs: seq<Client>) returns (update: Inbound)
      requires Listed(byTag, inbound.tag) == OfTag(cs, inbound.tag)
      ensures update == BatchInto(inbound, tenant, cs)
      ensures update != inbound ==> inbound.tenant == tenant && Listed(byTag, inbound.tag) != [] && update.nodeId == inbound.nodeId
    {
      update := inbound;
      var tagClients := if inbound.tag in byTag then byTag[inbound.tag] else [];
      if inbound.tenant == tenant && |tagClients| > 0 {
        var list := UpsertTagClients(inbound, tagClients);
        update := inbound.(list := list);
      }
    }

    /** Copies many clients at once: grouped by tag first, then list after list. It leaves what
        copying client after client would leave, and drops the cache of every node it touches. */
    method BatchSyncClientsToInbounds(tenant: string, cs: seq<Client>)
      modifies `inbounds, `invalidated
      ensures inbounds == SyncEach(old(inbounds), tenant, cs)
      ensures old(invalidated) <= invalidated
      ensures forall k :: 0 <= k < |inbounds| && inbounds[k] != old(inbounds)[k] ==> inbounds[k].nodeId in invalidated
    {
      BatchEqualsSequential(inbounds, tenant, cs);
      var byTag := GroupByTag(cs);
      var updates, nodes: set<string> := [], {};
      for k := 0 to |inbounds|
        invariant inbounds == old(inbounds) && invalidated == old(invalidated)
        invariant |updates| == k && forall j :: 0 <= j < k ==> updates[j] == BatchInto(inbounds[j], tenant, cs)
        invariant forall j :: 0 <= j < k && updates[j] != inbounds[j] ==> updates[j].nodeId in nodes
      {
        var update := BatchSyncInbound(inbounds[k], tenant, byTag, cs);
        updates := updates + [update];
        if inbounds[k].tenant == tenant && inbounds[k].tag in byTag && |byTag[inbounds[k].tag]| > 0 {
          nodes := nodes + {inbounds[k].nodeId};
        }
      }
      assert updates == BatchSync(inbounds, tenant, cs);
      inbounds := updates;
      invalidated := invalidated + nodes;
    }

    method RemoveClientFromInbounds(tenant: string, email: string, tags: seq<string>)
      modifies `inbounds, `invalidated
      ensures inbounds == RemoveAll(old(inbounds), tenant, email, tags)
      ensures invalidated == old(invalidated) + NodesOf(old(inbounds), tenant, tags)
    {
      var updates, nodes: set<string> := [], {};
      for k := 0 to |inbounds|
        invariant inbounds == old(inbounds) && invalidated == old(invalidated)
        invariant |updates| == k && forall j :: 0 <= j < k ==> updates[j] == RemoveFrom(inbounds[j], tenant, email, tags)
        invariant nodes == NodesOf(inbounds[..k], tenant, tags)
      {
        NodesGrow(inbounds, tenant, tags, k);
        var inbound := inbounds[k];
        if inbound.tenant == tenant && inbound.tag in tags {
          var settings := new Settings(inbound.list);
          settings.RemoveClient(email);
          updates := updates + [inbound.(list := settings.list)];
          nodes := nodes + {inbound.nodeId};
        } else {
          updates := updates + [inbound];
        }
      }
      assert inbounds[..|inbounds|] == inbounds;
      assert updates == RemoveAll(inbounds, tenant, email, tags);
      inbounds := updates;
      invalidated := invalidated + nodes;
    }

    /** Every inbound whose list changed sits on a node whose cached configuration was dropped. */
    ghost predicate Covered(before: seq<Inbound>)
      reads this
    {
      && |before| == |inbounds|
      && forall k :: 0 <= k < |inbounds| && inbounds[k] != before[k] ==> inbounds[k].nodeId in invalidated
    }

    method Create(client: Client, freshUuid: string) returns (created: bool)
      requires InStep(Rows())
      modifies this
      ensures InStep(Rows()) && Rows() == ClientIndex.Create(old(Rows()), client, freshUuid)
      ensures created == !Taken(old(clients), client.tenant, client.email)
      ensures Covered(old(inbounds))
      ensures created ==> clients == old(clients)[old(nextClient) := client.(uuid := if client.uuid == "" then freshUuid else client.uuid)]
      ensures created ==> AllHold(inbounds, clients[old(nextClient)])
      ensures Current(old(Rows())) ==> Current(Rows())
    {
      if Current(Rows()) { CreateCurrent(Rows(), client, freshUuid); }
      CreateInStep(Rows(), client, freshUuid);
      created := !(exists id :: id in clients && clients[id].tenant == client.tenant && clients[id].email == client.email);
      if created {
        var row := client.(uuid := if client.uuid != "" then client.uuid else freshUuid);
        clients := clients[nextClient := row];
        nextClient := nextClient + 1;
        SyncedHold(inbounds, row);
        SyncClientToInbounds(client.tenant, row);
      }
    }

    method InsertSkippingDuplicates(data: seq<Client>)
      modifies `clients, `nextClient
      ensures (clients, nextClient) == InsertRows(old(clients), old(nextClient), data)
    {
      for i := 0 to |data|
        invariant (clients, nextClient) == InsertRows(old(clients), old(nextClient), data[..i])
      {
        assert data[..i + 1][..i] == data[..i];
        if !(exists id :: id in clients && clients[id].tenant == data[i].tenant && clients[id].email == data[i].email) {
          clients := clients[nextClient := data[i]];
          nextClient := nextClient + 1;
        }
      }
      assert data[..|data|] == data;
    }

    /** `ids` is the answer of the query that reads the rows back. */
    method BulkCreate(tenant: string, tags: seq<string>, data: seq<Client>, ids: seq<nat>)
      requires InStep(Rows()) && IsBulk(data, tenant, tags)
      requires Fetches(InsertRows(clients, nextClient, data).0, tenant, data, ids)
      modifies this
      ensures InStep(Rows()) && Rows() == ClientIndex.BulkCreate(old(Rows()), tenant, tags, data, ids)
      ensures Covered(old(inbounds))
      ensures Current(old(Rows())) ==> Current(Rows())
    {
      if Current(Rows()) { BulkCreateCurrent(Rows(), tenant, tags, data, ids); }
      BulkCreateInStep(Rows(), tenant, tags, data, ids);
      InsertSkippingDuplicates(data);
      if |tags| > 0 {
        BatchEqualsSequential(inbounds, tenant, RowsOf(clients, ids));
        BatchSyncClientsToInbounds(tenant, RowsOf(clients, ids));
      }
    }

    /** Into the inbounds of the new tags, and out of those of the dropped ones. */
    method MoveClient(tenant: string, existing: Client, client: Client)
      modifies `inbounds, `invalidated
      ensures inbounds == RemoveAll(SyncOne(old(inbounds), tenant, client), tenant, existing.email,
                                    Dropped(existing.inboundTags, client.inboundTags))
      ensures NodesOf(old(inbounds), tenant, client.inboundTags) <= invalidated && Covered(old(inbounds))
    {
      SyncClientToInbounds(tenant, client);
      var removedTags := Dropped(existing.inboundTags, client.inboundTags);
      if |removedTags| > 0 {
        RemoveClientFromInbounds(tenant, existing.email, removedTags);
      } else {
        NothingToRemove(inbounds, tenant, existing.email);
      }
    }

    method Update(tenant: string, id: nat, ch: Changes) returns (found: bool)
      requires InStep(Rows())
      modifies this
      ensures InStep(Rows()) && Rows() == ClientIndex.Update(old(Rows()), tenant, id, ch)
      ensures found == (id in old(clients) && old(clients)[id].tenant == tenant)
      ensures Covered(old(inbounds))
      ensures if found then id in clients && IsUpdated(old(clients)[id], clients[id], ch) && clients == old(clients)[id := clients[id]]
              else Rows() == old(Rows())
      ensures found ==> CurrentAfter(old(Rows()), id, ch, Rows())
      ensures found && AsksForSync(old(clients)[id], ch) ==> NodesOf(inbounds, tenant, clients[id].inboundTags) <= invalidated
    {
      UpdateInStep(Rows(), tenant, id, ch);
      found := id in clients && clients[id].tenant == tenant;
      if found {
        UpdateReaches(Rows(), tenant, id, ch);
        var existing := clients[id];
        var client := Changed(existing, ch);
        clients := clients[id := client];
        if NeedsSync(existing, ch) {
          MoveClient(tenant, existing, client);
        }
      }
    }

    /** The lists are cleared before the row is deleted. */
    method Delete(tenant: string, id: nat) returns (found: bool)
      requires InStep(Rows())
      modifies this
      ensures InStep(Rows()) && Rows() == ClientIndex.Delete(old(Rows()), tenant, id)
      ensures found == (id in old(clients) && old(clients)[id].tenant == tenant)
      ensures Covered(old(inbounds))
      ensures Current(old(Rows())) ==> Current(Rows())
    {
      if Current(Rows()) { DeleteCurrent(Rows(), tenant, id); }
      DeleteInStep(Rows(), tenant, id);
      found := id in clients && clients[id].tenant == tenant;
      if found {
        var existing := clients[id];
        if |existing.inboundTags| > 0 {
          RemoveClientFromInbounds(tenant, existing.email, existing.inboundTags);
        } else {
          NothingToRemove(inbounds, tenant, existing.email);
        }
        clients := clients - {id};
      }
    }
  }

  ghost predicate CurrentAfter(db: Db, id: nat, ch: Changes, after: Db)
    requires id in db.clients
  {
    && (AsksForSync(db.clients[id], ch) ==> AllHold(after.inbounds, Changed(db.clients[id], ch)))
    && (Current(db) ==> (Current(after) <==> AsksForSync(db.clients[id], ch) || LooksTheSame(db, id, ch)))
  }

  lemma UpdateReaches(db: Db, tenant: string, id: nat, ch: Changes)
    requires InStep(db) && id in db.clients && db.clients[id].tenant == tenant
    ensures CurrentAfter(db, id, ch, ClientIndex.Update(db, tenant, id, ch))
  {
    var after, c := ClientIndex.Update(db, tenant, id, ch), Changed(db.clients[id], ch);
    if AsksForSync(db.clients[id], ch) {
      forall k | 0 <= k < |db.inbounds| && db.inbounds[k].tenant == tenant && db.inbounds[k].tag in c.inboundTags
        ensures CopyOf(c, db.inbounds[k].protocol) in after.inbounds[k].list
      {
        SyncReaches(db, tenant, id, ch, k, CopyOf(c, db.inbounds[k].protocol));
      }
    }
    if Current(db) { UpdateCurrentIff(db, tenant, id, ch); }
  }

  lemma NothingToRemove(inbounds: seq<Inbound>, tenant: string, email: string)
    ensures RemoveAll(inbounds, tenant, email, []) == inbounds
  {
  }
}
