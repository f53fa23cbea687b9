/** The batch services: generating the entries, and creating their rows port by port. */
module BatchServices {
  import opened Sums
  import opened Turns
  import opened Labels
  import opened BatchSpread
  import opened BatchRows

  datatype Entry = Entry(username: string, host: string, egressIp: string)

  /** 0 stands for a missing single port, None for a missing field. */
  datatype Request = Request(
    egressIps: Option<seq<string>>,
    portRange: Option<(int, int)>,
    count: int,
    oversellCount: int,
    single: bool,
    singlePort: int,
    ingressEqualsEgress: bool)

  /** An empty string stands for a node without public address. */
  datatype Node = Node(
    publicIp: string,
    activeIps: seq<string>,
    configIps: Option<seq<string>>,
    configRange: Option<(int, int)>)

  datatype Result<T> = Ok(value: T) | NodeNotFound | NoEgressIps | OverCapacity

  function EgressIps(dto: Request, node: Node): seq<string> {
    var given := if dto.egressIps.Some? then dto.egressIps.value else if node.configIps.Some? then node.configIps.value else [];
    var own := if given == [] && |node.activeIps| > 0 then node.activeIps else given;
    if own == [] && node.publicIp != "" then [node.publicIp] else own
  }

  function PortRange(dto: Request, node: Node): (int, int) {
    if dto.portRange.Some? then dto.portRange.value
    else if node.configRange.Some? then node.configRange.value else (10000, 60000)
  }

  function ModeOf(dto: Request, node: Node): PortMode {
    if dto.single then Fixed(if dto.singlePort != 0 then dto.singlePort else 1080)
    else Ranged(PortRange(dto, node).0, PortRange(dto, node).1)
  }

  function HostOf(dto: Request, node: Node, egressIp: string): string {
    if dto.ingressEqualsEgress then egressIp else if node.publicIp != "" then node.publicIp else "unknown"
  }

  /** Where the egress addresses come from: the request, then the node's settings, then its active addresses, then
      its public address. An empty list in the request hides the settings, but not the node's own addresses. */
  lemma EgressIpsFrom(dto: Request, node: Node)
    ensures dto.egressIps.Some? && dto.egressIps.value != [] ==> Some(EgressIps(dto, node)) == dto.egressIps
    ensures dto.egressIps == None && node.configIps.Some? && node.configIps.value != [] ==> Some(EgressIps(dto, node)) == node.configIps
    ensures NoneGiven(dto, node) && node.activeIps != [] ==> EgressIps(dto, node) == node.activeIps
    ensures NoneGiven(dto, node) && node.activeIps == [] ==>
              EgressIps(dto, node) == (if node.publicIp == "" then [] else [node.publicIp])
  {
  }

  predicate NoneGiven(dto: Request, node: Node) {
    dto.egressIps == Some([]) || (dto.egressIps == None && (node.configIps == None || node.configIps == Some([])))
  }

  /** A single port is the one given or 1080; otherwise the range of the request goes before that of the node, and
      10000 to 60000 is the last resort. */
  lemma ModeFrom(dto: Request, node: Node)
    ensures dto.single ==> ModeOf(dto, node) == Fixed(if dto.singlePort == 0 then 1080 else dto.singlePort)
    ensures !dto.single && dto.portRange.Some? ==> ModeOf(dto, node) == Ranged(dto.portRange.value.0, dto.portRange.value.1)
    ensures !dto.single && dto.portRange == None && node.configRange.Some? ==>
              ModeOf(dto, node) == Ranged(node.configRange.value.0, node.configRange.value.1)
    ensures !dto.single && dto.portRange == None && node.configRange == None ==> ModeOf(dto, node) == Ranged(10000, 60000)
  {
  }

  lemma HostFrom(dto: Request, node: Node, ip: string)
    ensures dto.ingressEqualsEgress ==> HostOf(dto, node, ip) == ip
    ensures !dto.ingressEqualsEgress && node.publicIp != "" ==> HostOf(dto, node, ip) == node.publicIp
    ensures !dto.ingressEqualsEgress && node.publicIp == "" ==> HostOf(dto, node, ip) == "unknown"
  {
  }

  function EntryAt(dto: Request, node: Node, number: nat, ip: string): Entry {
    Entry(Username(number, ip), HostOf(dto, node, ip), ip)
  }

  /** The entry that number `i` gets. */
  predicate IsEntry(dto: Request, node: Node, ips: seq<string>, i: nat, item: (int, Entry))
    requires ips != []
  {
    && item.0 == PortAt(ModeOf(dto, node), i)
    && item.1 == EntryAt(dto, node, i + 1, ips[i % |ips|])
  }

  predicate AreEntries(dto: Request, node: Node, preview: seq<(int, Entry)>)
    requires EgressIps(dto, node) != []
  {
    && |preview| == (if dto.count < 0 then 0 else dto.count)
    && EntriesSoFar(dto, node, EgressIps(dto, node), preview)
  }

  predicate EntriesSoFar(dto: Request, node: Node, ips: seq<string>, preview: seq<(int, Entry)>)
    requires ips != []
  {
    forall i :: 0 <= i < |preview| ==> IsEntry(dto, node, ips, i, preview[i])
  }

  /** What the port loops carry: the counter is the port the next ranged entry would get. */
  lemma CounterStep(mode: PortMode, counter: int, i: nat)
    requires mode.Ranged? ==> counter == PortAt(mode, i)
    ensures mode.Ranged? ==> Advance(mode.min, mode.max, counter) == PortAt(mode, i + 1)
  {
    if mode.Ranged? { AdvanceIsNextPlace(mode.min, mode.max, i); }
  }

  method ChooseEgressIps(dto: Request, node: Node) returns (egressIps: seq<string>)
    ensures egressIps == EgressIps(dto, node)
  {
    egressIps := if dto.egressIps.Some? then dto.egressIps.value else if node.configIps.Some? then node.configIps.value else [];
    if |egressIps| == 0 && |node.activeIps| > 0 { egressIps := node.activeIps; }
    if |egressIps| == 0 && node.publicIp != "" { egressIps := [node.publicIp]; }
  }

  method GenerateEntries(dto: Request, node: Node, egressIps: seq<string>) returns (preview: seq<(int, Entry)>)
    requires egressIps != []
    ensures |preview| == (if dto.count < 0 then 0 else dto.count) && EntriesSoFar(dto, node, egressIps, preview)
  {
    preview := [];
    ghost var mode := ModeOf(dto, node);
    var portRange := if dto.portRange.Some? then dto.portRange.value
                     else if node.configRange.Some? then node.configRange.value else (10000, 60000);
    var portCounter, userIndex, i := portRange.0, 1, 0;
    while i < dto.count
      invariant 0 <= i && (0 < i ==> i <= dto.count) && |preview| == i && userIndex == i + 1
      invariant mode.Ranged? ==> portCounter == PortAt(mode, i)
      invariant EntriesSoFar(dto, node, egressIps, preview)
    {
      CounterStep(mode, portCounter, i);
      var egressIp := egressIps[i % |egressIps|];
      var host := if dto.ingressEqualsEgress then egressIp else if node.publicIp != "" then node.publicIp else "unknown";
      var port: int;
      if dto.single {
        port := if dto.singlePort != 0 then dto.singlePort else 1080;
      } else {
        port := portCounter;
        portCounter := portCounter + 1;
        if portCounter > portRange.1 { portCounter := portRange.0; }
      }
      preview := preview + [(port, Entry(Username(userIndex, egressIp), host, egressIp))];
      userIndex := userIndex + 1;
      i := i + 1;
    }
  }

  method GenerateSocks5(found: Option<Node>, dto: Request) returns (r: Result<seq<(int, Entry)>>)
    ensures r == NodeNotFound <==> found == None
    ensures r == NoEgressIps <==> found.Some? && EgressIps(dto, found.value) == []
    ensures r == OverCapacity <==> found.Some? && EgressIps(dto, found.value) != []
                                   && |EgressIps(dto, found.value)| * dto.oversellCount * 1000 < dto.count
    ensures r.Ok? ==> found.Some? && EgressIps(dto, found.value) != [] && AreEntries(dto, found.value, r.value)
    ensures r.Ok? ==> forall i :: 0 <= i < |r.value| ==>
              r.value[i].1.egressIp == EgressIps(dto, found.value)[i % |EgressIps(dto, found.value)|]
  {
    if found == None { return NodeNotFound; }
    var node := found.value;
    var egressIps := ChooseEgressIps(dto, node);
    if |egressIps| == 0 { return NoEgressIps; }
    var totalSlots := |egressIps| * dto.oversellCount;
    if dto.count > totalSlots * 1000 { return OverCapacity; }
    var preview := GenerateEntries(dto, node, egressIps);
    r := Ok(preview);
  }

  // ---------- Creating the resources ----------

  /** A map that remembers the order of its keys. */
  method GroupByPort<T>(preview: seq<(int, T)>) returns (order: seq<int>, groups: map<int, seq<(int, T)>>)
    ensures order == FirstPorts(preview)
    ensures forall k :: 0 <= k < |order| ==> order[k] in groups && groups[order[k]] == OfPort(preview, order[k])
    ensures forall p :: p in groups ==> p in order
  {
    order, groups := [], map[];
    for i := 0 to |preview|
      invariant order == FirstPorts(preview[..i])
      invariant (forall k :: 0 <= k < |order| ==> order[k] in groups) && forall p :: p in groups ==> p in order
      invariant forall p :: p in groups ==> groups[p] == OfPort(preview[..i], p)
    {
      var item, before := preview[i], preview[..i];
      assert preview[..i + 1][..i] == before;
      FirstPortsIff(before, item.0);
      if item.0 !in groups {
        groups := groups[item.0 := []];
        order := order + [item.0];
      }
      groups := groups[item.0 := groups[item.0] + [item]];
    }
    assert preview[..|preview|] == preview;
  }

  /** The rows of the node and the tenant, and whether the node's cached configuration was dropped. */
  class Database {
    var rows: Rows
    var invalidated: bool

    constructor (rows: Rows)
      ensures this.rows == rows && !invalidated
    {
      this.rows, invalidated := rows, false;
    }

    method FindOrCreateInbound(tag: string, port: int) returns (ok: bool)
      modifies `rows
      ensures (rows, ok) == Perform(old(rows), OpenPort(tag, port))
    {
      if tag in rows.inbounds { return true; }
      ok := !(exists other :: other in rows.inbounds && rows.inbounds[other] == Inbound(port, ANY_ADDRESS));
      if ok { rows := rows.(inbounds := rows.inbounds[tag := Inbound(port, ANY_ADDRESS)]); }
    }

    method FindOrCreateOutbound(tag: string, target: Target)
      modifies `rows
      ensures rows == WithOutbound(old(rows), tag, target)
    {
      if tag !in rows.outbounds { rows := rows.(outbounds := rows.outbounds[tag := target]); }
    }

    method CreateClient(email: string, row: ClientRow) returns (ok: bool)
      modifies `rows
      ensures ok == (email !in old(rows).clients)
      ensures rows == if ok then old(rows).(clients := old(rows).clients[email := row]) else old(rows)
    {
      ok := email !in rows.clients;
      if ok { rows := rows.(clients := rows.clients[email := row]); }
    }
  }

  // ---------- Socks5 ----------

  function OpenSocks(port: int): Step {
    OpenPort(SocksTag(port), port)
  }

  function AddSocks(item: (int, Entry)): Step {
    AddClient(item.1.username, ClientRow(SocksTag(item.0), DirectTag(item.1.egressIp)), Direct(item.1.egressIp))
  }

  function SocksSteps(preview: seq<(int, Entry)>): seq<Step> {
    BatchSteps(OpenSocks, AddSocks, preview)
  }

  /** Nothing stands in the way of an entry: its email is new to the tenant, and the inbound of its port exists
      or no other inbound of the node holds the port. */
  predicate SocksFree(t: Rows, item: (int, Entry)) {
    && item.1.username !in t.clients
    && (SocksTag(item.0) in t.inbounds || !Held(t.inbounds, item.0))
  }

  lemma SocksOpens()
    ensures Opens(OpenSocks) && AddsClients(AddSocks)
  {
    forall p, q ensures OpenSocks(p).tag == OpenSocks(q).tag ==> p == q { SocksTagInjective(p, q); }
  }

  /** The entries of one batch never share a user name. */
  lemma UsernamesApart(dto: Request, node: Node, preview: seq<(int, Entry)>)
    requires EgressIps(dto, node) != [] && AreEntries(dto, node, preview)
    ensures Distinct(MapAll((x: (int, Entry)) => EmailOf(AddSocks(x)), preview))
  {
    var emails := MapAll((x: (int, Entry)) => EmailOf(AddSocks(x)), preview);
    forall i, j | 0 <= i < j < |preview| ensures emails[i] != emails[j] {
      UsernameNumber(i + 1, preview[i].1.egressIp, j + 1, preview[j].1.egressIp);
      assert IsEntry(dto, node, EgressIps(dto, node), i, preview[i]) && IsEntry(dto, node, EgressIps(dto, node), j, preview[j]);
    }
  }

  /** Exactly when all generated entries become clients. */
  lemma SocksDoneIff(dto: Request, node: Node, preview: seq<(int, Entry)>, t: Rows)
    requires EgressIps(dto, node) != [] && AreEntries(dto, node, preview)
    ensures AllDone(t, SocksSteps(preview)) <==> forall x :: x in preview ==> SocksFree(t, x)
  {
    SocksOpens();
    UsernamesApart(dto, node, preview);
    BatchDoneIff(OpenSocks, AddSocks, t, preview);
    forall x ensures EntryFree(OpenSocks, AddSocks, t, x) <==> SocksFree(t, x) { }
  }

  /** Then every entry has become one client, under the inbound tag of its port and the outbound tag of its
      address, and no other client has changed. */
  lemma SocksClients(preview: seq<(int, Entry)>, t: Rows, email: string, row: ClientRow)
    requires AllDone(t, SocksSteps(preview))
    ensures HasClient(PerformAll(t, SocksSteps(preview)).0, email, row)
       <==> HasClient(t, email, row) || exists x :: x in preview && x.1.username == email
                                                && row == ClientRow(SocksTag(x.0), DirectTag(x.1.egressIp))
  {
    SocksOpens();
    BatchClients(OpenSocks, AddSocks, t, preview, email, row);
    forall x ensures MakesClient(AddSocks(x), email, row)
                <==> x.1.username == email && row == ClientRow(SocksTag(x.0), DirectTag(x.1.egressIp)) { }
  }

  /** The rows found under the tags of an entry have its port and its address. */
  predicate SocksRowsFit(t: Rows, item: (int, Entry)) {
    && (SocksTag(item.0) in t.inbounds ==> t.inbounds[SocksTag(item.0)].port == item.0)
    && (DirectTag(item.1.egressIp) in t.outbounds ==> t.outbounds[DirectTag(item.1.egressIp)] == Direct(item.1.egressIp))
  }

  ghost predicate SocksLead(t: Rows, preview: seq<(int, Entry)>) {
    forall x :: x in preview ==> Leads(t, x.1.username, x.0, Direct(x.1.egressIp))
  }

  ghost predicate SocksFit(t: Rows, preview: seq<(int, Entry)>) {
    forall x :: x in preview ==> SocksRowsFit(t, x)
  }

  /** No two addresses have one outbound tag. */
  ghost predicate AddressesApart(preview: seq<(int, Entry)>) {
    forall x, y :: x in preview && y in preview && DirectTag(x.1.egressIp) == DirectTag(y.1.egressIp) ==> x.1.egressIp == y.1.egressIp
  }

  lemma SocksFitIff(preview: seq<(int, Entry)>, t: Rows)
    ensures SocksFit(t, preview) <==> AllFit(OpenSocks, AddSocks, t, preview)
  {
    forall x: (int, Entry) ensures RowsFit(t, OpenSocks(x.0)) && RowsFit(t, AddSocks(x)) <==> SocksRowsFit(t, x) { }
  }

  /** Rows are found by tag alone. Every client comes in on its own port and goes out from its own address
      exactly when the rows found are such rows, and no two addresses of the batch share a tag. */
  lemma SocksLeadIff(preview: seq<(int, Entry)>, t: Rows)
    requires AllDone(t, SocksSteps(preview))
    ensures SocksLead(PerformAll(t, SocksSteps(preview)).0, preview) <==> SocksFit(t, preview) && AddressesApart(preview)
  {
    SocksOpens();
    BatchLeadIff(OpenSocks, AddSocks, t, preview);
    SocksFitIff(preview, t);
  }

  /** Addresses without a dash never share a tag, so only the rows found matter for them. */
  lemma DottedSocksLeadIff(preview: seq<(int, Entry)>, t: Rows)
    requires AllDone(t, SocksSteps(preview)) && forall x :: x in preview ==> '-' !in x.1.egressIp
    ensures SocksLead(PerformAll(t, SocksSteps(preview)).0, preview) <==> SocksFit(t, preview)
  {
    SocksLeadIff(preview, t);
    forall x, y | x in preview && y in preview && DirectTag(x.1.egressIp) == DirectTag(y.1.egressIp)
      ensures x.1.egressIp == y.1.egressIp
    {
      DirectTagInjective(x.1.egressIp, y.1.egressIp);
    }
  }

  /** User names start over with every batch. A batch after one whose first address ended alike breaks off at
      its first client, as long as that client is there: it leaves the inbound of its first port and the
      outbound of its first address, found or new, and no client. */
  lemma SecondBatchFails(first: seq<(int, Entry)>, t: Rows, second: seq<(int, Entry)>, t2: Rows)
    requires first != [] && AllDone(t, SocksSteps(first))
    requires forall email :: email in PerformAll(t, SocksSteps(first)).0.clients ==> email in t2.clients
    requires second != [] && second[0].1.username == first[0].1.username
    ensures !AllDone(t2, SocksSteps(second)) && PerformAll(t2, SocksSteps(second)).0.clients == t2.clients
    ensures PerformAll(t2, SocksSteps(second)) == LeftByFirst(t2, OpenSocks(second[0].0), AddSocks(second[0]))
  {
    var row := ClientRow(SocksTag(first[0].0), DirectTag(first[0].1.egressIp));
    assert first[0] in first;
    SocksClients(first, t, first[0].1.username, row);
    FirstEmailTaken(OpenSocks, AddSocks, t2, second);
  }

  /** In particular no request can be repeated, whatever it is: its second run creates nothing at all. */
  lemma RepeatedBatchFails(dto: Request, node: Node, first: seq<(int, Entry)>, again: seq<(int, Entry)>, t: Rows)
    requires EgressIps(dto, node) != [] && 0 < dto.count
    requires AreEntries(dto, node, first) && AreEntries(dto, node, again) && AllDone(t, SocksSteps(first))
    ensures var left := PerformAll(t, SocksSteps(first)).0;
            PerformAll(left, SocksSteps(again)) == (left, 1) && !AllDone(left, SocksSteps(again))
  {
    var left := PerformAll(t, SocksSteps(first)).0;
    SameFirst(dto, node, first, again);
    FirstLeft(first, t);
    SecondBatchFails(first, t, again, left);
    NothingLeft(left, first[0]);
  }

  /** The rows of a step of a batch that went through are there. */
  lemma LeftUnder(t: Rows, steps: seq<Step>, step: Step, tag: string)
    requires AllDone(t, steps) && step in steps
    ensures OpensTag(step, tag) ==> tag in PerformAll(t, steps).0.inbounds
    ensures OffersTag(step, tag) ==> tag in PerformAll(t, steps).0.outbounds
  {
    InboundsLeft(t, steps, tag);
    OutboundsLeft(t, steps, tag);
    assert steps[..|steps|] == steps;
  }

  /** A batch that went through has left the rows of its first entry. */
  lemma FirstLeft(first: seq<(int, Entry)>, t: Rows)
    requires first != [] && AllDone(t, SocksSteps(first))
    ensures var left := PerformAll(t, SocksSteps(first)).0;
            SocksTag(first[0].0) in left.inbounds && DirectTag(first[0].1.egressIp) in left.outbounds
  {
    var rest := BatchHead(OpenSocks, AddSocks, first);
    assert SocksSteps(first)[0] == OpenSocks(first[0].0) && SocksSteps(first)[1] == AddSocks(first[0]);
    LeftUnder(t, SocksSteps(first), SocksSteps(first)[0], SocksTag(first[0].0));
    LeftUnder(t, SocksSteps(first), SocksSteps(first)[1], DirectTag(first[0].1.egressIp));
  }

  lemma NothingLeft(t: Rows, item: (int, Entry))
    requires SocksTag(item.0) in t.inbounds && DirectTag(item.1.egressIp) in t.outbounds
    ensures LeftByFirst(t, OpenSocks(item.0), AddSocks(item)) == (t, 1)
  {
  }

  const NO_ROWS := Rows(map[], map[], map[])

  /** On a node without inbounds every request whose user names are new to the tenant goes through once, and
      only once. */
  lemma OnlyOnce(dto: Request, node: Node, first: seq<(int, Entry)>, again: seq<(int, Entry)>, t: Rows)
    requires EgressIps(dto, node) != [] && 0 < dto.count
    requires AreEntries(dto, node, first) && AreEntries(dto, node, again)
    requires t.inbounds == map[] && forall x :: x in first ==> x.1.username !in t.clients
    ensures AllDone(t, SocksSteps(first)) && !AllDone(PerformAll(t, SocksSteps(first)).0, SocksSteps(again))
  {
    SocksDoneIff(dto, node, first, t);
    RepeatedBatchFails(dto, node, first, again, t);
  }

  lemma SameFirst(dto: Request, node: Node, first: seq<(int, Entry)>, again: seq<(int, Entry)>)
    requires EgressIps(dto, node) != [] && 0 < dto.count
    requires AreEntries(dto, node, first) && AreEntries(dto, node, again)
    ensures first != [] && again != [] && first[0] == again[0]
  {
    assert IsEntry(dto, node, EgressIps(dto, node), 0, first[0]) && IsEntry(dto, node, EgressIps(dto, node), 0, again[0]);
  }

  /** What is remembered of the outbounds already looked up. */
  predicate KnownGroups(egressGroups: map<string, string>, t: Rows) {
    forall ip :: ip in egressGroups ==> egressGroups[ip] == DirectTag(ip) && egressGroups[ip] in t.outbounds
  }

  /** The steps of a port with its entries. */
  predicate IsGroup(port: int, items: seq<(int, Entry)>, steps: seq<Step>) {
    && |steps| == |items| + 1 && steps[0] == OpenSocks(port)
    && forall i :: 0 <= i < |items| ==> steps[i + 1] == AddSocks(items[i])
  }

  lemma StepsOfGroup(port: int, items: seq<(int, Entry)>)
    ensures IsGroup(port, items, GroupSteps(OpenSocks, AddSocks, port, items))
  {
    var steps := GroupSteps(OpenSocks, AddSocks, port, items);
    var adds := MapAll(AddSocks, items);
    assert steps == [OpenSocks(port)] + adds;
    forall i | 0 <= i < |items| ensures steps[i + 1] == AddSocks(items[i]) { assert steps[i + 1] == adds[i]; }
  }

  class BatchSocks5Service {
    const db: Database

    constructor (db: Database)
      ensures this.db == db
    {
      this.db := db;
    }

    /** The outbound of an entry, unless it is known already, and its client. */
    method CreateEntry(item: (int, Entry), known: map<string, string>) returns (ok: bool, egressGroups: map<string, string>)
      requires KnownGroups(known, db.rows)
      modifies db`rows
      ensures (db.rows, ok) == Perform(old(db.rows), AddSocks(item)) && KnownGroups(egressGroups, db.rows)
    {
      egressGroups := known;
      var ip := item.1.egressIp;
      var outboundTag := DirectTag(ip);
      if ip in egressGroups {
        outboundTag := egressGroups[ip];
      } else {
        db.FindOrCreateOutbound(outboundTag, Direct(ip));
        egressGroups := egressGroups[ip := outboundTag];
      }
      ok := db.CreateClient(item.1.username, ClientRow(SocksTag(item.0), outboundTag));
    }

    /** The port's inbound, and every entry of the port, up to the first statement that fails. */
    method CreateGroup(port: int, items: seq<(int, Entry)>, known: map<string, string>, ghost steps: seq<Step>)
      returns (ok: bool, egressGroups: map<string, string>)
      requires KnownGroups(known, db.rows) && IsGroup(port, items, steps)
      modifies db`rows
      ensures db.rows == PerformAll(old(db.rows), steps).0 && ok == AllDone(old(db.rows), steps)
      ensures KnownGroups(egressGroups, db.rows)
    {
      egressGroups := known;
      ghost var before := db.rows;
      ReachedNext(before, steps, 0, before);
      ok := db.FindOrCreateInbound(SocksTag(port), port);
      if !ok { return; }
      for i := 0 to |items|
        invariant Reached(before, steps, i + 1, db.rows) && KnownGroups(egressGroups, db.rows)
      {
        ReachedNext(before, steps, i + 1, db.rows);
        ok, egressGroups := CreateEntry(items[i], egressGroups);
        if !ok { return; }
      }
      ReachedEnd(before, steps, db.rows);
      ok := true;
    }

    /** Group after group, in the order of the map. The cache is dropped only at the end. */
    method CreateResources(preview: seq<(int, Entry)>) returns (ok: bool)
      modifies db
      ensures db.rows == PerformAll(old(db.rows), SocksSteps(preview)).0
      ensures ok == AllDone(old(db.rows), SocksSteps(preview))
      ensures db.invalidated == (old(db.invalidated) || ok)
    {
      var order, groups := GroupByPort(preview);
      var egressGroups: map<string, string> := map[];
      ghost var before, done := db.rows, [];
      for g := 0 to |order|
        invariant done == StepsFor(OpenSocks, AddSocks, order[..g], preview) && PerformAll(before, done) == (db.rows, |done|)
        invariant KnownGroups(egressGroups, db.rows) && db.invalidated == old(db.invalidated)
      {
        StepsGrow(OpenSocks, AddSocks, order, g, preview);
        ghost var group := GroupSteps(OpenSocks, AddSocks, order[g], groups[order[g]]);
        StepsOfGroup(order[g], groups[order[g]]);
        GroupAfter(before, done, group, db.rows);
        done := done + group;
        ok, egressGroups := CreateGroup(order[g], groups[order[g]], egressGroups, group);
        if !ok {
          BatchBroken(OpenSocks, AddSocks, before, order, g + 1, preview);
          return;
        }
      }
      assert order[..|order|] == order;
      db.invalidated := true;
      ok := true;
    }
  }

  // ---------- Relays ----------

  datatype Socks5 = Socks5(ip: string, port: int, username: string, password: string)

  /** The uuid tells relay items apart. */
  datatype RelayItem = RelayItem(uuid: string, ip: string, targetPort: int)

  function ItemAt(list: seq<Socks5>, uuids: seq<string>, mode: PortMode, i: nat): (int, RelayItem)
    requires i < |list| == |uuids|
  {
    (PortAt(mode, i), RelayItem(uuids[i], list[i].ip, list[i].port))
  }

  /** The i-th item of a preview stands for the i-th proxy. */
  predicate AreItems(list: seq<Socks5>, uuids: seq<string>, mode: PortMode, preview: seq<(int, RelayItem)>) {
    |list| == |uuids| == |preview| && forall i :: 0 <= i < |list| ==> preview[i] == ItemAt(list, uuids, mode, i)
  }

  /** The shared port, 443 when missing, or the range of the request, of the node, or the default. */
  function RelayModeOf(shared: bool, sharedPort: int, given: Option<(int, int)>, configured: Option<(int, int)>): PortMode {
    var range := if given.Some? then given.value else if configured.Some? then configured.value else (10000, 60000);
    if shared then Fixed(if sharedPort != 0 then sharedPort else 443) else Ranged(range.0, range.1)
  }

  /** A shared port is the one given or 443; otherwise the range of the request goes before that of the node. */
  lemma RelayModeFrom(shared: bool, sharedPort: int, given: Option<(int, int)>, configured: Option<(int, int)>)
    ensures shared ==> RelayModeOf(shared, sharedPort, given, configured) == Fixed(if sharedPort == 0 then 443 else sharedPort)
    ensures !shared && given.Some? ==> RelayModeOf(shared, sharedPort, given, configured) == Ranged(given.value.0, given.value.1)
    ensures !shared && given == None && configured.Some? ==>
              RelayModeOf(shared, sharedPort, given, configured) == Ranged(configured.value.0, configured.value.1)
    ensures !shared && given == None && configured == None ==> RelayModeOf(shared, sharedPort, given, configured) == Ranged(10000, 60000)
  {
  }

  method GenerateRelay(list: seq<Socks5>, uuids: seq<string>, shared: bool, sharedPort: int,
                       given: Option<(int, int)>, configured: Option<(int, int)>)
    returns (preview: seq<(int, RelayItem)>)
    requires |uuids| == |list|
    ensures AreItems(list, uuids, RelayModeOf(shared, sharedPort, given, configured), preview)
  {
    var range := if given.Some? then given.value else if configured.Some? then configured.value else (10000, 60000);
    ghost var mode := RelayModeOf(shared, sharedPort, given, configured);
    preview := [];
    var portCounter := range.0;
    for i := 0 to |list|
      invariant |preview| == i && (mode.Ranged? ==> portCounter == PortAt(mode, i))
      invariant forall j :: 0 <= j < i ==> preview[j] == ItemAt(list, uuids, mode, j)
    {
      CounterStep(mode, portCounter, i);
      var port: int;
      if shared {
        port := if sharedPort != 0 then sharedPort else 443;
      } else {
        port := portCounter;
        portCounter := portCounter + 1;
        if portCounter > range.1 { portCounter := range.0; }
      }
      preview := preview + [(port, RelayItem(uuids[i], list[i].ip, list[i].port))];
    }
  }

  /** The first place of an item, or the length of the list. */
  function Index<T(==)>(s: seq<T>, x: T): (i: nat)
    ensures i <= |s| && (i < |s| ==> s[i] == x) && forall j :: 0 <= j < i ==> s[j] != x
  {
    if s == [] || s[0] == x then 0 else 1 + Index(s[1..], x)
  }

  method IndexOf<T(==)>(s: seq<T>, x: T) returns (i: nat)
    ensures i == Index(s, x)
  {
    i := 0;
    while i < |s| && s[i] != x
      invariant i <= |s| && forall j :: 0 <= j < i ==> s[j] != x
    {
      i := i + 1;
    }
    ghost var k := Index(s, x);
    assert !(k < i) && !(i < k);
  }

  const NO_PROXY := Socks5("", 0, "", "")

  /** The proxy of an item, looked up by the place of the item in the preview. */
  function ProxyOf(list: seq<Socks5>, preview: seq<(int, RelayItem)>, item: (int, RelayItem)): Socks5 {
    var i := Index(preview, item);
    if i < |list| then list[i] else NO_PROXY
  }

  function OpenRelay(protocol: string): int -> Step {
    (port: int) => OpenPort(RelayTag(protocol, port), port)
  }

  function ViaOf(s: Socks5): Target {
    Via(s.ip, s.port, s.username, s.password)
  }

  function RelayStep(protocol: string, s: Socks5, item: (int, RelayItem)): Step {
    AddClient(RelayEmail(item.1.uuid), ClientRow(RelayTag(protocol, item.0), ProxyTag(s.ip, s.port)), ViaOf(s))
  }

  function AddRelay(protocol: string, list: seq<Socks5>, preview: seq<(int, RelayItem)>): ((int, RelayItem)) -> Step {
    (item: (int, RelayItem)) => RelayStep(protocol, ProxyOf(list, preview, item), item)
  }

  function RelaySteps(protocol: string, list: seq<Socks5>, preview: seq<(int, RelayItem)>): seq<Step> {
    BatchSteps(OpenRelay(protocol), AddRelay(protocol, list, preview), preview)
  }

  /** Looking an item up again finds the proxy it was generated for. */
  lemma ItemFindsItsProxy(protocol: string, list: seq<Socks5>, uuids: seq<string>, mode: PortMode, preview: seq<(int, RelayItem)>, i: nat)
    requires i < |list| && AreItems(list, uuids, mode, preview) && Distinct(uuids)
    ensures AddRelay(protocol, list, preview)(preview[i]) == RelayStep(protocol, list[i], preview[i])
  {
    var k := Index(preview, preview[i]);
    assert k <= i;
  }

  predicate RelayFree(protocol: string, t: Rows, item: (int, RelayItem)) {
    && RelayEmail(item.1.uuid) !in t.clients
    && (RelayTag(protocol, item.0) in t.inbounds || !Held(t.inbounds, item.0))
  }

  lemma RelayOpens(protocol: string, list: seq<Socks5>, preview: seq<(int, RelayItem)>)
    ensures Opens(OpenRelay(protocol)) && AddsClients(AddRelay(protocol, list, preview))
  {
    forall p, q ensures OpenRelay(protocol)(p).tag == OpenRelay(protocol)(q).tag ==> p == q { RelayTagInjective(protocol, p, q); }
  }

  function RelayEmails(preview: seq<(int, RelayItem)>): (r: seq<string>)
    ensures |r| == |preview| && forall i :: 0 <= i < |r| ==> r[i] == RelayEmail(preview[i].1.uuid)
  {
    seq(|preview|, i requires 0 <= i < |preview| => RelayEmail(preview[i].1.uuid))
  }

  /** Exactly when every item becomes a client: its port and its email are free, and no two uuids begin with
      the same eight characters. */
  lemma RelayDoneIff(protocol: string, list: seq<Socks5>, preview: seq<(int, RelayItem)>, t: Rows)
    ensures AllDone(t, RelaySteps(protocol, list, preview))
       <==> (forall x :: x in preview ==> RelayFree(protocol, t, x)) && Distinct(RelayEmails(preview))
  {
    var open, add := OpenRelay(protocol), AddRelay(protocol, list, preview);
    RelayOpens(protocol, list, preview);
    BatchDoneIff(open, add, t, preview);
    forall x ensures EntryFree(open, add, t, x) <==> RelayFree(protocol, t, x) { }
    assert MapAll((x: (int, RelayItem)) => EmailOf(add(x)), preview) == RelayEmails(preview);
  }

  lemma RelayClients(protocol: string, list: seq<Socks5>, preview: seq<(int, RelayItem)>, t: Rows, email: string, row: ClientRow)
    requires AllDone(t, RelaySteps(protocol, list, preview))
    ensures HasClient(PerformAll(t, RelaySteps(protocol, list, preview)).0, email, row)
       <==> HasClient(t, email, row) || exists x :: x in preview && MakesClient(AddRelay(protocol, list, preview)(x), email, row)
  {
    RelayOpens(protocol, list, preview);
    BatchClients(OpenRelay(protocol), AddRelay(protocol, list, preview), t, preview, email, row);
  }

  /** The rows found under the tags of a port and a proxy have that port and lead to that proxy. */
  predicate RelayRowsFit(protocol: string, t: Rows, port: int, s: Socks5) {
    && (RelayTag(protocol, port) in t.inbounds ==> t.inbounds[RelayTag(protocol, port)].port == port)
    && (ProxyTag(s.ip, s.port) in t.outbounds ==> t.outbounds[ProxyTag(s.ip, s.port)] == ViaOf(s))
  }

  predicate SameProxy(s: Socks5, other: Socks5) {
    ProxyTag(s.ip, s.port) == ProxyTag(other.ip, other.port) ==> ViaOf(s) == ViaOf(other)
  }

  ghost predicate RelayLead(t: Rows, list: seq<Socks5>, uuids: seq<string>, mode: PortMode)
    requires |list| == |uuids|
  {
    forall i :: 0 <= i < |list| ==>
      Leads(t, RelayEmail(uuids[i]), PortAt(mode, i), Via(list[i].ip, list[i].port, list[i].username, list[i].password))
  }

  lemma ItemsApart(protocol: string, list: seq<Socks5>, uuids: seq<string>, mode: PortMode, preview: seq<(int, RelayItem)>, t: Rows)
    requires AreItems(list, uuids, mode, preview) && AllDone(t, RelaySteps(protocol, list, preview))
    ensures forall i :: 0 <= i < |list| ==> AddRelay(protocol, list, preview)(preview[i]) == RelayStep(protocol, list[i], preview[i])
  {
    RelayDoneIff(protocol, list, preview, t);
    forall i, j | 0 <= i < j < |uuids| ensures uuids[i] != uuids[j] { assert RelayEmails(preview)[i] != RelayEmails(preview)[j]; }
    forall i | 0 <= i < |list| ensures AddRelay(protocol, list, preview)(preview[i]) == RelayStep(protocol, list[i], preview[i]) {
      ItemFindsItsProxy(protocol, list, uuids, mode, preview, i);
    }
  }

  ghost predicate RelayFit(protocol: string, t: Rows, list: seq<Socks5>, mode: PortMode) {
    forall i :: 0 <= i < |list| ==> RelayRowsFit(protocol, t, PortAt(mode, i), list[i])
  }

  /** No two proxies of a request share an address and a port but not the account. */
  predicate ProxiesApart(list: seq<Socks5>) {
    forall i, j :: 0 <= i < |list| && 0 <= j < |list| ==> SameProxy(list[i], list[j])
  }

  /** What the steps of a preview are, proxy by proxy. */
  ghost predicate StepsByProxy(protocol: string, list: seq<Socks5>, uuids: seq<string>, mode: PortMode,
                               preview: seq<(int, RelayItem)>, add: ((int, RelayItem)) -> Step) {
    && AreItems(list, uuids, mode, preview)
    && forall i :: 0 <= i < |list| ==> add(preview[i]) == RelayStep(protocol, list[i], preview[i])
  }

  lemma RelayFitIff(protocol: string, list: seq<Socks5>, uuids: seq<string>, mode: PortMode, preview: seq<(int, RelayItem)>,
                    add: ((int, RelayItem)) -> Step, t: Rows)
    requires StepsByProxy(protocol, list, uuids, mode, preview, add)
    ensures RelayFit(protocol, t, list, mode) <==> AllFit(OpenRelay(protocol), add, t, preview)
  {
    var open := OpenRelay(protocol);
    forall i | 0 <= i < |list|
      ensures RowsFit(t, open(preview[i].0)) && RowsFit(t, add(preview[i])) <==> RelayRowsFit(protocol, t, PortAt(mode, i), list[i])
    {
      assert preview[i].0 == PortAt(mode, i);
    }
    if AllFit(open, add, t, preview) {
      forall i | 0 <= i < |list| ensures RelayRowsFit(protocol, t, PortAt(mode, i), list[i]) { assert preview[i] in preview; }
    }
  }

  lemma ProxiesApartIff(protocol: string, list: seq<Socks5>, uuids: seq<string>, mode: PortMode, preview: seq<(int, RelayItem)>,
                        add: ((int, RelayItem)) -> Step)
    requires StepsByProxy(protocol, list, uuids, mode, preview, add)
    ensures ProxiesApart(list) <==> AllAgree(add, preview)
  {
    if AllAgree(add, preview) {
      forall i, j | 0 <= i < |list| && 0 <= j < |list| ensures SameProxy(list[i], list[j]) {
        assert preview[i] in preview && preview[j] in preview;
        assert SameWayOut(add(preview[i]), add(preview[j]));
      }
    }
    if ProxiesApart(list) {
      forall x, y | x in preview && y in preview ensures SameWayOut(add(x), add(y)) {
        var i :| 0 <= i < |preview| && preview[i] == x;
        var j :| 0 <= j < |preview| && preview[j] == y;
        assert SameProxy(list[i], list[j]);
      }
    }
  }

  /** An outbound is found by the address and port of its proxy and reused whatever its user name and password
      are. Every client goes through the proxy it was generated for exactly when the rows found are right, and
      no two proxies of the request share an address and a port but not the account. */
  lemma RelayLeadIff(protocol: string, list: seq<Socks5>, uuids: seq<string>, mode: PortMode, preview: seq<(int, RelayItem)>, t: Rows)
    requires AreItems(list, uuids, mode, preview) && AllDone(t, RelaySteps(protocol, list, preview))
    ensures RelayLead(PerformAll(t, RelaySteps(protocol, list, preview)).0, list, uuids, mode)
       <==> RelayFit(protocol, t, list, mode) && ProxiesApart(list)
  {
    var add := AddRelay(protocol, list, preview);
    RelayOpens(protocol, list, preview);
    ItemsApart(protocol, list, uuids, mode, preview, t);
    BatchLeadIff(OpenRelay(protocol), add, t, preview);
    RelayFitIff(protocol, list, uuids, mode, preview, add, t);
    ProxiesApartIff(protocol, list, uuids, mode, preview, add);
  }

  const ANN := Socks5("gw", 1000, "ann", "x")
  const BOB := Socks5("gw", 1000, "bob", "y")

  lemma TwoGoThrough(protocol: string, uuids: seq<string>, mode: PortMode, preview: seq<(int, RelayItem)>)
    requires AreItems([ANN, BOB], uuids, mode, preview) && RelayEmail(uuids[0]) != RelayEmail(uuids[1])
    ensures AllDone(NO_ROWS, RelaySteps(protocol, [ANN, BOB], preview))
  {
    RelayDoneIff(protocol, [ANN, BOB], preview, NO_ROWS);
    var emails := RelayEmails(preview);
    assert emails[0] == RelayEmail(uuids[0]) && emails[1] == RelayEmail(uuids[1]) && Distinct(emails);
  }

  /** Two accounts on one gateway: the batch goes through on an empty node, and yet not every client goes out
      under its own account. */
  lemma OneGatewayTwoAccounts(protocol: string, uuids: seq<string>, mode: PortMode, preview: seq<(int, RelayItem)>)
    requires AreItems([ANN, BOB], uuids, mode, preview) && RelayEmail(uuids[0]) != RelayEmail(uuids[1])
    ensures AllDone(NO_ROWS, RelaySteps(protocol, [ANN, BOB], preview))
    ensures !RelayLead(PerformAll(NO_ROWS, RelaySteps(protocol, [ANN, BOB], preview)).0, [ANN, BOB], uuids, mode)
  {
    TwoGoThrough(protocol, uuids, mode, preview);
    RelayLeadIff(protocol, [ANN, BOB], uuids, mode, preview, NO_ROWS);
    assert !SameProxy([ANN, BOB][0], [ANN, BOB][1]);
  }

  /** A relay batch cannot use a port that a socks batch of the node has opened. */
  lemma RelayAfterSocksFails(protocol: string, list: seq<Socks5>, preview: seq<(int, RelayItem)>, t: Rows, x: (int, RelayItem))
    requires x in preview && SocksTag(x.0) in t.inbounds && t.inbounds[SocksTag(x.0)] == Inbound(x.0, ANY_ADDRESS)
    requires RelayTag(protocol, x.0) !in t.inbounds
    ensures !AllDone(t, RelaySteps(protocol, list, preview))
  {
    RelayDoneIff(protocol, list, preview, t);
    assert Held(t.inbounds, x.0);
  }

  class BatchRelayService {
    const db: Database

    constructor (db: Database)
      ensures this.db == db
    {
      this.db := db;
    }

    method CreateEntry(protocol: string, list: seq<Socks5>, preview: seq<(int, RelayItem)>, item: (int, RelayItem)) returns (ok: bool)
      modifies db`rows
      ensures (db.rows, ok) == Perform(old(db.rows), AddRelay(protocol, list, preview)(item))
    {
      var i := IndexOf(preview, item);
      var s := if i < |list| then list[i] else NO_PROXY;
      db.FindOrCreateOutbound(ProxyTag(s.ip, s.port), Via(s.ip, s.port, s.username, s.password));
      ok := db.CreateClient(RelayEmail(item.1.uuid), ClientRow(RelayTag(protocol, item.0), ProxyTag(s.ip, s.port)));
    }

    method CreateGroup(protocol: string, list: seq<Socks5>, preview: seq<(int, RelayItem)>, port: int, items: seq<(int, RelayItem)>)
      returns (ok: bool)
      modifies db`rows
      ensures var steps := GroupSteps(OpenRelay(protocol), AddRelay(protocol, list, preview), port, items);
              db.rows == PerformAll(old(db.rows), steps).0 && ok == AllDone(old(db.rows), steps)
    {
      ghost var before, steps := db.rows, GroupSteps(OpenRelay(protocol), AddRelay(protocol, list, preview), port, items);
      ReachedNext(before, steps, 0, before);
      ok := db.FindOrCreateInbound(RelayTag(protocol, port), port);
      if !ok { return; }
      for i := 0 to |items|
        invariant Reached(before, steps, i + 1, db.rows)
      {
        ReachedNext(before, steps, i + 1, db.rows);
        ok := CreateEntry(protocol, list, preview, items[i]);
        if !ok { return; }
      }
      ReachedEnd(before, steps, db.rows);
      ok := true;
    }

    method CreateResources(protocol: string, list: seq<Socks5>, preview: seq<(int, RelayItem)>) returns (ok: bool)
      requires |preview| == |list|
      modifies db
      ensures db.rows == PerformAll(old(db.rows), RelaySteps(protocol, list, preview)).0
      ensures ok == AllDone(old(db.rows), RelaySteps(protocol, list, preview))
      ensures db.invalidated == (old(db.invalidated) || ok)
    {
      var order, groups := GroupByPort(preview);
      ghost var open, add := OpenRelay(protocol), AddRelay(protocol, list, preview);
      ghost var before, done := db.rows, [];
      for g := 0 to |order|
        invariant done == StepsFor(open, add, order[..g], preview) && PerformAll(before, done) == (db.rows, |done|)
        invariant db.invalidated == old(db.invalidated)
      {
        StepsGrow(open, add, order, g, preview);
        GroupAfter(before, done, GroupSteps(open, add, order[g], groups[order[g]]), db.rows);
        done := done + GroupSteps(open, add, order[g], groups[order[g]]);
        ok := CreateGroup(protocol, list, preview, order[g], groups[order[g]]);
        if !ok {
          BatchBroken(open, add, before, order, g + 1, preview);
          return;
        }
      }
      assert order[..|order|] == order;
      db.invalidated := true;
      ok := true;
    }
  }
}
