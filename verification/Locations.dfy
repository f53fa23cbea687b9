/** The location tree and the grouped inventory, two summaries of the same pool rows. */
module Locations {
  import opened Sums
  import opened Allocator

  // ---------- Where a row belongs ----------

  const ASIA := ["CN", "HK", "TW", "JP", "KR", "SG", "MY", "TH", "VN", "ID", "PH", "IN"]
  const EUROPE := ["GB", "DE", "FR", "NL", "IT", "ES", "RU", "PL", "UA"]
  const NORTH_AMERICA := ["US", "CA", "MX"]
  const SOUTH_AMERICA := ["BR", "AR", "CL"]
  const AFRICA := ["ZA", "EG"]
  const OCEANIA := ["AU", "NZ"]

  function KnownContinent(country: string): Option<string> {
    if country in ASIA then Some("AS")
    else if country in EUROPE then Some("EU")
    else if country in NORTH_AMERICA then Some("NA")
    else if country in SOUTH_AMERICA then Some("SA")
    else if country in AFRICA then Some("AF")
    else if country in OCEANIA then Some("OC")
    else None
  }

  predicate Given(code: Option<string>) {
    code.Some? && code.value != ""
  }

  function ContinentOf(p: Pool): string {
    if Given(p.continent) then p.continent.value
    else if KnownContinent(p.country).Some? then KnownContinent(p.country).value
    else "OT"
  }

  /** Continent, country and, when the row has one, city. */
  function PathOf(p: Pool): (path: seq<string>)
    ensures 2 <= |path| <= 3
  {
    [ContinentOf(p), p.country] + (if Given(p.city) then [p.city.value] else [])
  }

  /** The table of continents, read the other way round. */
  predicate OnContinent(country: string, code: string) {
    || (country in ASIA && code == "AS") || (country in EUROPE && code == "EU")
    || (country in NORTH_AMERICA && code == "NA") || (country in SOUTH_AMERICA && code == "SA")
    || (country in AFRICA && code == "AF") || (country in OCEANIA && code == "OC")
    || (country !in ASIA + EUROPE + NORTH_AMERICA + SOUTH_AMERICA + AFRICA + OCEANIA && code == "OT")
  }

  /** The row counts at this path: at its continent, given or looked up, at its country there, and at its city there
      if it has one. */
  predicate CountsAt(p: Pool, path: seq<string>) {
    && |path| <= 3
    && (0 < |path| ==> if p.continent.Some? && p.continent != Some("") then Some(path[0]) == p.continent else OnContinent(p.country, path[0]))
    && (1 < |path| ==> path[1] == p.country)
    && (2 < |path| ==> path[2] != "" && Some(path[2]) == p.city)
  }

  /** No country is in two lists, so the order of the table does not matter. */
  lemma ContinentsApart(country: string, code: string)
    ensures OnContinent(country, code) <==> code == if KnownContinent(country).Some? then KnownContinent(country).value else "OT"
  {
    ListsApart(country);
  }

  lemma ListsApart(country: string)
    ensures country in ASIA ==> country !in EUROPE + NORTH_AMERICA + SOUTH_AMERICA + AFRICA + OCEANIA
    ensures country in EUROPE ==> country !in NORTH_AMERICA + SOUTH_AMERICA + AFRICA + OCEANIA
    ensures country in NORTH_AMERICA ==> country !in SOUTH_AMERICA + AFRICA + OCEANIA
    ensures country in SOUTH_AMERICA ==> country !in AFRICA + OCEANIA
    ensures country in AFRICA ==> country !in OCEANIA
  {
  }

  /** A row counts at exactly the prefixes of its path. */
  lemma CountsAtIff(p: Pool, path: seq<string>)
    ensures CountsAt(p, path) <==> path <= PathOf(p)
  {
    if path != [] { ContinentsApart(p.country, path[0]); }
  }

  function Free(p: Pool): int {
    p.maxAllocations - p.currentAllocations
  }

  // ---------- The tree ----------

  datatype Node = Node(code: string, count: int, children: seq<Node>)

  predicate DistinctCodes(nodes: seq<Node>) {
    forall i, j :: 0 <= i < j < |nodes| ==> nodes[i].code != nodes[j].code
  }

  /** Siblings have distinct codes and every count is positive, at every level. */
  predicate WellFormed(nodes: seq<Node>) {
    && DistinctCodes(nodes)
    && forall n :: n in nodes ==> 0 < n.count && WellFormed(n.children)
  }

  /** The position of a code among siblings, or their number when it is absent. */
  function Position(nodes: seq<Node>, code: string): (i: nat)
    ensures i <= |nodes|
    ensures i < |nodes| ==> nodes[i].code == code
    ensures i == |nodes| ==> forall n :: n in nodes ==> n.code != code
  {
    if nodes == [] then 0
    else if nodes[0].code == code then 0
    else
      assert nodes == [nodes[0]] + nodes[1..];
      1 + Position(nodes[1..], code)
  }

  /** The count shown at a path; an absent node shows nothing. */
  function CountAt(nodes: seq<Node>, path: seq<string>): int
    requires path != []
    decreases |path|
  {
    var i := Position(nodes, path[0]);
    if i == |nodes| then 0
    else if |path| == 1 then nodes[i].count
    else CountAt(nodes[i].children, path[1..])
  }

  function SumCounts(nodes: seq<Node>): int {
    if nodes == [] then 0 else SumCounts(nodes[..|nodes| - 1]) + nodes[|nodes| - 1].count
  }

  lemma {:induction false} SumCountsUpdate(nodes: seq<Node>, i: nat, n: Node)
    requires i < |nodes|
    ensures SumCounts(nodes[i := n]) == SumCounts(nodes) - nodes[i].count + n.count
  {
    var k := |nodes| - 1;
    if i < k {
      assert nodes[i := n][..k] == nodes[..k][i := n];
      SumCountsUpdate(nodes[..k], i, n);
    } else {
      assert nodes[i := n][..k] == nodes[..k];
    }
  }

  lemma PositionUnique(nodes: seq<Node>, i: nat)
    requires DistinctCodes(nodes) && i < |nodes|
    ensures Position(nodes, nodes[i].code) == i
  {
  }

  /** After one credit of n along a path, every prefix of the path shows n more. */
  ghost predicate Credited(before: seq<Node>, after: seq<Node>, path: seq<string>, n: int) {
    forall p: seq<string> :: p != [] ==>
      CountAt(after, p) == CountAt(before, p) + (if p <= path then n else 0)
  }

  /** Find or create the node of each level of the path and add n to it. */
  method Credit(nodes: seq<Node>, path: seq<string>, n: int) returns (after: seq<Node>)
    requires WellFormed(nodes) && 0 < n && path != []
    ensures WellFormed(after) && Credited(nodes, after, path, n)
    ensures SumCounts(after) == SumCounts(nodes) + n
    decreases |path|
  {
    var i := 0;
    while i < |nodes| && nodes[i].code != path[0]
      invariant 0 <= i <= |nodes|
      invariant forall j :: 0 <= j < i ==> nodes[j].code != path[0]
    {
      i := i + 1;
    }
    var node := if i < |nodes| then nodes[i] else Node(path[0], 0, []);
    var children := node.children;
    if |path| > 1 {
      children := Credit(children, path[1..], n);
    }
    var credited := Node(path[0], node.count + n, children);
    if i < |nodes| {
      after := nodes[i := credited];
      SumCountsUpdate(nodes, i, credited);
    } else {
      after := nodes + [credited];
    }
    CreditCorrect(nodes, after, i, node, credited, path, n);
  }

  lemma CreditCorrect(nodes: seq<Node>, after: seq<Node>, i: nat, node: Node, credited: Node, path: seq<string>, n: int)
    requires WellFormed(nodes) && 0 < n && path != []
    requires i <= |nodes| && (i < |nodes| ==> nodes[i] == node) && (i == |nodes| ==> node == Node(path[0], 0, []))
    requires node.code == path[0] && forall j :: 0 <= j < i ==> nodes[j].code != path[0]
    requires credited.code == path[0] && credited.count == node.count + n
    requires if |path| == 1 then credited.children == node.children
             else WellFormed(credited.children) && Credited(node.children, credited.children, path[1..], n)
    requires after == if i < |nodes| then nodes[i := credited] else nodes + [credited]
    ensures WellFormed(after) && Credited(nodes, after, path, n)
  {
    assert WellFormed(node.children);
    assert DistinctCodes(after);
    forall m | m in after ensures 0 < m.count && WellFormed(m.children) {
      if m != credited { assert m in nodes; }
    }
    forall p: seq<string> | p != []
      ensures CountAt(after, p) == CountAt(nodes, p) + (if p <= path then n else 0)
    {
      CreditAt(nodes, after, i, node, credited, path, n, p);
    }
  }

  lemma CreditAt(nodes: seq<Node>, after: seq<Node>, i: nat, node: Node, credited: Node, path: seq<string>, n: int, p: seq<string>)
    requires DistinctCodes(nodes) && DistinctCodes(after) && path != [] && p != []
    requires i <= |nodes| && (i < |nodes| ==> nodes[i] == node) && (i == |nodes| ==> node == Node(path[0], 0, []))
    requires node.code == path[0] && forall j :: 0 <= j < i ==> nodes[j].code != path[0]
    requires credited.code == path[0] && credited.count == node.count + n
    requires if |path| == 1 then credited.children == node.children
             else Credited(node.children, credited.children, path[1..], n)
    requires after == if i < |nodes| then nodes[i := credited] else nodes + [credited]
    ensures CountAt(after, p) == CountAt(nodes, p) + (if p <= path then n else 0)
  {
    if p[0] == path[0] {
      PositionUnique(after, i);
      if i < |nodes| { PositionUnique(nodes, i); } else { assert Position(nodes, p[0]) == |nodes|; }
      if |p| > 1 {
        assert p <= path <==> |path| > 1 && p[1..] <= path[1..];
      }
    } else {
      var k := Position(nodes, p[0]);
      if k < |nodes| {
        PositionUnique(nodes, k);
        PositionUnique(after, k);
      } else {
        assert Position(after, p[0]) == |after|;
      }
    }
  }

  // ---------- The whole tree ----------

  /** What a row adds to every path above it. */
  function Under(p: Pool, path: seq<string>): int {
    if 0 < Free(p) && path <= PathOf(p) then Free(p) else 0
  }

  /** Free slots of the rows at or below a path; rows without room do not appear in the tree. */
  function FreeBelow(rows: seq<Pool>, path: seq<string>): int {
    if rows == [] then 0
    else
      var p := rows[|rows| - 1];
      FreeBelow(rows[..|rows| - 1], path) + Under(p, path)
  }

  method GetLocationsTree(rows: seq<Pool>) returns (tree: seq<Node>)
    ensures WellFormed(tree)
    ensures forall p: seq<string> :: p != [] ==> CountAt(tree, p) == FreeBelow(rows, p)
    ensures SumCounts(tree) == FreeBelow(rows, [])
  {
    tree := [];
    for i := 0 to |rows|
      invariant WellFormed(tree)
      invariant forall p: seq<string> :: p != [] ==> CountAt(tree, p) == FreeBelow(rows[..i], p)
      invariant SumCounts(tree) == FreeBelow(rows[..i], [])
    {
      assert rows[..i + 1][..i] == rows[..i];
      var available := rows[i].maxAllocations - rows[i].currentAllocations;
      if available <= 0 {
        continue;
      }
      ghost var before := tree;
      tree := Credit(tree, PathOf(rows[i]), available);
    }
    assert rows[..|rows|] == rows;
  }

  // ---------- Levels add up ----------

  /** Free slots of the rows whose own path is exactly this one. */
  function FreeAt(rows: seq<Pool>, path: seq<string>): int {
    if rows == [] then 0
    else
      var p := rows[|rows| - 1];
      FreeAt(rows[..|rows| - 1], path) + (if 0 < Free(p) && path == PathOf(p) then Free(p) else 0)
  }

  ghost function FreeByCode(rows: seq<Pool>, path: seq<string>, codes: seq<string>): (s: seq<int>)
    ensures |s| == |codes|
    ensures forall i :: 0 <= i < |codes| ==> s[i] == FreeBelow(rows, path + [codes[i]])
  {
    seq(|codes|, i requires 0 <= i < |codes| => FreeBelow(rows, path + [codes[i]]))
  }

  /** What a row adds below one of the next codes. */
  function Below(p: Pool, path: seq<string>, code: string): int {
    var full := PathOf(p);
    if 0 < Free(p) && path < full && full[|path|] == code then Free(p) else 0
  }

  lemma BelowIsUnder(p: Pool, path: seq<string>, code: string)
    ensures Under(p, path + [code]) == Below(p, path, code)
  {
  }

  lemma RowBelow(rows: seq<Pool>, path: seq<string>, code: string)
    requires rows != []
    ensures FreeBelow(rows, path + [code]) == FreeBelow(rows[..|rows| - 1], path + [code]) + Below(rows[|rows| - 1], path, code)
  {
    BelowIsUnder(rows[|rows| - 1], path, code);
  }

  lemma {:induction false} AddsAtOne(prev: seq<int>, now: seq<int>, i: nat, amount: int)
    requires |now| == |prev| && i < |prev|
    requires forall k :: 0 <= k < |prev| ==> now[k] == if k == i then prev[k] + amount else prev[k]
    ensures Sum(now) == Sum(prev) + amount
    decreases |prev|
  {
    var n := |prev| - 1;
    if i == n {
      assert now[..n] == prev[..n];
    } else {
      AddsAtOne(prev[..n], now[..n], i, amount);
    }
  }

  /** One row lies below exactly one of the next codes, unless it stops at the path. */
  lemma RowByCode(rows: seq<Pool>, path: seq<string>, codes: seq<string>)
    requires rows != [] && Distinct(codes)
    requires var full := PathOf(rows[|rows| - 1]);
             path < full && 0 < Free(rows[|rows| - 1]) ==> full[|path|] in codes
    ensures var p := rows[|rows| - 1];
            Sum(FreeByCode(rows, path, codes))
            == Sum(FreeByCode(rows[..|rows| - 1], path, codes))
               + (if 0 < Free(p) && path < PathOf(p) then Free(p) else 0)
  {
    var p := rows[|rows| - 1];
    var full := PathOf(p);
    var prev, now := FreeByCode(rows[..|rows| - 1], path, codes), FreeByCode(rows, path, codes);
    forall i | 0 <= i < |codes| ensures now[i] == prev[i] + Below(p, path, codes[i]) { RowBelow(rows, path, codes[i]); }
    if 0 < Free(p) && path < full {
      var i :| 0 <= i < |codes| && codes[i] == full[|path|];
      AddsAtOne(prev, now, i, Free(p));
    } else {
      assert now == prev;
    }
  }

  lemma {:induction false} CodesAddUp(rows: seq<Pool>, path: seq<string>, codes: seq<string>)
    requires Distinct(codes)
    requires forall p :: p in rows && 0 < Free(p) && path < PathOf(p) ==> PathOf(p)[|path|] in codes
    ensures Sum(FreeByCode(rows, path, codes)) == FreeBelow(rows, path) - FreeAt(rows, path)
    decreases |rows|
  {
    if rows == [] {
      ZeroSum(FreeByCode([], path, codes));
    } else {
      var n := |rows| - 1;
      assert rows == rows[..n] + [rows[n]];
      CodesAddUp(rows[..n], path, codes);
      RowByCode(rows, path, codes);
      assert path <= PathOf(rows[n]) <==> path < PathOf(rows[n]) || path == PathOf(rows[n]);
    }
  }

  lemma {:induction false} ZeroSum(s: seq<int>)
    requires forall i :: 0 <= i < |s| ==> s[i] == 0
    ensures Sum(s) == 0
  {
    if s != [] { ZeroSum(s[..|s| - 1]); }
  }

  function CountsOf(nodes: seq<Node>): (counts: seq<int>)
    ensures |counts| == |nodes| && forall i :: 0 <= i < |nodes| ==> counts[i] == nodes[i].count
  {
    seq(|nodes|, i requires 0 <= i < |nodes| => nodes[i].count)
  }

  lemma {:induction false} SumCountsIsSum(nodes: seq<Node>)
    ensures SumCounts(nodes) == Sum(CountsOf(nodes))
  {
    if nodes != [] {
      var n := |nodes| - 1;
      SumCountsIsSum(nodes[..n]);
      assert CountsOf(nodes)[..n] == CountsOf(nodes[..n]);
    }
  }

  lemma {:induction false} FreeBelowPositive(rows: seq<Pool>, path: seq<string>, p: Pool)
    requires p in rows && 0 < Free(p) && path <= PathOf(p)
    ensures 0 < FreeBelow(rows, path)
    decreases |rows|
  {
    var n := |rows| - 1;
    FreeBelowNonNegative(rows[..n], path);
    if rows[n] != p {
      assert rows == rows[..n] + [rows[n]];
      FreeBelowPositive(rows[..n], path, p);
    }
  }

  lemma {:induction false} FreeBelowNonNegative(rows: seq<Pool>, path: seq<string>)
    ensures 0 <= FreeBelow(rows, path)
    decreases |rows|
  {
    if rows != [] { FreeBelowNonNegative(rows[..|rows| - 1], path); }
  }

  function CodesOf(nodes: seq<Node>): (codes: seq<string>)
    ensures |codes| == |nodes| && forall i :: 0 <= i < |nodes| ==> codes[i] == nodes[i].code
  {
    seq(|nodes|, i requires 0 <= i < |nodes| => nodes[i].code)
  }

  lemma CodesCover(nodes: seq<Node>, rows: seq<Pool>, path: seq<string>, p: Pool)
    requires WellFormed(nodes)
    requires forall code :: CountAt(nodes, [code]) == FreeBelow(rows, path + [code])
    requires p in rows && 0 < Free(p) && path < PathOf(p)
    ensures PathOf(p)[|path|] in CodesOf(nodes)
  {
    var code := PathOf(p)[|path|];
    FreeBelowPositive(rows, path + [code], p);
    assert CountAt(nodes, [code]) > 0;
    assert CodesOf(nodes)[Position(nodes, code)] == code;
  }

  lemma CountsAreFree(nodes: seq<Node>, rows: seq<Pool>, path: seq<string>)
    requires WellFormed(nodes)
    requires forall code :: CountAt(nodes, [code]) == FreeBelow(rows, path + [code])
    ensures CountsOf(nodes) == FreeByCode(rows, path, CodesOf(nodes))
  {
    forall i | 0 <= i < |nodes| ensures nodes[i].count == FreeBelow(rows, path + [nodes[i].code]) {
      PositionUnique(nodes, i);
      assert CountAt(nodes, [nodes[i].code]) == nodes[i].count;
    }
  }

  /** Siblings that show the free slots below a path account for all of them but those of the
      rows that stop at the path itself. */
  lemma SiblingsAddUp(nodes: seq<Node>, rows: seq<Pool>, path: seq<string>)
    requires WellFormed(nodes)
    requires forall code :: CountAt(nodes, [code]) == FreeBelow(rows, path + [code])
    ensures FreeBelow(rows, path) == SumCounts(nodes) + FreeAt(rows, path)
  {
    var codes := CodesOf(nodes);
    forall p | p in rows && 0 < Free(p) && path < PathOf(p) ensures PathOf(p)[|path|] in codes {
      CodesCover(nodes, rows, path, p);
    }
    CodesAddUp(rows, path, codes);
    SumCountsIsSum(nodes);
    CountsAreFree(nodes, rows, path);
  }

  ghost predicate Shows(tree: seq<Node>, rows: seq<Pool>) {
    WellFormed(tree) && forall p: seq<string> :: p != [] ==> CountAt(tree, p) == FreeBelow(rows, p)
  }

  lemma {:induction false} NothingAtShortPaths(rows: seq<Pool>, path: seq<string>)
    requires |path| < 2
    ensures FreeAt(rows, path) == 0
    decreases |rows|
  {
    if rows != [] { NothingAtShortPaths(rows[..|rows| - 1], path); }
  }

  lemma CountInside(nodes: seq<Node>, i: nat, rest: seq<string>)
    requires WellFormed(nodes) && i < |nodes|
    ensures WellFormed(nodes[i].children)
    ensures CountAt(nodes, [nodes[i].code]) == nodes[i].count
    ensures rest != [] ==> CountAt(nodes, [nodes[i].code] + rest) == CountAt(nodes[i].children, rest)
  {
    PositionUnique(nodes, i);
    assert nodes[i] in nodes;
    assert ([nodes[i].code] + rest)[1..] == rest;
  }

  /** Every continent counts exactly its countries. */
  lemma ContinentsCountCountries(tree: seq<Node>, rows: seq<Pool>, i: nat)
    requires Shows(tree, rows) && i < |tree|
    ensures tree[i].count == SumCounts(tree[i].children)
  {
    var path := [tree[i].code];
    CountInside(tree, i, []);
    forall code ensures CountAt(tree[i].children, [code]) == FreeBelow(rows, path + [code]) {
      CountInside(tree, i, [code]);
    }
    SiblingsAddUp(tree[i].children, rows, path);
    NothingAtShortPaths(rows, path);
  }

  /** Every country counts its cities and its rows without a city. */
  lemma CountriesCountCities(tree: seq<Node>, rows: seq<Pool>, i: nat, j: nat)
    requires Shows(tree, rows) && i < |tree| && j < |tree[i].children|
    ensures var country := tree[i].children[j];
            country.count == SumCounts(country.children) + FreeAt(rows, [tree[i].code, country.code])
  {
    var countries := tree[i].children;
    var path := [tree[i].code, countries[j].code];
    CountInside(tree, i, [countries[j].code]);
    CountInside(countries, j, []);
    forall code ensures CountAt(countries[j].children, [code]) == FreeBelow(rows, path + [code]) {
      CountInside(countries, j, [code]);
      CountInside(tree, i, [countries[j].code] + [code]);
      assert path + [code] == [tree[i].code] + ([countries[j].code] + [code]);
    }
    SiblingsAddUp(countries[j].children, rows, path);
    assert path == [tree[i].code] + [countries[j].code];
  }

  // ---------- The grouped inventory ----------

  datatype Group = Group(proxies: nat, capacity: int, used: int)
  type Place = (string, Option<string>)

  function AvailableIn(g: Group): int {
    g.capacity - g.used
  }

  /** Rows grouped by country and city, with sums. */
  function Inventory(rows: seq<Pool>): map<Place, Group> {
    if rows == [] then map[]
    else
      var p := rows[|rows| - 1];
      var groups := Inventory(rows[..|rows| - 1]);
      var key := (p.country, p.city);
      var g := if key in groups then groups[key] else Group(0, 0, 0);
      groups[key := Group(g.proxies + 1, g.capacity + p.maxAllocations, g.used + p.currentAllocations)]
  }

  ghost function AvailableByPlace(groups: map<Place, Group>): map<Place, int> {
    map k | k in groups :: AvailableIn(groups[k])
  }

  function FreeList(rows: seq<Pool>): (s: seq<int>)
    ensures |s| == |rows| && forall i :: 0 <= i < |rows| ==> s[i] == Free(rows[i])
  {
    seq(|rows|, i requires 0 <= i < |rows| => Free(rows[i]))
  }

  lemma AvailableUpdate(groups: map<Place, Group>, key: Place, g: Group)
    ensures AvailableByPlace(groups[key := g]) == AvailableByPlace(groups)[key := AvailableIn(g)]
  {
  }

  lemma {:induction false} InventoryTotal(rows: seq<Pool>)
    ensures Total(AvailableByPlace(Inventory(rows))) == Sum(FreeList(rows))
    decreases |rows|
  {
    if rows == [] {
      assert AvailableByPlace(Inventory(rows)) == map[];
    } else {
      var n := |rows| - 1;
      var p, groups, after := rows[n], Inventory(rows[..n]), Inventory(rows);
      var key := (p.country, p.city);
      InventoryTotal(rows[..n]);
      AvailableUpdate(groups, key, after[key]);
      TotalUpdate(AvailableByPlace(groups), key, AvailableIn(after[key]));
      assert FreeList(rows)[..n] == FreeList(rows[..n]);
    }
  }

  lemma {:induction false} TreeTotal(rows: seq<Pool>)
    requires forall p :: p in rows ==> 0 <= Free(p)
    ensures FreeBelow(rows, []) == Sum(FreeList(rows))
    decreases |rows|
  {
    if rows != [] {
      var n := |rows| - 1;
      assert rows == rows[..n] + [rows[n]];
      TreeTotal(rows[..n]);
      assert FreeList(rows)[..n] == FreeList(rows[..n]);
    }
  }

  // ---------- Both views against the books ----------

  /** `ids` lists the tenant's rows that are not exhausted, in any order. */
  ghost predicate IsStock(db: Db, tenant: string, ids: seq<nat>) {
    && Distinct(ids)
    && forall id :: id in ids <==> id in db.pools && db.pools[id].tenant == tenant && db.pools[id].status != Exhausted
  }

  function RowsOf(db: Db, ids: seq<nat>): (rows: seq<Pool>)
    requires forall id :: id in ids ==> id in db.pools
    ensures |rows| == |ids| && forall i :: 0 <= i < |ids| ==> rows[i] == db.pools[ids[i]]
  {
    seq(|ids|, i requires 0 <= i < |ids| => db.pools[ids[i]])
  }

  ghost function FreeOf(db: Db, tenant: string): map<nat, int> {
    map id | id in db.pools && db.pools[id].tenant == tenant :: Free(db.pools[id])
  }

  /** The free capacity of the whole pool of a tenant, full rows included. */
  ghost function FreeCapacity(db: Db, tenant: string): int {
    Total(FreeOf(db, tenant))
  }

  lemma StockIsCapacity(db: Db, tenant: string, ids: seq<nat>)
    requires BooksBalance(db) && IsStock(db, tenant, ids)
    ensures Sum(FreeList(RowsOf(db, ids))) == FreeCapacity(db, tenant)
  {
    var all := FreeOf(db, tenant);
    var stock := map id | id in ids :: Free(db.pools[id]);
    assert FreeList(RowsOf(db, ids)) == seq(|ids|, i requires 0 <= i < |ids| => stock[ids[i]]);
    SumOfListing(stock, ids);
    forall id | id in all && id !in stock ensures all[id] == 0 {
      assert PoolInBooks(db, id);
    }
    TotalWithoutZeros(all, stock);
  }

  /** While the books balance, the tree, the grouped inventory and the rows tell the same story. */
  lemma ViewsAgree(db: Db, tenant: string, ids: seq<nat>)
    requires BooksBalance(db) && IsStock(db, tenant, ids)
    ensures FreeBelow(RowsOf(db, ids), []) == FreeCapacity(db, tenant)
    ensures Total(AvailableByPlace(Inventory(RowsOf(db, ids)))) == FreeCapacity(db, tenant)
  {
    var rows := RowsOf(db, ids);
    forall p | p in rows ensures 0 <= Free(p) {
      var i :| 0 <= i < |rows| && rows[i] == p;
      assert ids[i] in ids;
      assert PoolInBooks(db, ids[i]);
    }
    TreeTotal(rows);
    InventoryTotal(rows);
    StockIsCapacity(db, tenant, ids);
  }

  lemma FreeOfUpdate(before: Db, after: Db, tenant: string, id: nat, p: Pool)
    requires id in before.pools && before.pools[id].tenant == p.tenant == tenant && after.pools == before.pools[id := p]
    ensures FreeCapacity(after, tenant) == FreeCapacity(before, tenant) - Free(before.pools[id]) + Free(p)
  {
    assert FreeOf(after, tenant) == FreeOf(before, tenant)[id := Free(p)];
    TotalUpdate(FreeOf(before, tenant), id, Free(p));
  }

  /** A granted request lowers the free capacity of its tenant by exactly its size. */
  lemma {:induction false} TakingLowersCapacity(db: Db, tenant: string, chosen: seq<nat>, order: Option<nat>)
    requires Distinct(chosen) && forall id :: id in chosen ==> id in db.pools && db.pools[id].tenant == tenant
    ensures FreeCapacity(TakeAll(db, tenant, chosen, order), tenant) == FreeCapacity(db, tenant) - |chosen|
    decreases |chosen|
  {
    if chosen == [] {
      TakeEachIsTakeAll(db, tenant, [], order);
    } else {
      var n := |chosen| - 1;
      var id, before, after := chosen[n], TakeAll(db, tenant, chosen[..n], order), TakeAll(db, tenant, chosen, order);
      assert chosen[..n + 1] == chosen;
      TakingLowersCapacity(db, tenant, chosen[..n], order);
      FreeOfUpdate(before, after, tenant, id, Taken(before.pools[id]));
    }
  }

  /** Requests of other tenants do not move it. */
  lemma OthersKeepCapacity(db: Db, tenant: string, other: string, chosen: seq<nat>, order: Option<nat>)
    requires forall id :: id in chosen ==> id in db.pools && db.pools[id].tenant == other
    requires other != tenant
    ensures FreeCapacity(TakeAll(db, other, chosen, order), tenant) == FreeCapacity(db, tenant)
  {
    assert FreeOf(TakeAll(db, other, chosen, order), tenant) == FreeOf(db, tenant);
  }
}
