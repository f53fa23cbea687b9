/** The counter route as the Panel runs it when nothing interferes. */
module TrafficServices {
  import opened Sums
  import opened TrafficCounters

  function Applied(m: map<Key, int>, commands: seq<Incr>): map<Key, int> {
    if commands == [] then m
    else
      var c := commands[|commands| - 1];
      Add(Applied(m, commands[..|commands| - 1]), c.key, c.amount)
  }

  lemma {:induction false} AppliedAdds(m: map<Key, int>, commands: seq<Incr>, k: Key)
    ensures Get(Applied(m, commands), k) == Get(m, k) + Adds(commands, One(k))
    decreases |commands|
  {
    if commands != [] {
      var n := |commands| - 1;
      AppliedAdds(m, commands[..n], k);
      AddsAppend(commands[..n], [commands[n]], One(k));
      assert commands == commands[..n] + [commands[n]];
      assert [commands[n]][1..] == [];
    }
  }

  /** What a drain of these ids at this time moves: each counter once, however often it is listed. */
  function Drained(counters: map<Key, int>, kind: Kind, ids: seq<string>, k: Key): int {
    if k.kind == kind && k.id in ids then Get(counters, k) else 0
  }

  /** No two emails belong to the same client row. */
  predicate OneEmailEach(directory: map<string, string>) {
    forall a, b :: a in directory && b in directory && directory[a] == directory[b] ==> a == b
  }

  class TrafficStore {
    var counters: map<Key, int>
    var series: map<Bucket, int>
    var stats: map<Key, int>
    var usedBytes: map<string, int>

    constructor ()
      ensures counters == map[] && series == map[] && stats == map[] && usedBytes == map[]
    {
      counters, series, stats, usedBytes := map[], map[], map[], map[];
    }

    /** Collects one pipeline and sends it: every counter gains exactly what the items have for it. */
    method IncrTraffic(node: string, items: seq<Item>)
      modifies `counters
      ensures counters == Applied(old(counters), Commands(node, items))
      ensures forall k: Key :: Get(counters, k) == Get(old(counters), k) + Received(node, items, k)
    {
      var pipeline := CollectPipeline(node, items);
      Exec(pipeline);
      forall k: Key ensures Get(counters, k) == Get(old(counters), k) + Received(node, items, k) {
        AppliedAdds(old(counters), pipeline, k);
      }
    }

    method CollectPipeline(node: string, items: seq<Item>) returns (pipeline: seq<Incr>)
      ensures pipeline == Commands(node, items)
      ensures forall k: Key :: Adds(pipeline, One(k)) == Received(node, items, k)
    {
      pipeline := [];
      var nodeUp, nodeDown := 0, 0;
      for i := 0 to |items|
        invariant pipeline == AllItems(items[..i])
        invariant nodeUp == TotalBytes(items[..i], Up) && nodeDown == TotalBytes(items[..i], Down)
      {
        assert items[..i + 1][..i] == items[..i];
        var commands := CollectItem(items[i]);
        pipeline := pipeline + commands;
        nodeUp, nodeDown := nodeUp + items[i].upload, nodeDown + items[i].download;
      }
      assert items[..|items|] == items;
      pipeline := pipeline + (IncrIf(Node, Up, node, nodeUp) + IncrIf(Node, Down, node, nodeDown));
      forall k: Key ensures Adds(pipeline, One(k)) == Received(node, items, k) { ReportReaches(node, items, k); }
    }

    /** The commands of one item. */
    method CollectItem(t: Item) returns (commands: seq<Incr>)
      ensures commands == ItemCommands(t)
    {
      commands := [];
      if t.upload > 0 { commands := commands + [Incr(Key(Client, Up, t.email), t.upload)]; }
      if t.download > 0 { commands := commands + [Incr(Key(Client, Down, t.email), t.download)]; }
      if t.inboundId.Some? && t.inboundId.value != "" {
        var id := t.inboundId.value;
        if t.upload > 0 { commands := commands + [Incr(Key(Inbound, Up, id), t.upload)]; }
        if t.download > 0 { commands := commands + [Incr(Key(Inbound, Down, id), t.download)]; }
      }
    }

    method Exec(pipeline: seq<Incr>)
      modifies `counters
      ensures counters == Applied(old(counters), pipeline)
    {
      for i := 0 to |pipeline|
        invariant counters == Applied(old(counters), pipeline[..i])
      {
        assert pipeline[..i + 1][..i] == pipeline[..i];
        counters := Add(counters, pipeline[i].key, pipeline[i].amount);
      }
      assert pipeline[..|pipeline|] == pipeline;
    }

    method GetDel(k: Key) returns (amount: int)
      modifies `counters
      ensures amount == Get(old(counters), k) && counters == old(counters) - {k}
    {
      amount := Get(counters, k);
      counters := counters - {k};
    }

    /** Both directions of one entity. */
    method TakeBoth(kind: Kind, id: string) returns (up: int, down: int)
      modifies `counters
      ensures up == Get(old(counters), Key(kind, Up, id)) && down == Get(old(counters), Key(kind, Down, id))
      ensures CountersDrained(old(counters), counters, kind, [id])
    {
      up := GetDel(Key(kind, Up, id));
      down := GetDel(Key(kind, Down, id));
      forall k: Key ensures k.kind == kind && k.id == id <==> k == Key(kind, Up, id) || k == Key(kind, Down, id) {
        if k.dir.Up? { assert k == Key(k.kind, Up, k.id); } else { assert k == Key(k.kind, Down, k.id); }
      }
    }

    method Upsert(kind: Kind, id: string, time: int, up: int, down: int)
      modifies `series
      ensures forall b: Bucket :: Get(series, b) == Get(old(series), b)
                + (if b.time == time && b.key.kind == kind && b.key.id == id then (if b.key.dir.Up? then up else down) else 0)
    {
      series := AddToBuckets(series, kind, id, time, up, down);
    }

    method InsertStats(kind: Kind, id: string, up: int, down: int)
      modifies `stats
      ensures forall k: Key :: Get(stats, k) == Get(old(stats), k)
                + (if k.kind == kind && k.id == id then (if k.dir.Up? then up else down) else 0)
    {
      stats := AddPair(stats, kind, id, up, down);
    }

    /** One entity of a drain. The statistics row refers to the entity's own row; if that is gone, the insertion
        fails after the bucket was written. */
    method AggregateOne(kind: Kind, id: string, time: int, rows: set<string>) returns (ok: bool)
      modifies `counters, `series, `stats
      ensures CountersDrained(old(counters), counters, kind, [id])
      ensures DrainStored(old(counters), old(series), series, old(stats), stats, kind, [id], time, rows)
      ensures ok <==> id in rows || HoldsNothing(old(counters), kind, id)
    {
      var up, down := TakeBoth(kind, id);
      forall k: Key | k.kind == kind && k.id == id ensures Get(old(counters), k) == if k.dir.Up? then up else down {
        assert k == Key(kind, if k.dir.Up? then Up else Down, id);
      }
      if up == 0 && down == 0 {
        return true;
      }
      Upsert(kind, id, time, up, down);
      ok := id in rows;
      if ok { InsertStats(kind, id, up, down); }
    }

    /** Nodes and inbounds: the first `n` scanned entities are drained, each once however often it is scanned, and
        their buckets gain what the counters held; so do the statistics of entities that still have a row. The
        job comes to its end exactly when no scanned entity with bytes has lost its row; otherwise that entity
        is the last one drained, and the counters of the rest stay for the next job. */
    method AggregateTraffic(kind: Kind, ids: seq<string>, time: int, rows: set<string>) returns (ok: bool, n: nat)
      modifies `counters, `series, `stats
      ensures n <= |ids| && CountersDrained(old(counters), counters, kind, ids[..n])
      ensures DrainStored(old(counters), old(series), series, old(stats), stats, kind, ids[..n], time, rows)
      ensures ok <==> forall i :: 0 <= i < |ids| ==> ids[i] in rows || HoldsNothing(old(counters), kind, ids[i])
      ensures ok ==> n == |ids|
      ensures !ok ==> 0 < n && ids[n - 1] !in rows && !HoldsNothing(old(counters), kind, ids[n - 1])
    {
      n := 0;
      while n < |ids|
        invariant n <= |ids| && CountersDrained(old(counters), counters, kind, ids[..n])
        invariant DrainStored(old(counters), old(series), series, old(stats), stats, kind, ids[..n], time, rows)
        invariant forall i :: 0 <= i < n ==> ids[i] in rows || HoldsNothing(old(counters), kind, ids[i])
      {
        ghost var mid, midSeries, midStats := counters, series, stats;
        ok := AggregateOne(kind, ids[n], time, rows);
        DrainedOneMore(old(counters), mid, counters, kind, ids, n);
        DrainStoredOneMore(old(counters), mid, old(series), midSeries, series, old(stats), midStats, stats, kind, ids, n, time, rows);
        n := n + 1;
        if !ok { return; }
      }
      ok := true;
    }

    method AggregateClient(email: string, time: int, directory: map<string, string>)
      modifies `counters, `series, `usedBytes
      ensures CountersDrained(old(counters), counters, Client, [email])
      ensures ClientStored(old(counters), old(series), series, old(usedBytes), usedBytes, email, time, directory)
    {
      var up, down := TakeBoth(Client, email);
      if (up == 0 && down == 0) || email !in directory {
        return;
      }
      Upsert(Client, directory[email], time, up, down);
      usedBytes := Add(usedBytes, directory[email], up + down);
    }

    /** Clients: the bucket of the client row gains the bytes and so does its usage; bytes of an
        email without a row are dropped. */
    method AggregateClientTraffic(emails: seq<string>, time: int, directory: map<string, string>)
      requires OneEmailEach(directory)
      modifies `counters, `series, `usedBytes
      ensures CountersDrained(old(counters), counters, Client, emails)
      ensures ClientsStored(old(counters), old(series), series, old(usedBytes), usedBytes, emails, time, directory)
    {
      for i := 0 to |emails|
        invariant CountersDrained(old(counters), counters, Client, emails[..i])
        invariant ClientsStored(old(counters), old(series), series, old(usedBytes), usedBytes, emails[..i], time, directory)
      {
        ghost var midCounters, midSeries, midUsed := counters, series, usedBytes;
        AggregateClient(emails[i], time, directory);
        DrainedOneMore(old(counters), midCounters, counters, Client, emails, i);
        StoredOneMore(old(counters), midCounters, old(series), midSeries, series, old(usedBytes), midUsed, usedBytes,
                      emails, i, time, directory);
      }
      assert emails[..|emails|] == emails;
    }
  }

  /** The counters of these ids are gone; all others are as they were. */
  ghost predicate CountersDrained(before: map<Key, int>, after: map<Key, int>, kind: Kind, ids: seq<string>) {
    && (forall k :: k in after <==> k in before && !(k.kind == kind && k.id in ids))
    && (forall k :: k in after ==> after[k] == before[k])
  }

  lemma DrainedOneMore(before: map<Key, int>, mid: map<Key, int>, after: map<Key, int>, kind: Kind, ids: seq<string>, i: nat)
    requires i < |ids| && CountersDrained(before, mid, kind, ids[..i]) && CountersDrained(mid, after, kind, [ids[i]])
    ensures CountersDrained(before, after, kind, ids[..i + 1])
  {
    assert ids[..i + 1] == ids[..i] + [ids[i]];
  }

  predicate HoldsNothing(counters: map<Key, int>, kind: Kind, id: string) {
    Get(counters, Key(kind, Up, id)) == 0 && Get(counters, Key(kind, Down, id)) == 0
  }

  /** Every bucket of this time gained what the drain moved, and so did the statistics of entities with a row. */
  ghost predicate DrainStored(counters: map<Key, int>, series: map<Bucket, int>, series': map<Bucket, int>,
                              stats: map<Key, int>, stats': map<Key, int>, kind: Kind, ids: seq<string>, time: int, rows: set<string>)
  {
    && (forall b: Bucket :: Get(series', b) == Get(series, b)
          + (if b.time == time then Drained(counters, kind, ids, b.key) else 0))
    && (forall k: Key :: Get(stats', k) == Get(stats, k) + (if k.id in rows then Drained(counters, kind, ids, k) else 0))
  }

  lemma DrainStoredOneMore(counters: map<Key, int>, mid: map<Key, int>,
                           series: map<Bucket, int>, midSeries: map<Bucket, int>, after: map<Bucket, int>,
                           stats: map<Key, int>, midStats: map<Key, int>, afterStats: map<Key, int>,
                           kind: Kind, ids: seq<string>, i: nat, time: int, rows: set<string>)
    requires i < |ids| && CountersDrained(counters, mid, kind, ids[..i])
    requires DrainStored(counters, series, midSeries, stats, midStats, kind, ids[..i], time, rows)
    requires DrainStored(mid, midSeries, after, midStats, afterStats, kind, [ids[i]], time, rows)
    ensures DrainStored(counters, series, after, stats, afterStats, kind, ids[..i + 1], time, rows)
  {
    forall b: Bucket ensures Get(after, b) == Get(series, b)
          + (if b.time == time then Drained(counters, kind, ids[..i + 1], b.key) else 0) { }
    forall k: Key ensures Get(afterStats, k) == Get(stats, k) + (if k.id in rows then Drained(counters, kind, ids[..i + 1], k) else 0) { }
  }

  /** What the row with this key gains from draining these emails. */
  ghost function ClientShare(counters: map<Key, int>, emails: seq<string>, directory: map<string, string>, k: Key): int {
    if k.kind == Client && exists e :: e in directory && directory[e] == k.id && e in emails
    then
      var e :| e in directory && directory[e] == k.id && e in emails;
      Get(counters, Key(Client, k.dir, e))
    else 0
  }

  ghost function OneShare(counters: map<Key, int>, email: string, directory: map<string, string>, k: Key): int {
    if k.kind == Client && email in directory && directory[email] == k.id then Get(counters, Key(Client, k.dir, email)) else 0
  }

  lemma ShareGrows(before: map<Key, int>, mid: map<Key, int>, emails: seq<string>, directory: map<string, string>, k: Key, i: nat)
    requires i < |emails| && OneEmailEach(directory) && CountersDrained(before, mid, Client, emails[..i])
    ensures ClientShare(before, emails[..i + 1], directory, k)
         == ClientShare(before, emails[..i], directory, k) + OneShare(mid, emails[i], directory, k)
  {
    assert emails[..i + 1] == emails[..i] + [emails[i]];
  }

  ghost predicate ClientStored(counters: map<Key, int>, series: map<Bucket, int>, series': map<Bucket, int>,
                               used: map<string, int>, used': map<string, int>,
                               email: string, time: int, directory: map<string, string>)
  {
    && (forall b: Bucket :: Get(series', b) == Get(series, b)
          + (if b.time == time then OneShare(counters, email, directory, b.key) else 0))
    && (forall id: string :: Get(used', id) == Get(used, id)
          + OneShare(counters, email, directory, Key(Client, Up, id)) + OneShare(counters, email, directory, Key(Client, Down, id)))
  }

  ghost predicate ClientsStored(counters: map<Key, int>, series: map<Bucket, int>, series': map<Bucket, int>,
                                used: map<string, int>, used': map<string, int>,
                                emails: seq<string>, time: int, directory: map<string, string>)
  {
    && (forall b: Bucket :: Get(series', b) == Get(series, b)
          + (if b.time == time then ClientShare(counters, emails, directory, b.key) else 0))
    && (forall id: string :: Get(used', id) == Get(used, id)
          + ClientShare(counters, emails, directory, Key(Client, Up, id)) + ClientShare(counters, emails, directory, Key(Client, Down, id)))
  }

  lemma StoredOneMore(counters: map<Key, int>, mid: map<Key, int>,
                      series: map<Bucket, int>, midSeries: map<Bucket, int>, after: map<Bucket, int>,
                      used: map<string, int>, midUsed: map<string, int>, afterUsed: map<string, int>,
                      emails: seq<string>, i: nat, time: int, directory: map<string, string>)
    requires i < |emails| && OneEmailEach(directory) && CountersDrained(counters, mid, Client, emails[..i])
    requires ClientsStored(counters, series, midSeries, used, midUsed, emails[..i], time, directory)
    requires ClientStored(mid, midSeries, after, midUsed, afterUsed, emails[i], time, directory)
    ensures ClientsStored(counters, series, after, used, afterUsed, emails[..i + 1], time, directory)
  {
    forall b: Bucket ensures Get(after, b) == Get(series, b)
          + (if b.time == time then ClientShare(counters, emails[..i + 1], directory, b.key) else 0) {
      ShareGrows(counters, mid, emails, directory, b.key, i);
    }
    forall id: string ensures Get(afterUsed, id) == Get(used, id)
          + ClientShare(counters, emails[..i + 1], directory, Key(Client, Up, id))
          + ClientShare(counters, emails[..i + 1], directory, Key(Client, Down, id)) {
      ShareGrows(counters, mid, emails, directory, Key(Client, Up, id), i);
      ShareGrows(counters, mid, emails, directory, Key(Client, Down, id), i);
    }
  }

  // ---------- The services run the steps of the machine ----------

  /** These steps lead from one state of the machine to the other. */
  ghost predicate Follows(s: State, events: seq<Event>, t: State)
    decreases |events|
  {
    if events == [] then s == t else Enabled(s, events[0]) && Follows(Next(s, events[0]), events[1..], t)
  }

  lemma {:induction false} AppliedFront(m: map<Key, int>, c: Incr, rest: seq<Incr>)
    ensures Applied(m, [c] + rest) == Applied(Add(m, c.key, c.amount), rest)
    decreases |rest|
  {
    if rest == [] {
      assert [c] + rest == [c] && [c][..0] == [];
    } else {
      assert ([c] + rest)[..|rest|] == [c] + rest[..|rest| - 1];
      AppliedFront(m, c, rest[..|rest| - 1]);
    }
  }

  lemma {:induction false} PipelineFollows(s: State, call: nat) returns (events: seq<Event>, t: State)
    requires call in s.pipelines
    ensures Follows(s, events, t) && t.counters == Applied(s.counters, s.pipelines[call]) && t.jobs == s.jobs
    decreases |if call in s.pipelines then s.pipelines[call] else []|
  {
    var pipeline := s.pipelines[call];
    if pipeline == [] {
      events, t := [], s;
    } else {
      var more;
      more, t := PipelineFollows(Next(s, Increment(call)), call);
      events := [Increment(call)] + more;
      assert events[1..] == more;
      assert pipeline == [pipeline[0]] + pipeline[1..];
      AppliedFront(s.counters, pipeline[0], pipeline[1..]);
    }
  }

  /** A report that nothing interferes with leaves the counters that `IncrTraffic` leaves. */
  lemma ReportFollows(s: State, call: nat, node: string, items: seq<Item>) returns (events: seq<Event>, t: State)
    requires call !in s.pipelines
    ensures Follows(s, events, t) && t.counters == Applied(s.counters, Commands(node, items))
  {
    var e := Report(call, node, items);
    var more;
    more, t := PipelineFollows(Next(s, e), call);
    events := [e] + more;
    assert events[1..] == more;
  }

  /** The state of the machine after both GETDELs of an entity. */
  lemma BothTaken(s: State, job: nat) returns (t: State)
    requires job in s.jobs && s.jobs[job].phase.Ready? && s.jobs[job].ids != []
    ensures Enabled(s, TakeUp(job)) && Enabled(Next(s, TakeUp(job)), TakeDown(job))
    ensures t == Next(Next(s, TakeUp(job)), TakeDown(job)) && job in t.jobs
    ensures var j := s.jobs[job];
            && t == s.(counters := t.counters, jobs := s.jobs[job := j.(phase := t.jobs[job].phase)])
            && t.jobs[job].phase == TookBoth(Get(s.counters, Key(j.kind, Up, j.ids[0])), Get(s.counters, Key(j.kind, Down, j.ids[0])))
            && CountersDrained(s.counters, t.counters, j.kind, [j.ids[0]])
  {
    var j := s.jobs[job];
    var mid := Next(s, TakeUp(job));
    t := Next(mid, TakeDown(job));
    forall k: Key ensures k.kind == j.kind && k.id == j.ids[0] <==> k == Key(j.kind, Up, j.ids[0]) || k == Key(j.kind, Down, j.ids[0]) {
      if k.dir.Up? { assert k == Key(k.kind, Up, k.id); } else { assert k == Key(k.kind, Down, k.id); }
    }
  }

  function StoreEvents(job: nat, id: string, up: int, down: int): seq<Event> {
    if up == 0 && down == 0 then [Store(job, Some(id))] else [Store(job, Some(id)), Record(job)]
  }

  lemma StoreIs(s: State, job: nat, up: int, down: int)
    requires job in s.jobs && s.jobs[job].phase == TookBoth(up, down) && s.jobs[job].ids != [] && !s.jobs[job].kind.Client?
    ensures var j, id, t := s.jobs[job], s.jobs[job].ids[0], DoStore(s, job, Some(s.jobs[job].ids[0]));
            && t.counters == s.counters && t.stats == s.stats && job in t.jobs
            && if up == 0 && down == 0 then t.series == s.series && t.jobs[job] == Advance(j)
               else t.series == AddToBuckets(s.series, j.kind, id, j.time, up, down) && t.jobs[job] == j.(phase := Stored(up, down))
  {
    if !(up == 0 && down == 0) { assert DoStore(s, job, Some(s.jobs[job].ids[0])) == DoUpsert(s, job, s.jobs[job].ids[0]); }
  }

  lemma StoreStep(s: State, job: nat, up: int, down: int) returns (t: State)
    requires job in s.jobs && s.jobs[job].phase == TookBoth(up, down) && s.jobs[job].ids != [] && !s.jobs[job].kind.Client?
    ensures Enabled(s, Store(job, Some(s.jobs[job].ids[0]))) && t == Next(s, Store(job, Some(s.jobs[job].ids[0])))
    ensures t == DoStore(s, job, Some(s.jobs[job].ids[0]))
  {
    t := Next(s, Store(job, Some(s.jobs[job].ids[0])));
  }

  lemma RecordStep(s: State, job: nat, up: int, down: int) returns (t: State)
    requires job in s.jobs && s.jobs[job].phase == Stored(up, down) && s.jobs[job].ids != []
    ensures Enabled(s, Record(job)) && t == Next(s, Record(job))
    ensures t.counters == s.counters && t.series == s.series && job in t.jobs && t.jobs[job] == Advance(s.jobs[job])
    ensures t.stats == AddPair(s.stats, s.jobs[job].kind, s.jobs[job].ids[0], up, down)
  {
    t := Next(s, Record(job));
    assert t == DoRecord(s, job);
  }

  /** Storing and recording what was taken. */
  lemma StoreFollows(s: State, job: nat, up: int, down: int) returns (t: State)
    requires job in s.jobs && s.jobs[job].phase == TookBoth(up, down) && s.jobs[job].ids != [] && !s.jobs[job].kind.Client?
    ensures Follows(s, StoreEvents(job, s.jobs[job].ids[0], up, down), t)
    ensures t.counters == s.counters && job in t.jobs && t.jobs[job] == Advance(s.jobs[job])
    ensures var j, id := s.jobs[job], s.jobs[job].ids[0];
            if up == 0 && down == 0 then t.series == s.series && t.stats == s.stats
            else t.series == AddToBuckets(s.series, j.kind, id, j.time, up, down) && t.stats == AddPair(s.stats, j.kind, id, up, down)
  {
    var e := Store(job, Some(s.jobs[job].ids[0]));
    var stored := StoreStep(s, job, up, down);
    StoreIs(s, job, up, down);
    if up == 0 && down == 0 {
      t := stored;
    } else {
      t := RecordStep(stored, job, up, down);
      InTurn(s, e, Record(job));
    }
  }

  lemma InTurn(s: State, e: Event, f: Event)
    requires Enabled(s, e) && Enabled(Next(s, e), f)
    ensures Follows(s, [e, f], Next(Next(s, e), f))
  {
    assert [e] + [f] == [e, f];
  }

  /** One entity of a node or inbound job, taken, stored and recorded without interference, moves what
      `AggregateOne` moves. */
  lemma EntityFollows(s: State, job: nat) returns (events: seq<Event>, t: State)
    requires job in s.jobs && s.jobs[job].phase.Ready? && s.jobs[job].ids != [] && !s.jobs[job].kind.Client?
    ensures Follows(s, events, t) && job in t.jobs && t.jobs[job] == Advance(s.jobs[job])
    ensures var j := s.jobs[job];
            && CountersDrained(s.counters, t.counters, j.kind, [j.ids[0]])
            && DrainStored(s.counters, s.series, t.series, s.stats, t.stats, j.kind, [j.ids[0]], j.time, {j.ids[0]})
  {
    var j, id := s.jobs[job], s.jobs[job].ids[0];
    var up, down := Get(s.counters, Key(j.kind, Up, id)), Get(s.counters, Key(j.kind, Down, id));
    var taken := BothTaken(s, job);
    t := StoreFollows(taken, job, up, down);
    events := [TakeUp(job)] + ([TakeDown(job)] + StoreEvents(job, id, up, down));
    PairStored(s.counters, s.series, t.series, s.stats, t.stats, j.kind, id, j.time);
  }

  function PairPart(kind: Kind, id: string, up: int, down: int, k: Key): int {
    if k.kind == kind && k.id == id then (if k.dir.Up? then up else down) else 0
  }

  lemma BucketGet(m: map<Bucket, int>, kind: Kind, id: string, time: int, up: int, down: int, b: Bucket)
    ensures Get(AddToBuckets(m, kind, id, time, up, down), b)
         == Get(m, b) + (if b.time == time then PairPart(kind, id, up, down, b.key) else 0)
  {
    assert b.key == Key(b.key.kind, b.key.dir, b.key.id);
  }

  lemma DrainedPart(counters: map<Key, int>, kind: Kind, id: string, k: Key)
    ensures Drained(counters, kind, [id], k)
         == PairPart(kind, id, Get(counters, Key(kind, Up, id)), Get(counters, Key(kind, Down, id)), k)
  {
    assert k == Key(k.kind, k.dir, k.id);
  }

  lemma PairStored(counters: map<Key, int>, series: map<Bucket, int>, series': map<Bucket, int>,
                   stats: map<Key, int>, stats': map<Key, int>, kind: Kind, id: string, time: int)
    requires var up, down := Get(counters, Key(kind, Up, id)), Get(counters, Key(kind, Down, id));
             if up == 0 && down == 0 then series' == series && stats' == stats
             else series' == AddToBuckets(series, kind, id, time, up, down) && stats' == AddPair(stats, kind, id, up, down)
    ensures DrainStored(counters, series, series', stats, stats', kind, [id], time, {id})
  {
    var up, down := Get(counters, Key(kind, Up, id)), Get(counters, Key(kind, Down, id));
    forall b: Bucket ensures Get(series', b) == Get(series, b) + (if b.time == time then Drained(counters, kind, [id], b.key) else 0) {
      BucketGet(series, kind, id, time, up, down, b);
      DrainedPart(counters, kind, id, b.key);
    }
    forall k: Key ensures Get(stats', k) == Get(stats, k) + (if k.id in {id} then Drained(counters, kind, [id], k) else 0) {
      DrainedPart(counters, kind, id, k);
    }
  }
}
