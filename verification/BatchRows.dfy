/** The rows a batch creates, one database statement after the other. Nothing is wrapped in a transaction, so
    the first statement that violates a unique key ends the batch and leaves what came before it. */
module BatchRows {
  import opened Sums
  import opened Turns
  import opened BatchSpread

  datatype Inbound = Inbound(port: int, listen: string)
  datatype Target = Direct(address: string) | Via(ip: string, port: int, username: string, password: string)
  datatype ClientRow = ClientRow(inboundTag: string, outboundTag: string)

  /** The inbounds and outbounds of the node by tag, and the clients of the tenant by email. Besides those keys,
      no two inbounds may listen on the same address and port. */
  datatype Rows = Rows(inbounds: map<string, Inbound>, outbounds: map<string, Target>, clients: map<string, ClientRow>)

  const ANY_ADDRESS := "0.0.0.0"

  predicate Held(inbounds: map<string, Inbound>, port: int) {
    exists tag :: tag in inbounds && inbounds[tag] == Inbound(port, ANY_ADDRESS)
  }

  /** Finding or creating the inbound of a port; finding or creating an outbound and then creating a client. */
  datatype Step =
    | OpenPort(tag: string, port: int)
    | AddClient(email: string, row: ClientRow, target: Target)

  function WithOutbound(t: Rows, tag: string, target: Target): Rows {
    if tag in t.outbounds then t else t.(outbounds := t.outbounds[tag := target])
  }

  /** The rows afterwards, and whether the step went through. */
  function Perform(t: Rows, step: Step): (Rows, bool) {
    match step
    case OpenPort(tag, port) =>
      if tag in t.inbounds then (t, true)
      else if Held(t.inbounds, port) then (t, false)
      else (t.(inbounds := t.inbounds[tag := Inbound(port, ANY_ADDRESS)]), true)
    case AddClient(email, row, target) =>
      var u := WithOutbound(t, row.outboundTag, target);
      if email in u.clients then (u, false) else (u.(clients := u.clients[email := row]), true)
  }

  /** The rows a batch leaves and how many of its steps went through. */
  function PerformAll(t: Rows, steps: seq<Step>): (r: (Rows, nat))
    ensures r.1 <= |steps|
  {
    if steps == [] then (t, 0)
    else
      var n := |steps| - 1;
      var (before, done) := PerformAll(t, steps[..n]);
      if done < n then (before, done)
      else
        var (after, ok) := Perform(before, steps[n]);
        (after, if ok then n + 1 else n)
  }

  predicate AllDone(t: Rows, steps: seq<Step>) {
    PerformAll(t, steps).1 == |steps|
  }

  /** One more step after others. */
  function Then(r: (Rows, nat), n: nat, step: Step): (Rows, nat)
    requires r.1 <= n
  {
    if r.1 < n then r
    else
      var (after, ok) := Perform(r.0, step);
      (after, if ok then n + 1 else n)
  }

  /** Steps after steps: all of the first must go through before any of the second is tried. */
  function Resume(r: (Rows, nat), n: nat, steps: seq<Step>): (Rows, nat)
    requires r.1 <= n
  {
    if r.1 < n then r else (PerformAll(r.0, steps).0, n + PerformAll(r.0, steps).1)
  }

  lemma ResumeThen(r: (Rows, nat), m: nat, steps: seq<Step>, step: Step)
    requires r.1 <= m
    ensures Then(Resume(r, m, steps), m + |steps|, step) == Resume(r, m, steps + [step])
  {
  }

  lemma AppendOne(t: Rows, a: seq<Step>, b: seq<Step>, last: Step)
    requires PerformAll(t, a + b) == Resume(PerformAll(t, a), |a|, b)
    ensures PerformAll(t, a + (b + [last])) == Resume(PerformAll(t, a), |a|, b + [last])
  {
    assert a + (b + [last]) == (a + b) + [last];
    ResumeThen(PerformAll(t, a), |a|, b, last);
  }

  lemma {:induction false} PerformAppend(t: Rows, a: seq<Step>, b: seq<Step>)
    ensures PerformAll(t, a + b) == Resume(PerformAll(t, a), |a|, b)
    decreases |b|
  {
    if b == [] {
      assert a + b == a;
    } else {
      var before, last := b[..|b| - 1], b[|b| - 1];
      PerformAppend(t, a, before);
      AppendOne(t, a, before, last);
      assert b == before + [last];
    }
  }

  // ---------- Step by step ----------

  /** The first `k` steps went through and left these rows. */
  predicate Reached(t: Rows, steps: seq<Step>, k: nat, rows: Rows)
    requires k <= |steps|
  {
    PerformAll(t, steps[..k]) == (rows, k)
  }

  lemma Broken(t: Rows, steps: seq<Step>, k: nat)
    requires k <= |steps| && !AllDone(t, steps[..k])
    ensures PerformAll(t, steps) == PerformAll(t, steps[..k])
  {
    assert steps == steps[..k] + steps[k..];
    PerformAppend(t, steps[..k], steps[k..]);
  }

  lemma ReachedNext(t: Rows, steps: seq<Step>, k: nat, rows: Rows)
    requires k < |steps| && Reached(t, steps, k, rows)
    ensures Perform(rows, steps[k]).1 ==> Reached(t, steps, k + 1, Perform(rows, steps[k]).0)
    ensures !Perform(rows, steps[k]).1 ==> PerformAll(t, steps).0 == Perform(rows, steps[k]).0 && !AllDone(t, steps)
  {
    assert steps[..k + 1] == steps[..k] + [steps[k]];
    if !Perform(rows, steps[k]).1 { Broken(t, steps, k + 1); }
  }

  lemma ReachedEnd(t: Rows, steps: seq<Step>, rows: Rows)
    requires Reached(t, steps, |steps|, rows)
    ensures PerformAll(t, steps).0 == rows && AllDone(t, steps)
  {
    assert steps[..|steps|] == steps;
  }

  /** A group of steps after others. */
  lemma GroupAfter(t: Rows, before: seq<Step>, group: seq<Step>, rows: Rows)
    requires PerformAll(t, before) == (rows, |before|)
    ensures AllDone(rows, group) ==> PerformAll(t, before + group) == (PerformAll(rows, group).0, |before + group|)
    ensures !AllDone(rows, group) ==> PerformAll(t, before + group).0 == PerformAll(rows, group).0 && !AllDone(t, before + group)
  {
    PerformAppend(t, before, group);
  }

  // ---------- What is left behind ----------

  predicate Adds(steps: seq<Step>, n: nat, email: string, row: ClientRow)
    requires n <= |steps|
  {
    exists k :: 0 <= k < n && steps[k].AddClient? && steps[k].email == email && steps[k].row == row
  }

  lemma AddsSplit(steps: seq<Step>, n: nat, email: string, row: ClientRow)
    requires n < |steps|
    ensures Adds(steps, n + 1, email, row) <==>
            Adds(steps, n, email, row) || (steps[n].AddClient? && steps[n].email == email && steps[n].row == row)
  {
  }

  lemma AddsPrefix(steps: seq<Step>, m: nat, n: nat, email: string, row: ClientRow)
    requires n <= m <= |steps|
    ensures Adds(steps[..m], n, email, row) <==> Adds(steps, n, email, row)
  {
    if Adds(steps, n, email, row) {
      var k :| 0 <= k < n && steps[k].AddClient? && steps[k].email == email && steps[k].row == row;
      assert steps[..m][k] == steps[k];
    }
    if Adds(steps[..m], n, email, row) {
      var k :| 0 <= k < n && steps[..m][k].AddClient? && steps[..m][k].email == email && steps[..m][k].row == row;
      assert steps[..m][k] == steps[k];
    }
  }

  predicate HasClient(t: Rows, email: string, row: ClientRow) {
    email in t.clients && t.clients[email] == row
  }

  /** Exactly the clients of the steps that went through have been added, whether the batch came to its end
      or broke off. */
  lemma {:induction false} ClientsLeft(t: Rows, steps: seq<Step>, email: string, row: ClientRow)
    ensures HasClient(PerformAll(t, steps).0, email, row)
       <==> HasClient(t, email, row) || Adds(steps, PerformAll(t, steps).1, email, row)
    decreases |steps|
  {
    if steps != [] {
      var n := |steps| - 1;
      var (before, done) := PerformAll(t, steps[..n]);
      ClientsLeft(t, steps[..n], email, row);
      AddsPrefix(steps, n, done, email, row);
      if done == n { AddsSplit(steps, n, email, row); }
    }
  }

  predicate OpensTag(step: Step, tag: string) {
    step.OpenPort? && step.tag == tag
  }

  predicate OffersTag(step: Step, tag: string) {
    step.AddClient? && step.row.outboundTag == tag
  }

  /** The first port that steps open under a tag, and the first target they have for an outbound tag. */
  function FirstPort(steps: seq<Step>, tag: string): (r: Option<int>)
    ensures r.Some? ==> exists step :: step in steps && OpensTag(step, tag) && r.value == step.port
    ensures r.None? ==> forall step :: step in steps ==> !OpensTag(step, tag)
  {
    if steps == [] then None
    else
      var before, last := FirstPort(steps[..|steps| - 1], tag), steps[|steps| - 1];
      if before.None? && OpensTag(last, tag) then Some(last.port) else before
  }

  function FirstTarget(steps: seq<Step>, tag: string): (r: Option<Target>)
    ensures r.Some? ==> exists step :: step in steps && OffersTag(step, tag) && r.value == step.target
    ensures r.None? ==> forall step :: step in steps ==> !OffersTag(step, tag)
  {
    if steps == [] then None
    else
      var before, last := FirstTarget(steps[..|steps| - 1], tag), steps[|steps| - 1];
      if before.None? && OffersTag(last, tag) then Some(last.target) else before
  }

  function InboundUnder(t: Rows, tag: string): Option<Inbound> {
    if tag in t.inbounds then Some(t.inbounds[tag]) else None
  }

  function OutboundUnder(t: Rows, tag: string): Option<Target> {
    if tag in t.outbounds then Some(t.outbounds[tag]) else None
  }

  function Listening(port: Option<int>): Option<Inbound> {
    if port.Some? then Some(Inbound(port.value, ANY_ADDRESS)) else None
  }

  lemma InboundsOnce(t: Rows, step: Step, tag: string)
    ensures InboundUnder(Perform(t, step).0, tag)
         == if tag in t.inbounds then Some(t.inbounds[tag])
            else if Perform(t, step).1 && OpensTag(step, tag) then Some(Inbound(step.port, ANY_ADDRESS)) else None
  {
  }

  /** An inbound that was there is left as it was, whatever its port is; a new one listens on the port of the
      first step that went through and opened its tag. */
  lemma {:induction false} InboundsLeft(t: Rows, steps: seq<Step>, tag: string)
    ensures InboundUnder(PerformAll(t, steps).0, tag)
         == if tag in t.inbounds then Some(t.inbounds[tag])
            else Listening(FirstPort(steps[..PerformAll(t, steps).1], tag))
    decreases |steps|
  {
    if steps != [] {
      var n := |steps| - 1;
      var done := PerformAll(t, steps[..n]).1;
      InboundsLeft(t, steps[..n], tag);
      assert steps[..n][..done] == steps[..done];
      if done == n {
        InboundsOnce(PerformAll(t, steps[..n]).0, steps[n], tag);
        assert steps[..n + 1] == steps;
      }
    }
  }

  /** The steps that went through, and the one at which the batch broke off. */
  function Tried(t: Rows, steps: seq<Step>): seq<Step> {
    var done := PerformAll(t, steps).1;
    if done < |steps| then steps[..done + 1] else steps
  }

  lemma TriedNext(t: Rows, steps: seq<Step>)
    requires steps != []
    ensures var n := |steps| - 1;
            if PerformAll(t, steps[..n]).1 < n
            then PerformAll(t, steps) == PerformAll(t, steps[..n]) && Tried(t, steps) == Tried(t, steps[..n])
            else Tried(t, steps[..n]) == steps[..n] && Tried(t, steps) == steps
                 && PerformAll(t, steps).0 == Perform(PerformAll(t, steps[..n]).0, steps[n]).0
  {
    var n := |steps| - 1;
    var done := PerformAll(t, steps[..n]).1;
    if done < n { assert steps[..n][..done + 1] == steps[..done + 1]; } else { assert steps[..n + 1] == steps; }
  }

  /** An outbound that was there is left as it was, whatever its target is; a new one has the target of the
      first step that was tried with its tag. */
  lemma {:induction false} OutboundsLeft(t: Rows, steps: seq<Step>, tag: string)
    ensures OutboundUnder(PerformAll(t, steps).0, tag)
         == if tag in t.outbounds then Some(t.outbounds[tag])
            else FirstTarget(Tried(t, steps), tag)
    decreases |steps|
  {
    if steps != [] {
      var n := |steps| - 1;
      OutboundsLeft(t, steps[..n], tag);
      TriedNext(t, steps);
    }
  }

  // ---------- When all steps go through ----------

  /** The ports that steps open and the emails they add, in order. */
  function Opened(steps: seq<Step>): seq<int> {
    if steps == [] then []
    else
      var last := steps[|steps| - 1];
      if last.OpenPort? then Opened(steps[..|steps| - 1]) + [last.port] else Opened(steps[..|steps| - 1])
  }

  function Emails(steps: seq<Step>): seq<string> {
    if steps == [] then []
    else
      var last := steps[|steps| - 1];
      if last.AddClient? then Emails(steps[..|steps| - 1]) + [last.email] else Emails(steps[..|steps| - 1])
  }

  lemma {:induction false} OpenedIff(steps: seq<Step>, port: int)
    ensures port in Opened(steps) <==> exists k :: 0 <= k < |steps| && steps[k].OpenPort? && steps[k].port == port
    decreases |steps|
  {
    if steps != [] {
      var n := |steps| - 1;
      OpenedIff(steps[..n], port);
      assert forall k :: 0 <= k < n ==> steps[..n][k] == steps[k];
      if steps[n].OpenPort? && steps[n].port == port { assert steps[n] in steps; }
    }
  }

  lemma {:induction false} EmailsIff(steps: seq<Step>, email: string)
    ensures email in Emails(steps) <==> exists k :: 0 <= k < |steps| && steps[k].AddClient? && steps[k].email == email
    decreases |steps|
  {
    if steps != [] {
      var n := |steps| - 1;
      EmailsIff(steps[..n], email);
      assert forall k :: 0 <= k < n ==> steps[..n][k] == steps[k];
      if steps[n].AddClient? && steps[n].email == email { assert steps[n] in steps; }
    }
  }

  /** How the inbound of a port is found or created; different ports have different tags. */
  ghost predicate Opens(open: int -> Step) {
    && (forall p :: open(p).OpenPort? && open(p).port == p)
    && (forall p, q :: open(p).tag == open(q).tag ==> p == q)
  }

  ghost predicate OpensBy(open: int -> Step, steps: seq<Step>) {
    forall k :: 0 <= k < |steps| && steps[k].OpenPort? ==> steps[k] == open(steps[k].port)
  }

  predicate PortFree(t: Rows, tag: string, port: int) {
    tag in t.inbounds || !Held(t.inbounds, port)
  }

  predicate StepFree(t: Rows, step: Step) {
    match step
    case OpenPort(tag, port) => PortFree(t, tag, port)
    case AddClient(email, _, _) => email !in t.clients
  }

  predicate AllFree(t: Rows, steps: seq<Step>) {
    forall k :: 0 <= k < |steps| ==> StepFree(t, steps[k])
  }

  lemma PortStaysOnce(t: Rows, step: Step, tag: string, port: int)
    requires step.OpenPort? ==> step.tag != tag && step.port != port
    ensures var after := Perform(t, step).0;
            (tag in after.inbounds <==> tag in t.inbounds) && (Held(after.inbounds, port) <==> Held(t.inbounds, port))
  {
    var after := Perform(t, step).0;
    if Held(t.inbounds, port) {
      var x :| x in t.inbounds && t.inbounds[x] == Inbound(port, ANY_ADDRESS);
      assert x in after.inbounds && after.inbounds[x] == t.inbounds[x];
    }
  }

  /** What opening other ports does not change for a port. */
  lemma {:induction false} PortStays(t: Rows, steps: seq<Step>, tag: string, port: int)
    requires forall k :: 0 <= k < |steps| && steps[k].OpenPort? ==> steps[k].tag != tag && steps[k].port != port
    ensures var after := PerformAll(t, steps).0;
            (tag in after.inbounds <==> tag in t.inbounds) && (Held(after.inbounds, port) <==> Held(t.inbounds, port))
    decreases |steps|
  {
    if steps != [] {
      var n := |steps| - 1;
      assert forall k :: 0 <= k < n ==> steps[..n][k] == steps[k];
      PortStays(t, steps[..n], tag, port);
      PortStaysOnce(PerformAll(t, steps[..n]).0, steps[n], tag, port);
    }
  }

  lemma EmailTakenIff(t: Rows, steps: seq<Step>, email: string)
    requires AllDone(t, steps)
    ensures email in PerformAll(t, steps).0.clients <==> email in t.clients || email in Emails(steps)
  {
    var after := PerformAll(t, steps).0.clients;
    EmailsIff(steps, email);
    if email in after { ClientsLeft(t, steps, email, after[email]); }
    if email in t.clients { ClientsLeft(t, steps, email, t.clients[email]); }
    if email in Emails(steps) {
      var k :| 0 <= k < |steps| && steps[k].AddClient? && steps[k].email == email;
      ClientsLeft(t, steps, email, steps[k].row);
    }
  }

  /** With the earlier steps through, a step goes through exactly when nothing was in its way at the start
      and no earlier step added its email. */
  lemma StepGoesThrough(open: int -> Step, t: Rows, before: seq<Step>, step: Step)
    requires Opens(open) && OpensBy(open, before + [step]) && AllDone(t, before)
    requires step.OpenPort? ==> step.port !in Opened(before)
    ensures Perform(PerformAll(t, before).0, step).1
       <==> StepFree(t, step) && (step.AddClient? ==> step.email !in Emails(before))
  {
    var all := before + [step];
    assert all[|before|] == step;
    match step
    case OpenPort(tag, port) =>
      OpenedIff(before, port);
      forall k | 0 <= k < |before| && before[k].OpenPort? ensures before[k].tag != tag && before[k].port != port {
        assert all[k] == before[k];
      }
      PortStays(t, before, tag, port);
    case AddClient(email, _, _) => EmailTakenIff(t, before, email);
  }

  lemma DistinctSplit<T>(s: seq<T>, x: T)
    ensures Distinct(s + [x]) <==> Distinct(s) && x !in s
  {
    var longer := s + [x];
    if Distinct(longer) {
      forall i, j | 0 <= i < j < |s| ensures s[i] != s[j] { assert longer[i] != longer[j]; }
      forall i | 0 <= i < |s| ensures s[i] != x { assert longer[i] != longer[|s|]; }
    }
  }

  lemma FreeSplit(t: Rows, steps: seq<Step>)
    requires steps != []
    ensures AllFree(t, steps) <==> AllFree(t, steps[..|steps| - 1]) && StepFree(t, steps[|steps| - 1])
  {
    var n := |steps| - 1;
    assert forall k :: 0 <= k < n ==> steps[..n][k] == steps[k];
    if AllFree(t, steps) {
      forall k | 0 <= k < n ensures StepFree(t, steps[..n][k]) { assert StepFree(t, steps[k]); }
    }
    if AllFree(t, steps[..n]) && StepFree(t, steps[n]) {
      forall k | 0 <= k < |steps| ensures StepFree(t, steps[k]) { if k < n { assert StepFree(t, steps[..n][k]); } }
    }
  }

  lemma OpenedSplit(open: int -> Step, steps: seq<Step>)
    requires steps != [] && OpensBy(open, steps) && Distinct(Opened(steps))
    ensures var n := |steps| - 1;
            && OpensBy(open, steps[..n]) && Distinct(Opened(steps[..n]))
            && (steps[n].OpenPort? ==> steps[n].port !in Opened(steps[..n]))
  {
    var n := |steps| - 1;
    assert forall k :: 0 <= k < n ==> steps[..n][k] == steps[k];
    if steps[n].OpenPort? { DistinctSplit(Opened(steps[..n]), steps[n].port); }
  }

  /** Exactly when a batch comes to its end: nothing is in the way of any of its steps, and it names no email
      twice. */
  lemma {:induction false} AllDoneIff(open: int -> Step, t: Rows, steps: seq<Step>)
    requires Opens(open) && OpensBy(open, steps) && Distinct(Opened(steps))
    ensures AllDone(t, steps) <==> AllFree(t, steps) && Distinct(Emails(steps))
    decreases |steps|
  {
    if steps != [] {
      var n := |steps| - 1;
      OpenedSplit(open, steps);
      AllDoneIff(open, t, steps[..n]);
      FreeSplit(t, steps);
      if steps[n].AddClient? { DistinctSplit(Emails(steps[..n]), steps[n].email); }
      if AllDone(t, steps[..n]) {
        assert steps == steps[..n] + [steps[n]];
        StepGoesThrough(open, t, steps[..n], steps[n]);
      }
    }
  }

  // ---------- From entries to steps ----------

  function MapAll<T, U>(f: T -> U, items: seq<T>): (r: seq<U>)
    ensures |r| == |items| && forall i :: 0 <= i < |r| ==> r[i] == f(items[i])
  {
    seq(|items|, i requires 0 <= i < |items| => f(items[i]))
  }

  lemma MapAllAppend<T, U>(f: T -> U, a: seq<T>, b: seq<T>)
    ensures MapAll(f, a + b) == MapAll(f, a) + MapAll(f, b)
  {
  }

  function GroupSteps<T>(open: int -> Step, add: ((int, T)) -> Step, port: int, items: seq<(int, T)>): seq<Step> {
    [open(port)] + MapAll(add, items)
  }

  /** Port after port, each with its entries. */
  function StepsFor<T>(open: int -> Step, add: ((int, T)) -> Step, order: seq<int>, items: seq<(int, T)>): seq<Step> {
    if order == [] then []
    else
      var port := order[|order| - 1];
      StepsFor(open, add, order[..|order| - 1], items) + GroupSteps(open, add, port, OfPort(items, port))
  }

  ghost predicate AddsClients<T(!new)>(add: ((int, T)) -> Step) {
    forall x :: add(x).AddClient?
  }

  lemma {:induction false} OpenedAppend(a: seq<Step>, b: seq<Step>)
    ensures Opened(a + b) == Opened(a) + Opened(b)
    decreases |b|
  {
    if b == [] {
      assert a + b == a;
    } else {
      assert (a + b)[..|a + b| - 1] == a + b[..|b| - 1];
      OpenedAppend(a, b[..|b| - 1]);
    }
  }

  lemma {:induction false} EmailsAppend(a: seq<Step>, b: seq<Step>)
    ensures Emails(a + b) == Emails(a) + Emails(b)
    decreases |b|
  {
    if b == [] {
      assert a + b == a;
    } else {
      assert (a + b)[..|a + b| - 1] == a + b[..|b| - 1];
      EmailsAppend(a, b[..|b| - 1]);
    }
  }

  function EmailOf(step: Step): string {
    if step.AddClient? then step.email else ""
  }

  lemma {:induction false} AddsOnly<T(!new)>(add: ((int, T)) -> Step, items: seq<(int, T)>)
    requires AddsClients(add)
    ensures Opened(MapAll(add, items)) == []
    ensures Emails(MapAll(add, items)) == MapAll((x: (int, T)) => EmailOf(add(x)), items)
    decreases |items|
  {
    if items != [] {
      var n := |items| - 1;
      AddsOnly(add, items[..n]);
      assert MapAll(add, items)[..n] == MapAll(add, items[..n]);
      var f := (x: (int, T)) => EmailOf(add(x));
      assert MapAll(f, items) == MapAll(f, items[..n]) + [f(items[n])];
      assert MapAll(add, items)[n] == add(items[n]);
    }
  }

  lemma GroupOpensBy<T(!new)>(open: int -> Step, add: ((int, T)) -> Step, port: int, items: seq<(int, T)>)
    requires Opens(open) && AddsClients(add)
    ensures OpensBy(open, GroupSteps(open, add, port, items))
  {
    var steps := GroupSteps(open, add, port, items);
    assert forall k :: 0 < k < |steps| ==> steps[k] == add(items[k - 1]);
  }

  lemma GroupMeaning<T(!new)>(open: int -> Step, add: ((int, T)) -> Step, port: int, items: seq<(int, T)>)
    requires Opens(open) && AddsClients(add)
    ensures Opened(GroupSteps(open, add, port, items)) == [port]
    ensures Emails(GroupSteps(open, add, port, items)) == MapAll((x: (int, T)) => EmailOf(add(x)), items)
    ensures OpensBy(open, GroupSteps(open, add, port, items))
  {
    AddsOnly(add, items);
    OpenedAppend([open(port)], MapAll(add, items));
    EmailsAppend([open(port)], MapAll(add, items));
    OneOpens(open(port));
    GroupOpensBy(open, add, port, items);
  }

  lemma OneOpens(step: Step)
    requires step.OpenPort?
    ensures Opened([step]) == [step.port] && Emails([step]) == []
  {
    assert [step][..0] == [];
  }

  lemma OpensByAppend(open: int -> Step, a: seq<Step>, b: seq<Step>)
    requires OpensBy(open, a) && OpensBy(open, b)
    ensures OpensBy(open, a + b)
  {
  }

  lemma {:induction false} StepsMeaning<T(!new)>(open: int -> Step, add: ((int, T)) -> Step, order: seq<int>, items: seq<(int, T)>)
    requires Opens(open) && AddsClients(add)
    ensures Opened(StepsFor(open, add, order, items)) == order
    ensures Emails(StepsFor(open, add, order, items)) == MapAll((x: (int, T)) => EmailOf(add(x)), Flat(order, items))
    ensures OpensBy(open, StepsFor(open, add, order, items))
    decreases |order|
  {
    if order != [] {
      var before, port := order[..|order| - 1], order[|order| - 1];
      var group := OfPort(items, port);
      StepsMeaning(open, add, before, items);
      GroupMeaning(open, add, port, group);
      OpenedAppend(StepsFor(open, add, before, items), GroupSteps(open, add, port, group));
      EmailsAppend(StepsFor(open, add, before, items), GroupSteps(open, add, port, group));
      OpensByAppend(open, StepsFor(open, add, before, items), GroupSteps(open, add, port, group));
      MapAllAppend((x: (int, T)) => EmailOf(add(x)), Flat(before, items), group);
    }
  }

  // ---------- Regrouping changes no multiset ----------

  lemma {:induction false} DistinctIff<T>(s: seq<T>)
    ensures Distinct(s) <==> forall x :: multiset(s)[x] <= 1
    decreases |s|
  {
    if s != [] {
      var n := |s| - 1;
      assert s == s[..n] + [s[n]];
      DistinctIff(s[..n]);
      DistinctSplit(s[..n], s[n]);
      if s[n] in s[..n] {
        assert multiset(s)[s[n]] >= 2;
      } else {
        assert forall x :: multiset(s)[x] == if x == s[n] then 1 else multiset(s[..n])[x];
      }
    }
  }

  lemma TakenOut<T>(t: seq<T>, i: nat)
    requires i < |t|
    ensures multiset(t) == multiset(t[..i] + t[i + 1..]) + multiset{t[i]}
  {
    assert t == t[..i] + [t[i]] + t[i + 1..];
  }

  lemma CancelOne<T>(a: multiset<T>, b: multiset<T>, x: T)
    requires a + multiset{x} == b + multiset{x}
    ensures a == b
  {
    assert a == a + multiset{x} - multiset{x} && b == b + multiset{x} - multiset{x};
  }

  function Without<T>(t: seq<T>, i: nat): (r: seq<T>)
    requires i < |t|
    ensures |r| == |t| - 1
  {
    t[..i] + t[i + 1..]
  }

  lemma LastFound<T>(s: seq<T>, t: seq<T>) returns (i: nat)
    requires s != [] && multiset(s) == multiset(t)
    ensures i < |t| && t[i] == s[|s| - 1] && multiset(s[..|s| - 1]) == multiset(Without(t, i))
  {
    var n := |s| - 1;
    assert s == s[..n] + [s[n]];
    assert s[n] in multiset(t);
    i :| 0 <= i < |t| && t[i] == s[n];
    TakenOut(t, i);
    CancelOne(multiset(s[..n]), multiset(Without(t, i)), s[n]);
  }

  lemma MapWithout<T, U>(f: T -> U, t: seq<T>, i: nat)
    requires i < |t|
    ensures multiset(MapAll(f, t)) == multiset(MapAll(f, Without(t, i))) + multiset{f(t[i])}
  {
    TakenOut(MapAll(f, t), i);
    assert MapAll(f, Without(t, i)) == Without(MapAll(f, t), i);
  }

  lemma {:induction false} MapMultiset<T, U>(f: T -> U, s: seq<T>, t: seq<T>)
    requires multiset(s) == multiset(t)
    ensures multiset(MapAll(f, s)) == multiset(MapAll(f, t))
    decreases |s|
  {
    if s == [] {
      assert |multiset(t)| == 0;
    } else {
      var n := |s| - 1;
      var i := LastFound(s, t);
      MapWithout(f, t, i);
      MapWithout(f, s, n);
      assert Without(s, n) == s[..n];
      MapMultiset(f, s[..n], Without(t, i));
    }
  }

  lemma SameEmailsApart<T(!new)>(add: ((int, T)) -> Step, items: seq<(int, T)>)
    ensures Distinct(MapAll((x: (int, T)) => EmailOf(add(x)), Flat(FirstPorts(items), items)))
       <==> Distinct(MapAll((x: (int, T)) => EmailOf(add(x)), items))
  {
    var f := (x: (int, T)) => EmailOf(add(x));
    GroupsPartition(items);
    MapMultiset(f, Flat(FirstPorts(items), items), items);
    DistinctIff(MapAll(f, Flat(FirstPorts(items), items)));
    DistinctIff(MapAll(f, items));
  }

  // ---------- A whole batch ----------

  lemma FreeAppend(t: Rows, a: seq<Step>, b: seq<Step>)
    ensures AllFree(t, a + b) <==> AllFree(t, a) && AllFree(t, b)
  {
    if AllFree(t, a + b) {
      forall k | 0 <= k < |a| ensures StepFree(t, a[k]) { assert (a + b)[k] == a[k]; }
      forall k | 0 <= k < |b| ensures StepFree(t, b[k]) { assert (a + b)[|a| + k] == b[k]; }
    }
  }

  /** The port and the email of an entry are there to be had. */
  predicate EntryFree<T>(open: int -> Step, add: ((int, T)) -> Step, t: Rows, x: (int, T)) {
    StepFree(t, open(x.0)) && StepFree(t, add(x))
  }

  lemma GroupFree<T(!new)>(open: int -> Step, add: ((int, T)) -> Step, t: Rows, port: int, items: seq<(int, T)>)
    requires items != [] && forall x :: x in items ==> x.0 == port
    ensures AllFree(t, GroupSteps(open, add, port, items)) <==> forall x :: x in items ==> EntryFree(open, add, t, x)
  {
    var steps := GroupSteps(open, add, port, items);
    assert steps[0] == open(port);
    if AllFree(t, steps) {
      forall x | x in items ensures EntryFree(open, add, t, x) {
        var i :| 0 <= i < |items| && items[i] == x;
        assert steps[i + 1] == add(x) && StepFree(t, steps[i + 1]) && StepFree(t, steps[0]);
      }
    }
    if forall x :: x in items ==> EntryFree(open, add, t, x) {
      forall k | 0 <= k < |steps| ensures StepFree(t, steps[k]) {
        if k == 0 { assert items[0] in items; } else { assert items[k - 1] in items && steps[k] == add(items[k - 1]); }
      }
    }
  }

  lemma {:induction false} BatchFree<T(!new)>(open: int -> Step, add: ((int, T)) -> Step, t: Rows, order: seq<int>, items: seq<(int, T)>)
    requires forall k :: 0 <= k < |order| ==> OfPort(items, order[k]) != []
    ensures AllFree(t, StepsFor(open, add, order, items)) <==> forall x :: x in Flat(order, items) ==> EntryFree(open, add, t, x)
    decreases |order|
  {
    if order != [] {
      var before, port := order[..|order| - 1], order[|order| - 1];
      BatchFree(open, add, t, before, items);
      OfPortIff(items, port);
      GroupFree(open, add, t, port, OfPort(items, port));
      FreeAppend(t, StepsFor(open, add, before, items), GroupSteps(open, add, port, OfPort(items, port)));
    }
  }

  function BatchSteps<T>(open: int -> Step, add: ((int, T)) -> Step, items: seq<(int, T)>): seq<Step> {
    StepsFor(open, add, FirstPorts(items), items)
  }

  lemma FlatHolds<T(!new)>(items: seq<(int, T)>)
    ensures forall x :: x in Flat(FirstPorts(items), items) <==> x in items
  {
    GroupsPartition(items);
    forall x ensures x in Flat(FirstPorts(items), items) <==> x in items {
      assert x in multiset(Flat(FirstPorts(items), items)) <==> x in multiset(items);
    }
  }

  /** Exactly when every entry of a batch becomes a client: for each entry, the inbound of its port exists or the
      port is held by no other inbound, its email is not taken in the tenant, and no two entries have the
      same email. */
  lemma BatchDoneIff<T(!new)>(open: int -> Step, add: ((int, T)) -> Step, t: Rows, items: seq<(int, T)>)
    requires Opens(open) && AddsClients(add)
    ensures AllDone(t, BatchSteps(open, add, items))
       <==> (forall x :: x in items ==> EntryFree(open, add, t, x)) && Distinct(MapAll((x: (int, T)) => EmailOf(add(x)), items))
  {
    var order := FirstPorts(items);
    forall k | 0 <= k < |order| ensures OfPort(items, order[k]) != [] {
      assert order[k] in order;
      FirstPortsIff(items, order[k]);
    }
    BatchFree(open, add, t, order, items);
    FlatHolds(items);
    StepsMeaning(open, add, order, items);
    SameEmailsApart(add, items);
    AllDoneIff(open, t, BatchSteps(open, add, items));
  }

  predicate MakesClient(step: Step, email: string, row: ClientRow) {
    step.AddClient? && step.email == email && step.row == row
  }

  ghost predicate ForPort(open: int -> Step, order: seq<int>, step: Step) {
    exists p :: p in order && step == open(p)
  }

  ghost predicate ForItem<T(!new)>(add: ((int, T)) -> Step, items: seq<(int, T)>, step: Step) {
    exists x :: x in items && step == add(x)
  }

  lemma GroupMembers<T(!new)>(open: int -> Step, add: ((int, T)) -> Step, port: int, items: seq<(int, T)>, step: Step)
    ensures step in GroupSteps(open, add, port, items) <==> step == open(port) || ForItem(add, items, step)
  {
    var steps := GroupSteps(open, add, port, items);
    assert steps[0] == open(port);
    if step in steps && step != open(port) {
      var k :| 0 <= k < |steps| && steps[k] == step;
      assert step == add(items[k - 1]) && items[k - 1] in items;
    }
    if ForItem(add, items, step) {
      var x :| x in items && step == add(x);
      var i :| 0 <= i < |items| && items[i] == x;
      assert steps[i + 1] == step;
    }
  }

  lemma {:induction false} StepMembers<T(!new)>(open: int -> Step, add: ((int, T)) -> Step, order: seq<int>, items: seq<(int, T)>, step: Step)
    ensures step in StepsFor(open, add, order, items) <==> ForPort(open, order, step) || ForItem(add, Flat(order, items), step)
    decreases |order|
  {
    if order != [] {
      var before, port := order[..|order| - 1], order[|order| - 1];
      assert order == before + [port];
      StepMembers(open, add, before, items, step);
      GroupMembers(open, add, port, OfPort(items, port), step);
    }
  }

  /** The steps of a batch open the ports of its entries and add its entries, and do nothing else. */
  lemma BatchMembers<T(!new)>(open: int -> Step, add: ((int, T)) -> Step, items: seq<(int, T)>, step: Step)
    ensures step in BatchSteps(open, add, items) <==> exists x :: x in items && (step == open(x.0) || step == add(x))
  {
    var order := FirstPorts(items);
    StepMembers(open, add, order, items, step);
    FlatHolds(items);
    if p :| p in order && step == open(p) {
      FirstPortsIff(items, p);
      OfPortIff(items, p);
      assert OfPort(items, p)[0] in OfPort(items, p);
    }
    if x :| x in items && step == open(x.0) {
      FirstPortsIff(items, x.0);
      OfPortIff(items, x.0);
      assert x in OfPort(items, x.0);
    }
  }

  lemma AddsIff(steps: seq<Step>, email: string, row: ClientRow)
    ensures Adds(steps, |steps|, email, row) <==> exists step :: step in steps && MakesClient(step, email, row)
  {
    if step :| step in steps && MakesClient(step, email, row) {
      var k :| 0 <= k < |steps| && steps[k] == step;
      assert steps[k].AddClient?;
    }
    if Adds(steps, |steps|, email, row) {
      var k :| 0 <= k < |steps| && steps[k].AddClient? && steps[k].email == email && steps[k].row == row;
      assert steps[k] in steps && MakesClient(steps[k], email, row);
    }
  }

  lemma BatchAdds<T(!new)>(open: int -> Step, add: ((int, T)) -> Step, items: seq<(int, T)>, email: string, row: ClientRow)
    requires Opens(open)
    ensures (exists step :: step in BatchSteps(open, add, items) && MakesClient(step, email, row))
       <==> exists x :: x in items && MakesClient(add(x), email, row)
  {
    var steps := BatchSteps(open, add, items);
    if step :| step in steps && MakesClient(step, email, row) {
      BatchMembers(open, add, items, step);
      var x :| x in items && (step == open(x.0) || step == add(x));
      var port: int := x.0;
      assert open(port).OpenPort?;
    }
    if x :| x in items && MakesClient(add(x), email, row) { BatchMembers(open, add, items, add(x)); }
  }

  /** A batch that comes to its end has added exactly one client for each of its entries, and no other. */
  lemma BatchClients<T(!new)>(open: int -> Step, add: ((int, T)) -> Step, t: Rows, items: seq<(int, T)>, email: string, row: ClientRow)
    requires Opens(open) && AllDone(t, BatchSteps(open, add, items))
    ensures HasClient(PerformAll(t, BatchSteps(open, add, items)).0, email, row)
       <==> HasClient(t, email, row) || exists x :: x in items && MakesClient(add(x), email, row)
  {
    ClientsLeft(t, BatchSteps(open, add, items), email, row);
    AddsIff(BatchSteps(open, add, items), email, row);
    BatchAdds(open, add, items, email, row);
  }

  // ---------- Where the clients of a batch come in and go out ----------

  /** The client comes in on this port and goes out to this target. */
  predicate Leads(t: Rows, email: string, port: int, target: Target) {
    && email in t.clients
    && var row := t.clients[email];
    && row.inboundTag in t.inbounds && t.inbounds[row.inboundTag].port == port
    && row.outboundTag in t.outbounds && t.outbounds[row.outboundTag] == target
  }

  /** Each client is put on the inbound of the port of its entry. */
  ghost predicate OnItsPort<T(!new)>(open: int -> Step, add: ((int, T)) -> Step) {
    forall x :: add(x).AddClient? && open(x.0).OpenPort? && add(x).row.inboundTag == open(x.0).tag
  }

  /** A row that is already there under a tag of the step is the row the step would have created. */
  predicate RowsFit(t: Rows, step: Step) {
    match step
    case OpenPort(tag, port) => tag in t.inbounds ==> t.inbounds[tag].port == port
    case AddClient(_, row, target) => row.outboundTag in t.outbounds ==> t.outbounds[row.outboundTag] == target
  }

  predicate SameWayOut(a: Step, b: Step) {
    a.AddClient? && b.AddClient? && a.row.outboundTag == b.row.outboundTag ==> a.target == b.target
  }

  predicate Comes(t: Rows, step: Step) {
    step.OpenPort? ==> step.tag in t.inbounds && t.inbounds[step.tag].port == step.port
  }

  predicate Goes(t: Rows, step: Step) {
    step.AddClient? ==> step.row.outboundTag in t.outbounds && t.outbounds[step.row.outboundTag] == step.target
  }

  lemma ComesIff(open: int -> Step, t: Rows, steps: seq<Step>, step: Step)
    requires Opens(open) && OpensBy(open, steps) && AllDone(t, steps) && step in steps && step.OpenPort?
    ensures Comes(PerformAll(t, steps).0, step) <==> RowsFit(t, step)
  {
    InboundsLeft(t, steps, step.tag);
    assert steps[..|steps|] == steps;
    assert OpensTag(step, step.tag);
    forall other | other in steps && OpensTag(other, step.tag) ensures other.port == step.port {
      assert open(other.port).tag == open(step.port).tag;
    }
  }

  lemma GoesIff(t: Rows, steps: seq<Step>)
    requires AllDone(t, steps)
    ensures (forall step :: step in steps ==> Goes(PerformAll(t, steps).0, step))
       <==> (forall step :: step in steps && step.AddClient? ==> RowsFit(t, step)) && forall a, b :: a in steps && b in steps ==> SameWayOut(a, b)
  {
    var after := PerformAll(t, steps).0;
    forall step | step in steps && step.AddClient?
      ensures var tag := step.row.outboundTag;
              var first := FirstTarget(steps, tag);
              first.Some? && OutboundUnder(after, tag) == Some(if tag in t.outbounds then t.outbounds[tag] else first.value)
    {
      OutboundsLeft(t, steps, step.row.outboundTag);
      assert OffersTag(step, step.row.outboundTag);
    }
  }

  lemma LeadsWhen<T(!new)>(open: int -> Step, add: ((int, T)) -> Step, t: Rows, items: seq<(int, T)>, x: (int, T))
    requires Opens(open) && OnItsPort(open, add) && AllDone(t, BatchSteps(open, add, items)) && x in items
    ensures var after := PerformAll(t, BatchSteps(open, add, items)).0;
            Leads(after, add(x).email, x.0, add(x).target) <==> Comes(after, open(x.0)) && Goes(after, add(x))
  {
    BatchClients(open, add, t, items, add(x).email, add(x).row);
  }

  ghost predicate AllLead<T(!new)>(add: ((int, T)) -> Step, t: Rows, items: seq<(int, T)>)
    requires forall x :: x in items ==> add(x).AddClient?
  {
    forall x :: x in items ==> Leads(t, add(x).email, x.0, add(x).target)
  }

  ghost predicate AllFit<T(!new)>(open: int -> Step, add: ((int, T)) -> Step, t: Rows, items: seq<(int, T)>) {
    forall x :: x in items ==> RowsFit(t, open(x.0)) && RowsFit(t, add(x))
  }

  ghost predicate AllAgree<T(!new)>(add: ((int, T)) -> Step, items: seq<(int, T)>) {
    forall x, y :: x in items && y in items ==> SameWayOut(add(x), add(y))
  }

  lemma BatchGoesIff<T(!new)>(open: int -> Step, add: ((int, T)) -> Step, t: Rows, items: seq<(int, T)>)
    requires Opens(open) && OnItsPort(open, add) && AllDone(t, BatchSteps(open, add, items))
    ensures (forall x :: x in items ==> Goes(PerformAll(t, BatchSteps(open, add, items)).0, add(x)))
       <==> (forall x :: x in items ==> RowsFit(t, add(x))) && AllAgree(add, items)
  {
    var steps := BatchSteps(open, add, items);
    GoesIff(t, steps);
    forall x | x in items ensures add(x) in steps { BatchMembers(open, add, items, add(x)); }
    forall step | step in steps && step.AddClient? ensures exists x :: x in items && step == add(x) {
      BatchMembers(open, add, items, step);
    }
  }

  /** Every client of a batch comes in on its own port and goes out to its own target exactly when the rows that
      were there before under the batch's tags have that port and that target, and no two entries share an
      outbound tag with different targets. */
  lemma BatchLeadIff<T(!new)>(open: int -> Step, add: ((int, T)) -> Step, t: Rows, items: seq<(int, T)>)
    requires Opens(open) && OnItsPort(open, add) && AllDone(t, BatchSteps(open, add, items))
    ensures AllLead(add, PerformAll(t, BatchSteps(open, add, items)).0, items) <==> AllFit(open, add, t, items) && AllAgree(add, items)
  {
    var steps := BatchSteps(open, add, items);
    var after := PerformAll(t, steps).0;
    StepsMeaning(open, add, FirstPorts(items), items);
    forall x | x in items ensures Comes(after, open(x.0)) <==> RowsFit(t, open(x.0)) {
      BatchMembers(open, add, items, open(x.0));
      ComesIff(open, t, steps, open(x.0));
    }
    forall x | x in items ensures Leads(after, add(x).email, x.0, add(x).target) <==> Comes(after, open(x.0)) && Goes(after, add(x)) {
      LeadsWhen(open, add, t, items, x);
    }
    BatchGoesIff(open, add, t, items);
  }

  lemma BrokenBefore(t: Rows, before: seq<Step>, group: seq<Step>)
    requires !AllDone(t, before)
    ensures PerformAll(t, before + group) == PerformAll(t, before) && !AllDone(t, before + group)
  {
    PerformAppend(t, before, group);
  }

  /** Breaking off in a group is breaking off in the batch. */
  lemma {:induction false} BatchBroken<T>(open: int -> Step, add: ((int, T)) -> Step, t: Rows, order: seq<int>, g: nat, items: seq<(int, T)>)
    requires g <= |order| && !AllDone(t, StepsFor(open, add, order[..g], items))
    ensures PerformAll(t, StepsFor(open, add, order, items)) == PerformAll(t, StepsFor(open, add, order[..g], items))
    ensures !AllDone(t, StepsFor(open, add, order, items))
    decreases |order|
  {
    if g == |order| {
      assert order[..g] == order;
    } else {
      var n := |order| - 1;
      assert order[..n][..g] == order[..g];
      BatchBroken(open, add, t, order[..n], g, items);
      BrokenBefore(t, StepsFor(open, add, order[..n], items), GroupSteps(open, add, order[n], OfPort(items, order[n])));
    }
  }

  lemma StepsGrow<T>(open: int -> Step, add: ((int, T)) -> Step, order: seq<int>, g: nat, items: seq<(int, T)>)
    requires g < |order|
    ensures StepsFor(open, add, order[..g + 1], items)
         == StepsFor(open, add, order[..g], items) + GroupSteps(open, add, order[g], OfPort(items, order[g]))
  {
    assert order[..g + 1][..g] == order[..g];
  }

  // ---------- A batch whose first email is taken ----------

  lemma {:induction false} FirstHead<T>(items: seq<(int, T)>)
    requires items != []
    ensures FirstPorts(items) != [] && FirstPorts(items)[0] == items[0].0
    ensures OfPort(items, items[0].0) != [] && OfPort(items, items[0].0)[0] == items[0]
    decreases |items|
  {
    if |items| > 1 { FirstHead(items[..|items| - 1]); }
  }

  lemma Regroup<T>(a: seq<T>, b: seq<T>, c: seq<T>)
    ensures (a + b) + c == a + (b + c)
  {
  }

  lemma StepsOfOne<T>(open: int -> Step, add: ((int, T)) -> Step, port: int, items: seq<(int, T)>)
    ensures StepsFor(open, add, [port], items) == GroupSteps(open, add, port, OfPort(items, port))
  {
    assert [port][..0] == [];
    assert StepsFor(open, add, [], items) == [];
  }

  lemma {:induction false} StepsHead<T>(open: int -> Step, add: ((int, T)) -> Step, order: seq<int>, items: seq<(int, T)>) returns (rest: seq<Step>)
    requires order != []
    ensures StepsFor(open, add, order, items) == GroupSteps(open, add, order[0], OfPort(items, order[0])) + rest
    decreases |order|
  {
    if |order| == 1 {
      assert order == [order[0]];
      StepsOfOne(open, add, order[0], items);
      rest := [];
    } else {
      var before, port := order[..|order| - 1], order[|order| - 1];
      var more := StepsHead(open, add, before, items);
      var last := GroupSteps(open, add, port, OfPort(items, port));
      rest := more + last;
      Regroup(GroupSteps(open, add, order[0], OfPort(items, order[0])), more, last);
    }
  }

  /** What remains when the first client cannot be created: the inbound of the port and the outbound, new or
      found; or nothing new, if not even the port can be opened. */
  function LeftByFirst(t: Rows, opens: Step, adds: Step): (Rows, nat)
    requires opens.OpenPort? && adds.AddClient?
  {
    if PortFree(t, opens.tag, opens.port) then (WithOutbound(Perform(t, opens).0, adds.row.outboundTag, adds.target), 1) else (t, 0)
  }

  lemma FirstTwo(t: Rows, opens: Step, adds: Step)
    requires opens.OpenPort? && adds.AddClient? && adds.email in t.clients
    ensures PerformAll(t, [opens, adds]) == LeftByFirst(t, opens, adds)
  {
    assert PerformAll(t, []) == (t, 0);
    assert [] + [opens] == [opens] && [opens] + [adds] == [opens, adds];
  }

  lemma GroupHead<T>(open: int -> Step, add: ((int, T)) -> Step, port: int, items: seq<(int, T)>)
    requires items != []
    ensures GroupSteps(open, add, port, items) == [open(port), add(items[0])] + MapAll(add, items)[1..]
  {
  }

  lemma BatchHead<T>(open: int -> Step, add: ((int, T)) -> Step, items: seq<(int, T)>) returns (rest: seq<Step>)
    requires items != []
    ensures BatchSteps(open, add, items) == [open(items[0].0), add(items[0])] + rest
  {
    FirstHead(items);
    var more := StepsHead(open, add, FirstPorts(items), items);
    var group := OfPort(items, items[0].0);
    GroupHead(open, add, items[0].0, group);
    rest := MapAll(add, group)[1..] + more;
    Regroup([open(items[0].0), add(items[0])], MapAll(add, group)[1..], more);
  }

  /** Creation starts with the first entry's port and client; if that email is taken, no client is created
      and nothing after it is tried. */
  lemma FirstEmailTaken<T>(open: int -> Step, add: ((int, T)) -> Step, t: Rows, items: seq<(int, T)>)
    requires items != [] && add(items[0]).AddClient? && open(items[0].0).OpenPort? && add(items[0]).email in t.clients
    ensures PerformAll(t, BatchSteps(open, add, items)) == LeftByFirst(t, open(items[0].0), add(items[0]))
    ensures !AllDone(t, BatchSteps(open, add, items)) && PerformAll(t, BatchSteps(open, add, items)).0.clients == t.clients
  {
    var rest := BatchHead(open, add, items);
    PerformAppend(t, [open(items[0].0), add(items[0])], rest);
    FirstTwo(t, open(items[0].0), add(items[0]));
  }
}
