/** Batched OSV discovery: `DiscoveryClient.Query` (src/osv/discovery.go), its nested loops over batches,
    pages and positions.  Whatever the server answers, the requests and the results are those of a
    proper call. */
module OsvDiscovery {
  import opened ScanTypes
  import opened Text
  import opened IdLists
  import opened OsvPaging

  // ---------- one page of one query ----------

  lemma PageMore(vulns: seq<string>, i: nat)
    requires i < |vulns|
    ensures AllReadable(vulns[..i + 1]) <==> AllReadable(vulns[..i]) && Readable(vulns[i])
    ensures ReadableOf(vulns[..i + 1]) == ReadableOf(vulns[..i]) + if Readable(vulns[i]) then [vulns[i]] else []
  {
    hide Readable;
    assert vulns[..i + 1] == vulns[..i] + [vulns[i]];
    assert vulns[..i + 1][..i] == vulns[..i];
  }

  lemma PageNone()
    ensures AllReadable([]) && ReadableOf([]) == []
  {
  }

  /** The identifiers of a page are kept; an unreadable one is an error but hides none of the others. */
  method ReadPage(r: QueryResult, vulns: seq<string>) returns (s: QueryResult)
    ensures s == r.(ids := r.ids + ReadableOf(vulns), error := if AllReadable(vulns) then r.error else INVALID_ID)
  {
    hide Readable, AllReadable, ReadableOf;
    s := r;
    PageNone();
    assert vulns[..0] == [];
    for i := 0 to |vulns|
      invariant s.ids == r.ids + ReadableOf(vulns[..i])
      invariant s == r.(ids := s.ids, error := if AllReadable(vulns[..i]) then r.error else INVALID_ID)
    {
      PageMore(vulns, i);
      if !Readable(vulns[i]) {
        s := s.(error := INVALID_ID);
        continue;
      }
      s := s.(ids := s.ids + [vulns[i]]);
    }
    assert vulns[..|vulns|] == vulns;
  }

  /** Where a query stands after its n-th page: finished, or going on with the next token. */
  datatype Step = Finished(result: QueryResult) | Next(result: QueryResult, token: string)

  /** The result a query shows on a trail. */
  function Shown(q: PackageVersion, t: Trail): QueryResult {
    QueryResult(q, t.ids, t.end.Done?, t.end.Text())
  }

  method ReadNext(max: nat, r: QueryResult, seen: set<string>, n: nat, p: Page, ghost t: Trail) returns (step: Step)
    requires t.end.Open? && r == Shown(r.query, t) && seen == t.seen
    ensures
      var u := Turn(max, t, n, p);
      && step.result == Shown(r.query, u)
      && (step.Next? <==> u.end.Open?)
      && (step.Next? ==> step.token == u.token && u.seen == seen + {step.token} && n < max)
  {
    hide ReadableOf;
    var s := ReadPage(r, p.vulns);
    if s.error != "" {
      return Finished(s);
    }
    if p.next == "" {
      return Finished(s.(complete := true));
    }
    if p.next in seen {
      return Finished(s.(error := REPEATED));
    }
    if n >= max {
      return Finished(s.(error := TOO_MANY));
    }
    step := Next(s, p.next);
  }

  // ---------- the state of a call ----------

  /** Results so far, the queries of the running batch with their tokens, and those still waiting;
      indices ascend, so none is in two places. */
  datatype Desk = Desk(results: seq<QueryResult>, active: seq<nat>, tokens: map<nat, string>, seen: map<nat, set<string>>, pending: seq<nat>)

  function TokenOf(d: Desk, i: nat): string {
    if i in d.tokens then d.tokens[i] else ""
  }

  function SeenOf(d: Desk, i: nat): set<string> {
    if i in d.seen then d.seen[i] else {}
  }

  /** Going on: n - 1 pages were read, and all of them led further. */
  ghost predicate Going(env: Env, max: nat, q: PackageVersion, log: seq<Request>, i: nat, r: QueryResult, token: string, seen: set<string>, n: nat) {
    var t := TrailOf(env, max, log, i);
    && ValidQuery(q) && Trouble(env, log, i).None? && |Heard(env, log, i)| == n - 1
    && t.end.Open? && r == Shown(q, t) && token == t.token && seen == t.seen
  }

  ghost predicate Fresh(env: Env, q: PackageVersion, log: seq<Request>, i: nat, r: QueryResult) {
    ValidQuery(q) && Trouble(env, log, i).None? && Heard(env, log, i) == [] && r == QueryResult(q, [], false, "")
  }

  ghost predicate Settled(env: Env, max: nat, q: PackageVersion, log: seq<Request>, stop: Option<Stop>, i: nat, r: QueryResult) {
    Concluded(env, max, q, log, stop, i) && r == Outcome(env, max, q, log, stop, i)
  }

  /** A call at the n-th page of a batch. */
  datatype Call = Call(env: Env, max: nat, queries: seq<PackageVersion>, log: seq<Request>, stop: Option<Stop>) {
    ghost predicate At(d: Desk, n: nat, i: nat)
      requires i < |queries| == |d.results|
    {
      if i in d.active then Going(env, max, queries[i], log, i, d.results[i], TokenOf(d, i), SeenOf(d, i), n)
      else if i in d.pending then Fresh(env, queries[i], log, i, d.results[i])
      else Settled(env, max, queries[i], log, stop, i, d.results[i])
    }

    ghost predicate Orderly(d: Desk, n: nat) {
      && Proper(env, max, queries, log)
      && |d.results| == |queries|
      && Ascends(d.active + d.pending)
      && (forall i :: i in d.active || i in d.pending ==> i < |queries|)
      && forall i {:trigger At(d, n, i)} :: 0 <= i < |queries| ==> At(d, n, i)
    }

    function After(q: Request): Call {
      this.(log := log + [q])
    }
  }

  lemma Untouched(env: Env, log: seq<Request>, q: Request, i: nat)
    requires i !in q.who
    ensures Heard(env, log + [q], i) == Heard(env, log, i) && Trouble(env, log + [q], i) == Trouble(env, log, i)
  {
    assert (log + [q])[..|log|] == log;
  }

  lemma Failed(env: Env, log: seq<Request>, q: Request, i: nat)
    requires i in q.who && FaultOf(env, q).Some?
    ensures Heard(env, log + [q], i) == Heard(env, log, i) && Trouble(env, log + [q], i) == FaultOf(env, q)
  {
    assert (log + [q])[..|log|] == log;
  }

  lemma Given(env: Env, max: nat, log: seq<Request>, q: Request, i: nat)
    requires i in q.who && FaultOf(env, q).None?
    ensures PageFor(env, q, i).Some? && Trouble(env, log + [q], i).None?
    ensures Heard(env, log + [q], i) == Heard(env, log, i) + [PageFor(env, q, i).value]
    ensures TrailOf(env, max, log + [q], i) ==
            Turn(max, TrailOf(env, max, log, i), |Heard(env, log, i)| + 1, PageFor(env, q, i).value)
  {
    assert (log + [q])[..|log|] == log;
    var pages := Heard(env, log + [q], i);
    assert pages[..|pages| - 1] == Heard(env, log, i);
  }

  /** The next request, for the queries of the batch and their tokens. */
  ghost predicate IsNext(c: Call, d: Desk, q: Request) {
    && q.who == d.active && |q.batch| == |q.who| && !c.env.cancelled(q.tick) && Before(c.log, q.tick)
    && forall j :: 0 <= j < |q.who| ==> q.who[j] < |c.queries| && q.batch[j] == Asking(c.queries[q.who[j]], TokenOf(d, q.who[j]))
  }

  lemma NextIsProper(c: Call, d: Desk, n: nat, q: Request)
    requires c.Orderly(d, n) && IsNext(c, d, q)
    ensures Proper(c.env, c.max, c.queries, c.After(q).log)
  {
    hide Follow, Heard, Trouble;
    Apart(d.active, d.pending, 0);
    forall j | 0 <= j < |q.who|
      ensures Asks(c.env, c.max, c.queries, c.log, q.who[j], q.batch[j])
    {
      assert c.At(d, n, q.who[j]);
    }
    assert (c.log + [q])[..|c.log|] == c.log;
  }

  // ---------- giving up ----------

  method Mark(results: seq<QueryResult>, indices: seq<nat>, text: string) returns (r: seq<QueryResult>)
    requires forall i :: i in indices ==> i < |results|
    ensures |r| == |results|
    ensures forall i :: 0 <= i < |r| ==> r[i] == if i in indices then results[i].(error := text) else results[i]
  {
    r := results;
    for k := 0 to |indices|
      invariant |r| == |results|
      invariant forall i :: 0 <= i < |r| ==> r[i] == if i in indices[..k] then results[i].(error := text) else results[i]
    {
      assert indices[..k + 1] == indices[..k] + [indices[k]] && indices[k] in indices;
      r := r[indices[k] := results[indices[k]].(error := text)];
    }
    assert indices[..|indices|] == indices;
  }

  /** A failed request interrupts its own queries, each with what it has, and nothing else. */
  method GiveUp(ghost c: Call, d: Desk, ghost n: nat, ghost q: Request, text: string) returns (next: Desk)
    requires c.Orderly(d, n) && c.stop.None? && IsNext(c, d, q) && FaultOf(c.env, q) == Some(text)
    ensures next.active == [] && next.pending == d.pending && c.After(q).Orderly(next, 1)
    ensures |next.results| == |d.results|
    ensures forall i :: 0 <= i < |d.results| && i !in q.who ==> next.results[i] == d.results[i]
  {
    hide Going, Settled, Fresh;
    var results := Mark(d.results, d.active, text);
    next := d.(results := results, active := []);
    Apart(d.active, d.pending, 0);
    NextIsProper(c, d, n, q);
    assert next.active + next.pending == next.pending;
    forall i | 0 <= i < |c.queries|
      ensures c.After(q).At(next, 1, i)
    {
      assert c.At(d, n, i);
      Apart(d.active, d.pending, i);
      if i in d.active {
        FailedSettles(c, q, c.queries[i], i, d.results[i], TokenOf(d, i), SeenOf(d, i), n);
      } else {
        OthersStay(c, q, c.queries[i], i, d.results[i]);
      }
    }
  }

  lemma FailedSettles(c: Call, q: Request, query: PackageVersion, i: nat, r: QueryResult, token: string, seen: set<string>, n: nat)
    requires i in q.who && FaultOf(c.env, q).Some? && Going(c.env, c.max, query, c.log, i, r, token, seen, n)
    ensures Settled(c.env, c.max, query, c.log + [q], c.stop, i, r.(error := FaultOf(c.env, q).value))
  {
    Failed(c.env, c.log, q, i);
  }

  /** What a request does not ask about stays where it is. */
  lemma OthersStay(c: Call, q: Request, query: PackageVersion, i: nat, r: QueryResult)
    requires i !in q.who
    ensures Fresh(c.env, query, c.log + [q], i, r) <==> Fresh(c.env, query, c.log, i, r)
    ensures Settled(c.env, c.max, query, c.log + [q], c.stop, i, r) <==> Settled(c.env, c.max, query, c.log, c.stop, i, r)
  {
    Untouched(c.env, c.log, q, i);
  }

  /** The end of the context interrupts the batch, and skips everything that waits. */
  method SkipAll(ghost c: Call, d: Desk, ghost n: nat, ghost tick: nat) returns (next: Desk)
    requires c.Orderly(d, n) && c.stop.None?
    ensures next.active == [] && next.pending == [] && c.(stop := Some(Stop(tick, d.active))).Orderly(next, 1)
    ensures |next.results| == |d.results|
    ensures forall i :: 0 <= i < |d.results| && i !in d.active && i !in d.pending ==> next.results[i] == d.results[i]
  {
    hide Going, Settled, Fresh;
    var results := Mark(d.results, d.active, CANCELED);
    results := Mark(results, d.pending, SKIPPED + CANCELED);
    next := d.(results := results, active := [], pending := []);
    assert next.active + next.pending == [];
    ghost var stop := Stop(tick, d.active);
    forall i | 0 <= i < |c.queries|
      ensures c.(stop := Some(stop)).At(next, 1, i)
    {
      assert c.At(d, n, i);
      Apart(d.active, d.pending, i);
      StopSettles(c, d, n, stop, i);
    }
  }

  lemma StopSettles(c: Call, d: Desk, n: nat, stop: Stop, i: nat)
    requires i < |c.queries| == |d.results| && c.At(d, n, i) && c.stop.None? && stop.batch == d.active
    ensures
      var r := d.results[i];
      Settled(c.env, c.max, c.queries[i], c.log, Some(stop), i,
              if i in d.active then r.(error := CANCELED) else if i in d.pending then r.(error := SKIPPED + CANCELED) else r)
  {
  }

  lemma Apart(a: seq<nat>, b: seq<nat>, i: nat)
    requires Ascends(a + b)
    ensures Ascends(a) && Ascends(b)
    ensures !(i in a && i in b)
  {
    assert forall k :: 0 <= k < |a| ==> (a + b)[k] == a[k];
    assert forall k :: 0 <= k < |b| ==> (a + b)[|a| + k] == b[k];
  }

  // ---------- one page of a batch ----------

  /** A page half read: the queries from the k-th position on are still to look at, those before it that
      go on are past the page. */
  datatype Half = Half(results: seq<QueryResult>, next: seq<nat>, todo: seq<nat>, tokens: map<nat, string>, seen: map<nat, set<string>>, pending: seq<nat>) {
    function AsDesk(): Desk {
      Desk(results, next, tokens, seen, pending)
    }
  }

  ghost predicate HalfAt(c: Call, q: Request, h: Half, n: nat, i: nat)
    requires i < |c.queries| == |h.results|
  {
    if i in h.todo then Going(c.env, c.max, c.queries[i], c.log, i, h.results[i], TokenOf(h.AsDesk(), i), SeenOf(h.AsDesk(), i), n)
    else c.After(q).At(h.AsDesk(), n + 1, i)
  }

  ghost predicate HalfOrderly(c: Call, q: Request, h: Half, n: nat) {
    && |h.results| == |c.queries|
    && Ascends(h.next + h.todo + h.pending)
    && (forall i :: i in h.next || i in h.todo || i in h.pending ==> i < |c.queries|)
    && (h.next != [] ==> n < c.max)
    && forall i {:trigger HalfAt(c, q, h, n, i)} :: 0 <= i < |c.queries| ==> HalfAt(c, q, h, n, i)
  }

  lemma DropAscends(s: seq<nat>, k: nat)
    requires Ascends(s) && k < |s|
    ensures Ascends(s[..k] + s[k + 1..])
  {
  }

  lemma NotBefore(s: seq<nat>, k: nat, part: seq<nat>)
    requires Ascends(s) && k < |s| && (part == s[..k] || part == s[k + 1..])
    ensures s[k] !in part
  {
  }

  lemma HalfApart(a: seq<nat>, b: seq<nat>, c: seq<nat>)
    requires Ascends(a + b + c) && b != []
    ensures Ascends(a + b[1..] + c) && Ascends((a + [b[0]]) + b[1..] + c)
    ensures b[0] !in a && b[0] !in b[1..] && b[0] !in c
    ensures forall i :: i in b <==> i == b[0] || i in b[1..]
  {
    hide Ascends;
    var all := a + b + c;
    assert b == [b[0]] + b[1..];
    assert (a + [b[0]]) + b[1..] + c == all;
    assert all[..|a|] == a && all[|a| + 1..] == b[1..] + c && all[|a|] == b[0];
    assert a + b[1..] + c == all[..|a|] + all[|a| + 1..];
    DropAscends(all, |a|);
    NotBefore(all, |a|, a);
    NotBefore(all, |a|, b[1..] + c);
  }

  /** One query of the page is looked at. */
  ghost predicate Advances(h: Half, step: Step, g: Half)
    requires h.todo != [] && h.todo[0] < |h.results|
  {
    var i := h.todo[0];
    match step
    case Finished(r) => g == h.(results := h.results[i := r], todo := h.todo[1..])
    case Next(r, token) =>
      g == h.(results := h.results[i := r], todo := h.todo[1..], next := h.next + [i],
              tokens := h.tokens[i := token], seen := h.seen[i := SeenOf(h.AsDesk(), i) + {token}])
  }

  /** What a step leaves a query with after the request. */
  ghost predicate Lands(c: Call, q: Request, h: Half, n: nat, step: Step)
    requires h.todo != [] && h.todo[0] < |c.queries|
  {
    var i := h.todo[0];
    match step
    case Finished(r) => Settled(c.env, c.max, c.queries[i], c.log + [q], c.stop, i, r)
    case Next(r, token) =>
      n < c.max && Going(c.env, c.max, c.queries[i], c.log + [q], i, r, token, SeenOf(h.AsDesk(), i) + {token}, n + 1)
  }

  lemma AdvancesKeeps(c: Call, q: Request, h: Half, n: nat, step: Step, g: Half)
    requires HalfOrderly(c, q, h, n) && h.todo != [] && h.todo[0] < |h.results| && Advances(h, step, g)
    requires Lands(c, q, h, n, step)
    ensures HalfOrderly(c, q, g, n)
  {
    hide Going, Settled, Fresh;
    var i := h.todo[0];
    HalfApart(h.next, h.todo, h.pending);
    forall k | 0 <= k < |c.queries|
      ensures HalfAt(c, q, g, n, k)
    {
      assert HalfAt(c, q, h, n, k);
      if k != i {
        assert k in h.todo <==> k in g.todo;
        assert k in h.next <==> k in g.next;
      }
    }
  }

  /** Places in an ascending list are unique. */
  lemma PlaceIs(who: seq<nat>, k: nat)
    requires Ascends(who) && k < |who|
    ensures who[k] in who && Place(who, who[k]) == k
  {
    if Place(who, who[k]) != k {
      PlacesApart(who, Place(who, who[k]), k);
    }
  }

  lemma PlacesApart(who: seq<nat>, j: nat, k: nat)
    requires Ascends(who) && j < |who| && k < |who| && j != k
    ensures who[j] != who[k]
  {
  }

  /** Reading the page at its place takes a query where the request takes it. */
  lemma StepLands(c: Call, q: Request, h: Half, n: nat, k: nat, step: Step)
    requires h.todo != [] && h.todo[0] < |c.queries| == |h.results| && k < |q.who| && q.who[k] == h.todo[0]
    requires Ascends(q.who) && FaultOf(c.env, q).None? && HalfAt(c, q, h, n, h.todo[0])
    requires
      var u := Turn(c.max, TrailOf(c.env, c.max, c.log, h.todo[0]), n, Answer(c.env, q).pages[k].value);
      && step.result == Shown(c.queries[h.todo[0]], u)
      && (step.Next? <==> u.end.Open?)
      && (step.Next? ==> step.token == u.token && u.seen == SeenOf(h.AsDesk(), h.todo[0]) + {step.token} && n < c.max)
    ensures Lands(c, q, h, n, step)
  {
    hide Turn, Fault, Follow;
    PlaceIs(q.who, k);
    Given(c.env, c.max, c.log, q, h.todo[0]);
  }

  /** The page of a whole batch: the j-th result of the reply is read for the j-th query of the batch,
      although queries leave the batch at any position. */
  method ReadBatch(ghost c: Call, max: nat, d: Desk, n: nat, ghost q: Request, pages: seq<Option<Page>>) returns (next: Desk)
    requires c.Orderly(d, n) && c.stop.None? && max == c.max && 1 <= n <= max && IsNext(c, d, q) && FaultOf(c.env, q).None?
    requires pages == Answer(c.env, q).pages
    ensures c.After(q).Orderly(next, n + 1) && next.pending == d.pending
    ensures next.active != [] ==> n < max
    ensures |next.active| <= |d.active| && forall i :: i in next.active ==> i in d.active
  {
    hide Going, Settled, Fresh, Fault, Turn;
    var h := Half(d.results, [], d.active, d.tokens, d.seen, d.pending);
    HalfStarts(c, q, d, n);
    Apart(d.active, d.pending, 0);
    var j := 0;
    while j < |d.active|
      invariant 0 <= j <= |d.active| && h.todo == d.active[j..]
      invariant HalfOrderly(c, q, h, n) && h.pending == d.pending
      invariant |h.next| <= j && forall i :: i in h.next ==> i in d.active
    {
      var i := d.active[j];
      assert i in h.todo && i == h.todo[0];
      assert HalfAt(c, q, h, n, i);
      ghost var t := TrailOf(c.env, c.max, c.log, i);
      GoingShows(c, i, h.results[i], TokenOf(h.AsDesk(), i), SeenOf(h.AsDesk(), i), n);
      var seen := if i in h.seen then h.seen[i] else {};
      var step := ReadNext(max, h.results[i], seen, n, pages[j].value, t);
      ghost var before := h;
      h := h.(results := h.results[i := step.result], todo := h.todo[1..]);
      if step.Next? {
        h := h.(next := h.next + [i], tokens := h.tokens[i := step.token], seen := h.seen[i := seen + {step.token}]);
      }
      StepLands(c, q, before, n, j, step);
      AdvancesKeeps(c, q, before, n, step, h);
      j := j + 1;
    }
    next := h.AsDesk();
    NextIsProper(c, d, n, q);
    HalfEnds(c, q, h, n);
  }

  lemma GoingShows(c: Call, i: nat, r: QueryResult, token: string, seen: set<string>, n: nat)
    requires i < |c.queries| && Going(c.env, c.max, c.queries[i], c.log, i, r, token, seen, n)
    ensures
      var t := TrailOf(c.env, c.max, c.log, i);
      t.end.Open? && r == Shown(c.queries[i], t) && r.query == c.queries[i] && seen == t.seen
  {
  }

  lemma HalfStarts(c: Call, q: Request, d: Desk, n: nat)
    requires c.Orderly(d, n) && q.who == d.active
    ensures HalfOrderly(c, q, Half(d.results, [], d.active, d.tokens, d.seen, d.pending), n)
  {
    hide Going, Settled, Fresh;
    var h := Half(d.results, [], d.active, d.tokens, d.seen, d.pending);
    assert h.next + h.todo + h.pending == d.active + d.pending;
    forall i | 0 <= i < |c.queries|
      ensures HalfAt(c, q, h, n, i)
    {
      assert c.At(d, n, i);
      if i !in d.active {
        OthersStay(c, q, c.queries[i], i, d.results[i]);
      }
    }
  }

  lemma HalfEnds(c: Call, q: Request, h: Half, n: nat)
    requires HalfOrderly(c, q, h, n) && h.todo == [] && Proper(c.env, c.max, c.queries, c.After(q).log)
    ensures c.After(q).Orderly(h.AsDesk(), n + 1)
  {
    hide Going, Settled, Fresh;
    assert h.next + h.todo + h.pending == h.next + h.pending;
    var d, m := h.AsDesk(), n + 1;
    forall i | 0 <= i < |c.queries|
      ensures c.After(q).At(d, m, i)
    {
      assert HalfAt(c, q, h, n, i);
    }
  }

  // ---------- one batch ----------

  /** The checks on a reply before any page of it is used. */
  method CheckReply(reply: Reply, k: nat) returns (fault: Option<string>)
    ensures fault == Fault(reply, k) && (fault.None? <==> Delivers(reply, k))
  {
    if reply.Broken? {
      return Some(reply.text);
    }
    if |reply.pages| != k {
      return Some(COUNT_MISMATCH);
    }
    for j := 0 to |reply.pages|
      invariant forall m :: 0 <= m < j ==> reply.pages[m].Some?
    {
      if reply.pages[j].None? {
        return Some(NULL_RESULT);
      }
    }
    fault := None;
  }

  method Compose(queries: seq<PackageVersion>, d: Desk) returns (batch: seq<Asking>)
    requires forall i :: i in d.active ==> i < |queries|
    ensures |batch| == |d.active|
    ensures forall j :: 0 <= j < |batch| ==> d.active[j] < |queries| && batch[j] == Asking(queries[d.active[j]], TokenOf(d, d.active[j]))
  {
    batch := [];
    for j := 0 to |d.active|
      invariant |batch| == j
      invariant forall k :: 0 <= k < j ==> d.active[k] < |queries| && batch[k] == Asking(queries[d.active[k]], TokenOf(d, d.active[k]))
    {
      var i := d.active[j];
      assert i in d.active;
      batch := batch + [Asking(queries[i], TokenOf(d, i))];
    }
  }

  lemma BeforeLater(log: seq<Request>, tick: nat)
    requires Before(log, tick)
    ensures Before(log, tick + 1)
    ensures forall q: Request :: q.tick == tick ==> Before(log + [q], tick + 1)
  {
  }

  /** No request asks for more queries than a batch holds. */
  predicate InBatches(log: seq<Request>, size: nat) {
    forall k :: 0 <= k < |log| ==> |log[k].who| <= size
  }

  /** The pages of one batch: until every query of it has ended, a request fails, or the context ends. */
  method RunBatch(c: Call, start: Desk, from: nat, ghost size: nat) returns (d: Desk, e: Call, tick: nat)
    requires 1 <= c.max && c.Orderly(start, 1) && c.stop.None? && Before(c.log, from)
    requires |start.active| <= size && InBatches(c.log, size)
    ensures e == c.(log := e.log, stop := e.stop)
    ensures e.Orderly(d, 1) && d.active == [] && |d.pending| <= |start.pending|
    ensures StopsLast(c.env, e.log, e.stop) && Before(e.log, tick)
    ensures d.pending == if e.stop.Some? then [] else start.pending
    ensures InBatches(e.log, size)
  {
    hide Call.Orderly, Fault, Before;
    d, e, tick := start, c, from;
    var page := 1;
    while |d.active| > 0
      invariant 1 <= page <= c.max + 1 && (page == c.max + 1 ==> d.active == [])
      invariant e == c.(log := e.log) && e.Orderly(d, page) && d.pending == start.pending && Before(e.log, tick)
      invariant |d.active| <= size && InBatches(e.log, size)
      decreases c.max + 1 - page
    {
      var now := tick;
      tick := tick + 1;
      BeforeLater(e.log, now);
      if c.env.cancelled(now) {
        var stop := Stop(now, d.active);
        d := SkipAll(e, d, page, now);
        e := e.(stop := Some(stop));
        return;
      }
      ActiveAreQueries(e, d, page);
      var batch := Compose(c.queries, d);
      var reply := c.env.send(now, batch);
      var q := Request(now, d.active, batch);
      assert IsNext(e, d, q);
      var fault := CheckReply(reply, |d.active|);
      if fault.Some? {
        d := GiveUp(e, d, page, q, fault.value);
        e := e.After(q);
        return;
      }
      d := ReadBatch(e, c.max, d, page, q, reply.pages);
      e := e.After(q);
      page := page + 1;
    }
    EmptyAnyPage(e, d, page);
  }

  lemma ActiveAreQueries(c: Call, d: Desk, n: nat)
    requires c.Orderly(d, n)
    ensures forall i :: i in d.active ==> i < |c.queries|
  {
  }

  lemma EmptyAnyPage(c: Call, d: Desk, n: nat)
    requires c.Orderly(d, n) && d.active == []
    ensures c.Orderly(d, 1)
  {
    hide Going, Settled, Fresh;
    forall i | 0 <= i < |c.queries|
      ensures c.At(d, 1, i)
    {
      assert c.At(d, n, i);
    }
  }

  // ---------- the whole call ----------

  method Open(queries: seq<PackageVersion>) returns (results: seq<QueryResult>, pending: seq<nat>)
    ensures |results| == |queries| && Ascends(pending) && (forall i :: i in pending ==> i < |queries|)
    ensures forall i :: 0 <= i < |queries| ==>
      results[i] == QueryResult(queries[i], [], false, if ValidQuery(queries[i]) then "" else INVALID_QUERY)
      && (i in pending <==> ValidQuery(queries[i]))
  {
    hide ValidQuery;
    results, pending := [], [];
    for i := 0 to |queries|
      invariant |results| == i && Ascends(pending) && (forall k :: k in pending ==> k < i)
      invariant forall k :: 0 <= k < i ==>
        results[k] == QueryResult(queries[k], [], false, if ValidQuery(queries[k]) then "" else INVALID_QUERY)
        && (k in pending <==> ValidQuery(queries[k]))
    {
      if !ValidQuery(queries[i]) {
        results := results + [QueryResult(queries[i], [], false, INVALID_QUERY)];
      } else {
        results := results + [QueryResult(queries[i], [], false, "")];
        assert forall k :: 0 <= k < |pending| ==> pending[k] in pending;
        pending := pending + [i];
      }
    }
  }

  lemma OpensOrderly(env: Env, max: nat, queries: seq<PackageVersion>, results: seq<QueryResult>, pending: seq<nat>)
    requires |results| == |queries| && Ascends(pending) && forall i :: i in pending ==> i < |queries|
    requires forall i :: 0 <= i < |queries| ==>
      results[i] == QueryResult(queries[i], [], false, if ValidQuery(queries[i]) then "" else INVALID_QUERY)
      && (i in pending <==> ValidQuery(queries[i]))
    ensures Call(env, max, queries, [], None).Orderly(Desk(results, [], map[], map[], pending), 1)
  {
  }

  lemma FreshIsGoing(c: Call, i: nat, r: QueryResult)
    requires i < |c.queries| && Fresh(c.env, c.queries[i], c.log, i, r)
    ensures Going(c.env, c.max, c.queries[i], c.log, i, r, "", {}, 1)
  {
  }

  lemma SplitMembers(p: seq<nat>, n: nat)
    requires n <= |p|
    ensures forall i :: i in p <==> i in p[..n] || i in p[n..]
  {
  }

  /** The next batch starts on its first page, without tokens. */
  lemma BatchStarts(c: Call, d: Desk, n: nat)
    requires c.Orderly(d, 1) && d.active == [] && n <= |d.pending|
    ensures c.Orderly(Desk(d.results, d.pending[..n], map[], map[], d.pending[n..]), 1)
  {
    hide Going, Settled, Fresh, Ascends, Proper;
    var b := Desk(d.results, d.pending[..n], map[], map[], d.pending[n..]);
    assert b.active + b.pending == d.pending && d.active + d.pending == d.pending;
    SplitMembers(d.pending, n);
    forall i | 0 <= i < |c.queries|
      ensures c.At(b, 1, i)
    {
      assert c.At(d, 1, i);
      if i in b.active {
        FreshIsGoing(c, i, d.results[i]);
      }
    }
  }

  /** Any server, any failures, any moment of cancellation: the requests made are proper ones, each query
      takes part in no more of them than allowed, and each result is the outcome of its own pages.  The
      program returns the results only; the requests and the stop are the trace it leaves. */
  method Query(env: Env, batchSize: nat, max: nat, queries: seq<PackageVersion>)
    returns (results: seq<QueryResult>, log: seq<Request>, stop: Option<Stop>)
    requires 1 <= batchSize && 1 <= max
    ensures IsCall(env, max, queries, log, stop, results)
    ensures forall i :: Asked(log, i) <= max
    ensures forall k :: 0 <= k < |log| ==> |log[k].batch| <= batchSize
  {
    hide Call.Orderly, IsCall, ValidQuery, Before, Proper;
    var opening, pending := Open(queries);
    OpensOrderly(env, max, queries, opening, pending);
    var d := Desk(opening, [], map[], map[], pending);
    var c := Call(env, max, queries, [], None);
    var tick := 0;
    assert Before(c.log, tick) by {
      NothingBefore();
    }
    while |d.pending| > 0
      invariant c.env == env && c.max == max && c.queries == queries
      invariant c.Orderly(d, 1) && d.active == [] && InBatches(c.log, batchSize)
      invariant StopsLast(env, c.log, c.stop) && Before(c.log, tick) && (c.stop.Some? ==> d.pending == [])
      decreases |d.pending|
    {
      var n := if batchSize < |d.pending| then batchSize else |d.pending|;
      BatchStarts(c, d, n);
      d, c, tick := RunBatch(c, Desk(d.results, d.pending[..n], map[], map[], d.pending[n..]), tick, batchSize);
    }
    log, stop := c.log, c.stop;
    results := Finish(c, d);
    OrderlyIsProper(c, d);
    forall i
      ensures Asked(log, i) <= max
    {
      WithinPages(env, max, queries, log, i);
    }
    forall k | 0 <= k < |log|
      ensures |log[k].batch| <= batchSize
    {
      ProperBatch(env, max, queries, log, k);
    }
  }

  lemma NothingBefore()
    ensures Before([], 0)
  {
  }

  lemma OrderlyIsProper(c: Call, d: Desk)
    requires c.Orderly(d, 1)
    ensures Proper(c.env, c.max, c.queries, c.log)
  {
  }

  method Finish(ghost c: Call, d: Desk) returns (results: seq<QueryResult>)
    requires c.Orderly(d, 1) && d.active == [] && d.pending == [] && StopsLast(c.env, c.log, c.stop)
    ensures IsCall(c.env, c.max, c.queries, c.log, c.stop, results)
  {
    hide Going, Settled, Fresh, Outcome, Concluded, StopsLast, Proper;
    results := [];
    for k := 0 to |d.results|
      invariant |results| == k
      invariant forall i :: 0 <= i < k ==> IsReturned(c.env, c.max, c.queries[i], c.log, c.stop, i, results[i])
    {
      var ids := SortUnique(d.results[k].ids);
      assert c.At(d, 1, k);
      SettledReturns(c, d.results[k], k);
      results := results + [d.results[k].(ids := ids)];
    }
  }

  lemma SettledReturns(c: Call, r: QueryResult, i: nat)
    requires i < |c.queries| && Settled(c.env, c.max, c.queries[i], c.log, c.stop, i, r)
    ensures IsReturned(c.env, c.max, c.queries[i], c.log, c.stop, i, r.(ids := Arrange(Elements(r.ids))))
  {
  }
}
