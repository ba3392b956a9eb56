module OsvPaging {
  // What batched OSV discovery (src/osv/discovery.go) exchanges with the server, and what its results
  // say about it.  The server and the network may answer every request in any way; a call is described
  // by the requests it made, and each result is a function of the query's own positions in them.

  import opened ScanTypes
  import opened Text

  datatype Page = Page(vulns: seq<string>, next: string)

  datatype QueryResult = QueryResult(query: PackageVersion, ids: seq<string>, complete: bool, error: string)

  datatype Asking = Asking(query: PackageVersion, token: string)

  /** What a request comes back with: a text when it fails before its content is looked at, or the
      results as they were decoded, null ones included. */
  datatype Reply = Broken(text: string) | Replied(pages: seq<Option<Page>>)

  /** The reply to a batch sent at the t-th look at the network, and whether the context has ended then. */
  datatype Env = Env(send: (nat, seq<Asking>) -> Reply, cancelled: nat -> bool)

  const CANCELED := "context canceled"
  const SKIPPED := "query skipped: "
  const COUNT_MISMATCH := "OSV batch response count mismatch"
  const NULL_RESULT := "OSV batch response contains null result"
  const INVALID_QUERY := "invalid ecosystem, name or version"
  const INVALID_ID := "OSV response contains invalid vulnerability ID"
  const REPEATED := "OSV repeated page token"
  const TOO_MANY := "OSV maximum pages exceeded"

  /** discoveryValidText. */
  predicate Readable(s: string) {
    && (exists i :: 0 <= i < |s| && !IsSpace(s[i]))
    && forall i :: 0 <= i < |s| ==> !IsControl(s[i])
  }

  predicate ValidQuery(q: PackageVersion) {
    Readable(q.ecosystem) && Readable(q.name) && Readable(q.version)
  }

  /** One page for each of k queries, none of them null; an empty page is a page. */
  predicate Delivers(reply: Reply, k: nat) {
    reply.Replied? && |reply.pages| == k && forall j :: 0 <= j < k ==> reply.pages[j].Some?
  }

  /** Why a reply to k queries cannot be used, if it cannot. */
  function Fault(reply: Reply, k: nat): (f: Option<string>)
    ensures f.None? <==> Delivers(reply, k)
    ensures reply.Replied? && |reply.pages| == k && f.Some? ==> f.value == NULL_RESULT && None in reply.pages
    ensures reply.Replied? && |reply.pages| != k ==> f == Some(COUNT_MISMATCH)
    ensures reply.Broken? ==> f == Some(reply.text)
  {
    match reply
    case Broken(text) => Some(text)
    case Replied(pages) =>
      if |pages| != k then Some(COUNT_MISMATCH)
      else if exists j :: 0 <= j < |pages| && pages[j].None? then Some(NULL_RESULT)
      else None
  }

  // ---------- the requests of a call ----------

  /** One request: when, for which queries, and what it asks for each. */
  datatype Request = Request(tick: nat, who: seq<nat>, batch: seq<Asking>)

  /** The end of the context, seen before a request for these queries. */
  datatype Stop = Stop(tick: nat, batch: seq<nat>)

  predicate Ascends(s: seq<nat>) {
    forall i, j :: 0 <= i < j < |s| ==> s[i] < s[j]
  }

  function Place(who: seq<nat>, i: nat): (j: nat)
    requires i in who
    ensures j < |who| && who[j] == i
  {
    var last := |who| - 1;
    if who[last] == i then last else Place(who[..last], i)
  }

  function Answer(env: Env, q: Request): Reply {
    env.send(q.tick, q.batch)
  }

  function FaultOf(env: Env, q: Request): Option<string> {
    Fault(Answer(env, q), |q.who|)
  }

  /** The page that stands at a query's own place in a usable reply. */
  function PageFor(env: Env, q: Request, i: nat): Option<Page> {
    if i in q.who && FaultOf(env, q).None? then Answer(env, q).pages[Place(q.who, i)] else None
  }

  /** The pages a query was given, request by request. */
  function Heard(env: Env, log: seq<Request>, i: nat): seq<Page> {
    if log == [] then []
    else
      var n := |log| - 1;
      var before := Heard(env, log[..n], i);
      match PageFor(env, log[n], i)
      case Some(p) => before + [p]
      case None => before
  }

  /** What is wrong with the last request a query took part in, if anything. */
  function Trouble(env: Env, log: seq<Request>, i: nat): Option<string> {
    if log == [] then None
    else
      var n := |log| - 1;
      if i in log[n].who then FaultOf(env, log[n]) else Trouble(env, log[..n], i)
  }

  /** In how many requests a query takes part. */
  function Asked(log: seq<Request>, i: nat): nat {
    if log == [] then 0 else Asked(log[..|log| - 1], i) + if i in log[|log| - 1].who then 1 else 0
  }

  // ---------- following the pages ----------

  datatype End = Open | Done | InvalidID | Repeated | TooMany {
    function Text(): string {
      match this
      case Open => ""
      case Done => ""
      case InvalidID => INVALID_ID
      case Repeated => REPEATED
      case TooMany => TOO_MANY
    }
  }

  /** Where a query stands after some pages: its identifiers, its next token, the tokens it has met. */
  datatype Trail = Trail(ids: seq<string>, token: string, seen: set<string>, end: End)

  function ReadableOf(vulns: seq<string>): seq<string> {
    if vulns == [] then []
    else
      var before := ReadableOf(vulns[..|vulns| - 1]);
      if Readable(vulns[|vulns| - 1]) then before + [vulns[|vulns| - 1]] else before
  }

  predicate AllReadable(vulns: seq<string>) {
    forall i :: 0 <= i < |vulns| ==> Readable(vulns[i])
  }

  /** The n-th page of a query. */
  function Turn(max: nat, t: Trail, n: nat, p: Page): Trail {
    var u := t.(ids := t.ids + ReadableOf(p.vulns));
    if !AllReadable(p.vulns) then u.(end := InvalidID)
    else if p.next == "" then u.(end := Done)
    else if p.next in t.seen then u.(end := Repeated)
    else if n >= max then u.(end := TooMany)
    else u.(token := p.next, seen := t.seen + {p.next})
  }

  function Follow(max: nat, pages: seq<Page>): Trail {
    if pages == [] then Trail([], "", {}, Open)
    else
      var n := |pages| - 1;
      Turn(max, Follow(max, pages[..n]), |pages|, pages[n])
  }

  function TrailOf(env: Env, max: nat, log: seq<Request>, i: nat): Trail {
    Follow(max, Heard(env, log, i))
  }

  // ---------- a proper call ----------

  /** A query is asked on: it is valid, nothing went wrong, and its pages say that there are more. */
  ghost predicate Asks(env: Env, max: nat, queries: seq<PackageVersion>, log: seq<Request>, i: nat, a: Asking) {
    && i < |queries| && ValidQuery(queries[i])
    && Trouble(env, log, i).None? && TrailOf(env, max, log, i).end.Open?
    && a == Asking(queries[i], TrailOf(env, max, log, i).token)
  }

  ghost predicate Before(log: seq<Request>, tick: nat) {
    forall k :: 0 <= k < |log| ==> log[k].tick < tick
  }

  /** The next request asks, for each of its queries and in their order, for the page after the last. */
  ghost predicate Fits(env: Env, max: nat, queries: seq<PackageVersion>, log: seq<Request>, q: Request) {
    && |q.batch| == |q.who| && Ascends(q.who) && !env.cancelled(q.tick) && Before(log, q.tick)
    && forall j :: 0 <= j < |q.who| ==> Asks(env, max, queries, log, q.who[j], q.batch[j])
  }

  ghost predicate Proper(env: Env, max: nat, queries: seq<PackageVersion>, log: seq<Request>) {
    log == [] ||
    var n := |log| - 1;
    Proper(env, max, queries, log[..n]) && Fits(env, max, queries, log[..n], log[n])
  }

  /** The context ended, after every request. */
  ghost predicate StopsLast(env: Env, log: seq<Request>, stop: Option<Stop>) {
    stop.Some? ==> env.cancelled(stop.value.tick) && Before(log, stop.value.tick)
  }

  // ---------- what becomes of a query ----------

  /** A query's result before its identifiers are sorted: its pages lead to an end, or its own last
      request failed, or the context ended. */
  ghost function Outcome(env: Env, max: nat, q: PackageVersion, log: seq<Request>, stop: Option<Stop>, i: nat): QueryResult {
    if !ValidQuery(q) then QueryResult(q, [], false, INVALID_QUERY)
    else
      var t := TrailOf(env, max, log, i);
      if !t.end.Open? then QueryResult(q, t.ids, t.end.Done?, t.end.Text())
      else
        QueryResult(q, t.ids, false,
                    if Trouble(env, log, i).Some? then Trouble(env, log, i).value
                    else if stop.Some? then (if i in stop.value.batch then CANCELED else SKIPPED + CANCELED)
                    else "")
  }

  /** Nothing is left to do for a query. */
  ghost predicate Concluded(env: Env, max: nat, q: PackageVersion, log: seq<Request>, stop: Option<Stop>, i: nat) {
    ValidQuery(q) ==> !TrailOf(env, max, log, i).end.Open? || Trouble(env, log, i).Some? || stop.Some?
  }

  ghost function Returned(env: Env, max: nat, q: PackageVersion, log: seq<Request>, stop: Option<Stop>, i: nat): QueryResult {
    var r := Outcome(env, max, q, log, stop, i);
    r.(ids := Arrange(Elements(r.ids)))
  }

  /** A whole call: its requests, possibly the end of its context, and its results in input order. */
  ghost predicate IsCall(env: Env, max: nat, queries: seq<PackageVersion>, log: seq<Request>, stop: Option<Stop>, results: seq<QueryResult>) {
    && Proper(env, max, queries, log) && StopsLast(env, log, stop)
    && |results| == |queries|
    && forall i :: 0 <= i < |queries| ==> IsReturned(env, max, queries[i], log, stop, i, results[i])
  }

  ghost predicate IsReturned(env: Env, max: nat, q: PackageVersion, log: seq<Request>, stop: Option<Stop>, i: nat, r: QueryResult) {
    Concluded(env, max, q, log, stop, i) && r == Returned(env, max, q, log, stop, i)
  }

  // ---------- for any server ----------

  /** Complete or in error, never both; and never neither, unless the query's own last request failed
      without a text. */
  lemma CompleteXorError(env: Env, max: nat, queries: seq<PackageVersion>, log: seq<Request>, stop: Option<Stop>, results: seq<QueryResult>, i: nat)
    requires IsCall(env, max, queries, log, stop, results) && i < |queries|
    ensures results[i].complete ==> results[i].error == ""
    ensures results[i].query == queries[i] && Ascending(results[i].ids)
    ensures !results[i].complete && results[i].error == "" <==>
      ValidQuery(queries[i]) && TrailOf(env, max, log, i).end.Open? && Trouble(env, log, i) == Some("")
  {
    assert IsReturned(env, max, queries[i], log, stop, i, results[i]);
  }

  const LEFT_PAD := PackageVersion("npm", "left-pad", "1.3.0")

  /** A transport that fails without saying why. */
  function Mute(): Env {
    Env((t, batch) => Broken(""), t => false)
  }

  /** With it, a call returns a result that is neither complete nor in error. */
  lemma MuteLeavesNothing(max: nat)
    ensures IsCall(Mute(), max, [LEFT_PAD], [Request(0, [0], [Asking(LEFT_PAD, "")])], None, [QueryResult(LEFT_PAD, [], false, "")])
  {
    var first := Request(0, [0], [Asking(LEFT_PAD, "")]);
    assert LEFT_PAD.ecosystem[0] == 'n' && LEFT_PAD.name[0] == 'l' && LEFT_PAD.version[0] == '1';
    assert Asks(Mute(), max, [LEFT_PAD], [], 0, Asking(LEFT_PAD, ""));
    ProperMore(Mute(), max, [LEFT_PAD], [], first);
    hide Readable, Fits, Proper;
    assert [] + [first] == [first] && Heard(Mute(), [first], 0) == [];
    assert Arrange(Elements([])) == [];
  }

  lemma ProperMore(env: Env, max: nat, queries: seq<PackageVersion>, log: seq<Request>, q: Request)
    requires Proper(env, max, queries, log) && Fits(env, max, queries, log, q)
    ensures Proper(env, max, queries, log + [q])
  {
    assert (log + [q])[..|log|] == log;
  }

  /** Interrupted means: the text is that of a request the query took part in, or the context ended. */
  lemma InterruptedByItsOwn(env: Env, max: nat, queries: seq<PackageVersion>, log: seq<Request>, stop: Option<Stop>, results: seq<QueryResult>, i: nat)
    requires IsCall(env, max, queries, log, stop, results) && i < |queries|
    requires ValidQuery(queries[i]) && TrailOf(env, max, log, i).end.Open?
    ensures !results[i].complete
    ensures
      || (exists k :: 0 <= k < |log| && i in log[k].who && FaultOf(env, log[k]) == Some(results[i].error))
      || (stop.Some? && env.cancelled(stop.value.tick)
          && results[i].error == if i in stop.value.batch then CANCELED else SKIPPED + CANCELED)
  {
    assert IsReturned(env, max, queries[i], log, stop, i, results[i]);
    if Trouble(env, log, i).Some? {
      TroubleIsOwn(env, log, i);
    }
  }

  lemma {:induction false} TroubleIsOwn(env: Env, log: seq<Request>, i: nat)
    requires Trouble(env, log, i).Some?
    ensures exists k :: 0 <= k < |log| && i in log[k].who && FaultOf(env, log[k]) == Trouble(env, log, i)
  {
    var n := |log| - 1;
    if i !in log[n].who {
      TroubleIsOwn(env, log[..n], i);
      var k :| 0 <= k < n && i in log[..n][k].who && FaultOf(env, log[..n][k]) == Trouble(env, log[..n], i);
      assert log[..n][k] == log[k];
    }
  }

  /** Every request of a query but a failed last one gave it a page, and no query is asked for more
      pages than allowed. */
  lemma {:induction false} WithinPages(env: Env, max: nat, queries: seq<PackageVersion>, log: seq<Request>, i: nat)
    requires 1 <= max && Proper(env, max, queries, log)
    ensures Asked(log, i) == |Heard(env, log, i)| + if Trouble(env, log, i).Some? then 1 else 0
    ensures TrailOf(env, max, log, i).end.Open? ==> |Heard(env, log, i)| < max
    ensures Asked(log, i) <= max
  {
    if log != [] {
      hide Follow, Turn, Fault;
      var n := |log| - 1;
      WithinPages(env, max, queries, log[..n], i);
      if i in log[n].who {
        var j := Place(log[n].who, i);
        assert Asks(env, max, queries, log[..n], log[n].who[j], log[n].batch[j]);
      }
    }
    OpenMeansRoom(max, Heard(env, log, i));
  }

  lemma OpenMeansRoom(max: nat, pages: seq<Page>)
    requires 1 <= max
    ensures Follow(max, pages).end.Open? ==> |pages| < max
  {
  }

  // ---------- for a server that answers by query and token ----------

  /** The server answers in the order it was asked, and the same token of a query with the same page. */
  ghost predicate Serves(env: Env, page: Asking -> Page) {
    forall t, batch {:trigger env.send(t, batch)} :: InOrder(env.send(t, batch), batch, page)
  }

  ghost predicate InOrder(reply: Reply, batch: seq<Asking>, page: Asking -> Page) {
    Delivers(reply, |batch|) ==> forall j :: 0 <= j < |batch| ==> reply.pages[j] == Some(page(batch[j]))
  }

  datatype Walked = Walked(ids: seq<string>, end: End)

  /** The pages of one query from its n-th on, token by token: all their identifiers, and how it ends. */
  function Walk(page: Asking -> Page, max: nat, q: PackageVersion, token: string, seen: set<string>, n: nat): Walked
    requires n <= max
    decreases max - n
  {
    var p := page(Asking(q, token));
    var ids := ReadableOf(p.vulns);
    if !AllReadable(p.vulns) then Walked(ids, InvalidID)
    else if p.next == "" then Walked(ids, Done)
    else if p.next in seen then Walked(ids, Repeated)
    else if n >= max then Walked(ids, TooMany)
    else
      var rest := Walk(page, max, q, p.next, seen + {p.next}, n + 1);
      Walked(ids + rest.ids, rest.end)
  }

  /** Paging a query alone. */
  function Solo(page: Asking -> Page, max: nat, q: PackageVersion): Walked
    requires 1 <= max
  {
    Walk(page, max, q, "", {}, 1)
  }

  /** A trail of n pages is on the way that paging alone goes. */
  ghost predicate OnChain(page: Asking -> Page, max: nat, q: PackageVersion, t: Trail, n: nat)
    requires 1 <= max
  {
    if t.end.Open? then
      && n < max
      && var rest := Walk(page, max, q, t.token, t.seen, n + 1);
         Solo(page, max, q) == Walked(t.ids + rest.ids, rest.end)
    else Solo(page, max, q) == Walked(t.ids, t.end)
  }

  lemma TurnStaysOnChain(page: Asking -> Page, max: nat, q: PackageVersion, t: Trail, n: nat)
    requires 1 <= max && t.end.Open? && OnChain(page, max, q, t, n)
    ensures OnChain(page, max, q, Turn(max, t, n + 1, page(Asking(q, t.token))), n + 1)
  {
    hide ReadableOf, AllReadable;
    var p := page(Asking(q, t.token));
    var u := Turn(max, t, n + 1, p);
    if u.end.Open? {
      var rest := Walk(page, max, q, u.token, u.seen, n + 2);
      assert u.ids + rest.ids == t.ids + (ReadableOf(p.vulns) + rest.ids);
    }
  }

  /** The page a query finds at its own place is the page of its own token. */
  lemma OwnPage(env: Env, max: nat, queries: seq<PackageVersion>, page: Asking -> Page, log: seq<Request>, q: Request, i: nat)
    requires Serves(env, page) && Fits(env, max, queries, log, q) && i in q.who && FaultOf(env, q).None?
    ensures i < |queries| && Trouble(env, log, i).None? && TrailOf(env, max, log, i).end.Open?
    ensures PageFor(env, q, i) == Some(page(Asking(queries[i], TrailOf(env, max, log, i).token)))
  {
    hide Follow, Fault;
    var j := Place(q.who, i);
    assert Asks(env, max, queries, log, q.who[j], q.batch[j]);
    assert InOrder(env.send(q.tick, q.batch), q.batch, page);
  }

  lemma {:induction false} TrailOnChain(env: Env, max: nat, queries: seq<PackageVersion>, page: Asking -> Page, log: seq<Request>, i: nat)
    requires 1 <= max && Serves(env, page) && Proper(env, max, queries, log) && i < |queries|
    ensures OnChain(page, max, queries[i], TrailOf(env, max, log, i), |Heard(env, log, i)|)
  {
    if log != [] {
      hide Fits, FaultOf, Serves, OnChain;
      var n := |log| - 1;
      TrailOnChain(env, max, queries, page, log[..n], i);
      if i in log[n].who && FaultOf(env, log[n]).None? {
        OwnPage(env, max, queries, page, log[..n], log[n], i);
        TurnStaysOnChain(page, max, queries[i], TrailOf(env, max, log[..n], i), |Heard(env, log[..n], i)|);
        assert Heard(env, log, i)[..|Heard(env, log, i)| - 1] == Heard(env, log[..n], i);
      }
    }
  }

  /** A complete result has exactly the identifiers of the query's own pages. */
  lemma CompleteIsWholeChain(env: Env, max: nat, queries: seq<PackageVersion>, page: Asking -> Page, log: seq<Request>, stop: Option<Stop>, results: seq<QueryResult>, i: nat)
    requires 1 <= max && Serves(env, page) && IsCall(env, max, queries, log, stop, results) && i < |queries| && results[i].complete
    ensures Solo(page, max, queries[i]).end.Done? && results[i].ids == Arrange(Elements(Solo(page, max, queries[i]).ids))
  {
    hide Walk, Proper;
    assert IsReturned(env, max, queries[i], log, stop, i, results[i]);
    TrailOnChain(env, max, queries, page, log, i);
  }

  /** Batching makes no difference: as long as each request it takes part in is answered with one page
      for each query and the context does not end, a query ends as it would alone, whatever happens to
      the others. */
  lemma BatchingIsTransparent(env: Env, max: nat, queries: seq<PackageVersion>, page: Asking -> Page, log: seq<Request>, stop: Option<Stop>, results: seq<QueryResult>, i: nat)
    requires 1 <= max && Serves(env, page) && IsCall(env, max, queries, log, stop, results)
    requires i < |queries| && ValidQuery(queries[i])
    requires stop.None?
    requires forall k :: 0 <= k < |log| && i in log[k].who ==> Delivers(env.send(log[k].tick, log[k].batch), |log[k].batch|)
    ensures
      var alone := Solo(page, max, queries[i]);
      results[i] == QueryResult(queries[i], Arrange(Elements(alone.ids)), alone.end.Done?, alone.end.Text())
  {
    hide Walk, Proper, FaultOf, ValidQuery, Delivers;
    assert IsReturned(env, max, queries[i], log, stop, i, results[i]);
    TrailOnChain(env, max, queries, page, log, i);
    if Trouble(env, log, i).Some? {
      TroubleIsOwn(env, log, i);
      var k :| 0 <= k < |log| && i in log[k].who && FaultOf(env, log[k]) == Trouble(env, log, i);
      ProperBatch(env, max, queries, log, k);
      DeliveredIsFine(env, log[k]);
    }
  }

  lemma {:induction false} ProperBatch(env: Env, max: nat, queries: seq<PackageVersion>, log: seq<Request>, k: nat)
    requires Proper(env, max, queries, log) && k < |log|
    ensures |log[k].batch| == |log[k].who|
  {
    var n := |log| - 1;
    if k < n {
      ProperBatch(env, max, queries, log[..n], k);
    }
  }

  lemma DeliveredIsFine(env: Env, q: Request)
    requires Delivers(env.send(q.tick, q.batch), |q.who|)
    ensures FaultOf(env, q).None?
  {
  }

  /** An interrupted result still has only identifiers of the query's own pages. */
  lemma IdsAreOfTheChain(env: Env, max: nat, queries: seq<PackageVersion>, page: Asking -> Page, log: seq<Request>, stop: Option<Stop>, results: seq<QueryResult>, i: nat, id: string)
    requires 1 <= max && Serves(env, page) && IsCall(env, max, queries, log, stop, results) && i < |queries| && id in results[i].ids
    ensures id in Solo(page, max, queries[i]).ids
  {
    hide Walk, Proper, ValidQuery;
    assert IsReturned(env, max, queries[i], log, stop, i, results[i]);
    TrailOnChain(env, max, queries, page, log, i);
  }
}
