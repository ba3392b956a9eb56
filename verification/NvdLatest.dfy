module NvdLatest {
  // The newest publications up to a date (src/nvd/latest.go): windows going back in time, each read
  // from its last aligned page backwards, neighbouring windows sharing their boundary.

  import opened ScanTypes
  import opened NvdRecords
  import Strings

  const MAX_PAGE := 200
  const MAX_WINDOW := 120 * 24 * 3600

  /** Times in seconds; zero is an absent time, limit or duration. */
  datatype Options = Options(asOf: nat, start: nat, end: nat, limit: int, maxRequests: int, window: int)

  datatype Reply = Broken(text: string) | Page(total: int, startIndex: int, perPage: int, items: seq<Item>)

  /** The t-th request: the publication window, and the first index of a page. */
  datatype Env = Env(respond: (nat, int, int, nat) -> Reply, cancelled: nat -> bool)

  // ---------- the database, and what a window of it is ----------

  predicate Oldest(items: seq<Item>) {
    forall i, j :: 0 <= i < j < |items| ==> items[i].published <= items[j].published
  }

  predicate In(x: Item, start: int, end: int) {
    start <= x.published <= end
  }

  function Window(db: seq<Item>, start: int, end: int): (w: seq<Item>)
    ensures forall x :: x in w <==> x in db && In(x, start, end)
  {
    if db == [] then []
    else
      var n := |db| - 1;
      assert db == db[..n] + [db[n]];
      var before := Window(db[..n], start, end);
      if In(db[n], start, end) then before + [db[n]] else before
  }

  lemma {:induction false} WindowOldest(db: seq<Item>, start: int, end: int)
    requires Oldest(db)
    ensures Oldest(Window(db, start, end))
  {
    if db != [] {
      var n := |db| - 1;
      WindowOldest(db[..n], start, end);
      var before := Window(db[..n], start, end);
      forall i | 0 <= i < |before|
        ensures before[i].published <= db[n].published
      {
        assert before[i] in db[..n];
      }
    }
  }

  function Min(a: int, b: int): int {
    if a < b then a else b
  }

  /** A page is a stretch of the window. */
  ghost predicate Serves(env: Env, db: seq<Item>) {
    forall t, start, end, index {:trigger env.respond(t, start, end, index)} ::
      IsStretch(env.respond(t, start, end, index), Window(db, start, end), index)
  }

  ghost predicate IsStretch(reply: Reply, w: seq<Item>, index: nat) {
    reply.Page? ==> reply.total == |w| && (index <= |w| ==> reply.items == w[index..Min(index + MAX_PAGE, |w|)])
  }

  /** Nothing fails, and every record can be read. */
  ghost predicate Smooth(env: Env, db: seq<Item>) {
    && Serves(env, db) && Oldest(db)
    && (forall x :: x in db ==> Readable(x))
    && (forall t :: !env.cancelled(t))
    && forall t, start, end, index {:trigger env.respond(t, start, end, index)} ::
         WellFormed(env.respond(t, start, end, index), index)
  }

  ghost predicate WellFormed(reply: Reply, index: nat) {
    reply.Page? && reply.startIndex == index && reply.perPage == |reply.items|
  }

  predicate Readable(x: Item) {
    x.published != 0 && Strings.Trim(x.id) != ""
  }

  // ---------- how far reading is ----------

  /** Everything after end has been read, and of the window up to end the part from upper on. */
  ghost predicate Reading(db: seq<Item>, last: int, start: int, end: int, upper: nat, read: seq<Item>) {
    var w := Window(db, start, end);
    && start <= end <= last && upper <= |w|
    && (forall x :: x in read ==> x in db && x.published <= last && (end <= x.published || x in w[upper..]))
    && (forall x :: x in db && end < x.published <= last ==> x in read)
    && forall x :: x in w[upper..] ==> x in read
  }

  /** What the options ask for: everything up to last, from first on if a start was given. */
  ghost function Pool(db: seq<Item>, first: int, last: int): seq<Item> {
    Window(db, first, last)
  }

  lemma ReadingIsNewest(db: seq<Item>, first: int, last: int, start: int, end: int, upper: nat, read: seq<Item>)
    requires Oldest(db) && Reading(db, last, start, end, upper, read) && (first <= start || first <= 0)
    ensures ReadIsNewer(read, Pool(db, first, last))
  {
    var w := Window(db, start, end);
    WindowOldest(db, start, end);
    forall x | x in read
      ensures x in Pool(db, first, last)
    {
      if x in w[upper..] {
        assert x in w;
      }
    }
    forall x, y | x in read && y in Pool(db, first, last) && y !in read
      ensures y.published <= x.published
    {
      if x in w[upper..] {
        assert x in w;
        if y in w {
          OlderInWindow(w, upper, x, y);
        }
      }
    }
  }

  lemma OlderInWindow(w: seq<Item>, upper: nat, x: Item, y: Item)
    requires Oldest(w) && upper <= |w| && x in w[upper..] && y in w && y !in w[upper..]
    ensures y.published <= x.published
  {
  }

  lemma ReadingMore(db: seq<Item>, last: int, start: int, end: int, upper: nat, read: seq<Item>, index: nat, items: seq<Item>)
    requires Reading(db, last, start, end, upper, read) && index <= upper && items == Window(db, start, end)[index..upper]
    ensures Reading(db, last, start, end, index, read + items)
  {
  }

  /** A window read to its beginning is left for the one before, which shares its boundary. */
  lemma ReadingOn(db: seq<Item>, last: int, start: int, end: int, read: seq<Item>, earlier: int)
    requires Reading(db, last, start, end, 0, read) && earlier <= start
    ensures Reading(db, last, earlier, start, |Window(db, earlier, start)|, read)
  {
  }

  /** When the window that begins where the range begins has been read, so has the range. */
  lemma RangeRead(canon: string -> string, db: seq<Item>, last: int, start: int, end: int, read: seq<Item>, s: Selection)
    requires Reading(db, last, start, end, 0, read) && Represents(canon, read, s)
    ensures s.Keys == Identifiers(canon, Pool(db, start, last))
  {
  }

  // ---------- the retrieval ----------

  datatype Result = Latest(items: seq<Item>) | Incomplete(items: seq<Item>) | Refused

  /** The options with their defaults filled in. */
  function Filled(o: Options): Options {
    o.(limit := if o.limit == 0 then MAX_PAGE else o.limit,
       maxRequests := if o.maxRequests == 0 then 128 else o.maxRequests,
       window := if o.window == 0 then 7 * 24 * 3600 else o.window)
  }

  function LastTime(o: Options): nat {
    if o.start != 0 && o.end < o.asOf then o.end else o.asOf
  }

  predicate Sensible(o: Options) {
    && o.asOf != 0
    && (o.start == 0 <==> o.end == 0) && o.start <= o.end
    && 1 <= Filled(o).limit <= MAX_PAGE && 1 <= Filled(o).maxRequests
    && 0 < Filled(o).window <= MAX_WINDOW
    && o.start <= LastTime(o)
  }

  /** The options in plain terms: a date; a range with both ends or none; at most 200 records, a positive
      budget and a window of at most 120 days, each 0 standing for its default of 200 records, 128
      requests and seven days; and a range that does not begin after the date.  What is read ends with
      the date, or with the range if that ends earlier. */
  lemma OptionsMean(o: Options)
    ensures LastTime(o) == if o.start != 0 && o.end < o.asOf then o.end else o.asOf
    ensures o.start != 0 ==> LastTime(o) <= o.asOf && LastTime(o) <= o.end && (LastTime(o) == o.asOf || LastTime(o) == o.end)
    ensures Filled(o).limit == (if o.limit == 0 then 200 else o.limit)
    ensures Filled(o).maxRequests == (if o.maxRequests == 0 then 128 else o.maxRequests)
    ensures Filled(o).window == (if o.window == 0 then 604800 else o.window)
    ensures Sensible(o) <==>
      && o.asOf > 0 && (o.start > 0 <==> o.end > 0) && o.start <= o.end && o.start <= o.asOf
      && 0 <= o.limit <= 200 && 0 <= o.maxRequests && 0 <= o.window <= 10368000
  {
  }

  /** Nobody had cancelled at any of the first n looks. */
  ghost predicate NotCancelled(env: Env, n: nat) {
    forall t: nat :: t < n ==> !env.cancelled(t)
  }

  lemma NotCancelledMore(env: Env, n: nat, m: nat)
    requires NotCancelled(env, n)
    ensures m == n + 1 && !env.cancelled(n) ==> NotCancelled(env, m)
  {
  }

  /** A page whose extent is as it should be. */
  predicate Usable(reply: Reply, index: nat) {
    && reply.Page? && 0 <= reply.total && index <= reply.total && reply.startIndex == index
    && |reply.items| == reply.perPage == (if reply.total - index < 200 then reply.total - index else 200)
  }

  /** A page begins where it was asked to, and is full or ends with the window. */
  lemma UsableIff(reply: Reply, index: nat)
    ensures Usable(reply, index) <==>
      && reply.Page? && 0 <= index <= reply.total && reply.startIndex == index && reply.perPage == |reply.items|
      && |reply.items| <= 200 && (|reply.items| == 200 || index + |reply.items| == reply.total) && index + |reply.items| <= reply.total
  {
  }

  /** One request, with its extent checked. */
  method FetchPage(env: Env, budget: nat, requests: nat, start: int, end: int, index: nat, ghost db: seq<Item>)
    returns (page: Option<Reply>, made: nat)
    requires requests <= budget
    ensures requests <= made <= budget
    ensures page.Some? <==> !env.cancelled(requests) && requests < budget && Usable(env.respond(requests + 1, start, end, index), index)
    ensures page.Some? ==> page.value == env.respond(made, start, end, index)
    ensures page.Some? ==> page.value.Page? && 0 <= page.value.total && made == requests + 1
    ensures page.Some? ==> |page.value.items| == Min(MAX_PAGE, page.value.total - index)
    ensures page.Some? && Serves(env, db) ==>
      var w := Window(db, start, end);
      page.value.total == |w| && index <= |w| && page.value.items == w[index..Min(index + MAX_PAGE, |w|)]
    ensures page.None? && Smooth(env, db) && index <= |Window(db, start, end)| ==> made == budget
  {
    page, made := None, requests;
    if env.cancelled(requests) || requests >= budget {
      return;
    }
    made := requests + 1;
    var reply := env.respond(made, start, end, index);
    if reply.Broken? {
      return;
    }
    var expected := Min(MAX_PAGE, reply.total - index);
    if reply.total < 0 || reply.startIndex != index || expected < 0 || |reply.items| != expected || reply.perPage != expected {
      return;
    }
    page := Some(reply);
  }

  /** A page as it should be: readable, inside its window, in order and not newer than the page after it. */
  ghost predicate Fine(items: seq<Item>, start: int, end: int, newerBoundary: nat) {
    Oldest(items) && forall x :: x in items ==> Readable(x) && In(x, start, end) && (newerBoundary != 0 ==> x.published <= newerBoundary)
  }

  /** What a page has to be for all its records to be used. */
  lemma FineIff(items: seq<Item>, start: int, end: int, newerBoundary: nat)
    ensures Fine(items, start, end, newerBoundary) <==>
      && (forall i, j :: 0 <= i < j < |items| ==> items[i].published <= items[j].published)
      && forall i :: 0 <= i < |items| ==>
           && items[i].published != 0 && Strings.Trim(items[i].id) != ""
           && start <= items[i].published <= end && (newerBoundary > 0 ==> items[i].published <= newerBoundary)
  {
    hide Strings.Trim;
    forall i | 0 <= i < |items|
      ensures items[i] in items
    {
    }
  }

  lemma FineMore(items: seq<Item>, n: nat, start: int, end: int, newerBoundary: nat)
    requires n < |items| && Fine(items[..n], start, end, newerBoundary)
    ensures Fine(items[..n + 1], start, end, newerBoundary) <==>
      && Readable(items[n]) && In(items[n], start, end) && (newerBoundary != 0 ==> items[n].published <= newerBoundary)
      && (n > 0 ==> items[n - 1].published <= items[n].published)
    ensures !Fine(items[..n + 1], start, end, newerBoundary) ==> !Fine(items, start, end, newerBoundary)
  {
    hide Readable, In;
    var more := items[..n + 1];
    assert more == items[..n] + [items[n]];
    assert forall i :: 0 <= i < n ==> more[i] == items[..n][i];
    assert more[n] == items[n] && items[n] in more;
    if n > 0 {
      assert more[n - 1] == items[n - 1];
    }
  }

  /** How many records of a page come before the first that is unreadable, outside the window or out of order. */
  method CheckItems(items: seq<Item>, start: int, end: int, newerBoundary: nat) returns (good: nat)
    ensures good <= |items|
    ensures Fine(items[..good], start, end, newerBoundary)
    ensures good < |items| ==> !Fine(items[..good + 1], start, end, newerBoundary)
    ensures Fine(items, start, end, newerBoundary) ==> good == |items|
    ensures good == |items| ==> forall x :: x in items ==> Readable(x)
  {
    var previous := 0;
    good := 0;
    while good < |items|
      invariant good <= |items|
      invariant previous == if good == 0 then 0 else items[good - 1].published
      invariant forall i :: 0 <= i < good ==> Readable(items[i])
      invariant Fine(items[..good], start, end, newerBoundary)
    {
      var x := items[good];
      assert x in items;
      FineMore(items, good, start, end, newerBoundary);
      if x.published == 0 || Strings.Trim(x.id) == "" {
        return;
      }
      if x.published < start || x.published > end || (previous != 0 && x.published < previous) || (newerBoundary != 0 && x.published > newerBoundary) {
        return;
      }
      previous := x.published;
      good := good + 1;
    }
  }

  /** The selected records, newest first, at most limit of them. */
  method Top(canon: string -> string, s: Selection, ghost read: seq<Item>, limit: nat) returns (r: seq<Item>)
    requires Represents(canon, read, s)
    ensures Ranked(canon, r) && |r| == Min(limit, |s|)
    ensures forall pool :: ReadIsNewer(read, pool) ==> Dominates(canon, r, pool)
  {
    var ranked := Rank(canon, s);
    RankedFrom(canon, s, ranked);
    var n := Min(limit, |ranked|);
    r := ranked[..n];
    forall pool | ReadIsNewer(read, pool)
      ensures Dominates(canon, r, pool)
    {
      TopDominates(canon, read, s, ranked, n, pool);
    }
  }

  /** A window is over: enough is selected, it has been read to its beginning, or something failed. */
  datatype Ending = Enough | Exhausted | Stopped

  /** The page of a window from index to upper: the first one is the probe, and a page of a window that has
      changed since is not used. */
  method PageAt(env: Env, budget: nat, requests: nat, start: int, end: int, index: nat, upper: nat, probe: Reply, ghost db: seq<Item>)
    returns (items: Option<seq<Item>>, made: nat)
    requires requests <= budget && NotCancelled(env, requests)
    requires probe.Page? && index < upper <= probe.total && upper == Min(index + MAX_PAGE, probe.total)
    requires index == 0 ==> |probe.items| == upper
    requires Serves(env, db) ==> probe.total == |Window(db, start, end)| && (index == 0 ==> probe.items == Window(db, start, end)[..upper])
    ensures requests <= made <= budget && (items.Some? ==> NotCancelled(env, made) && |items.value| == upper - index)
    ensures items.Some? && Serves(env, db) ==> upper <= |Window(db, start, end)| && items.value == Window(db, start, end)[index..upper]
    ensures items.None? && Smooth(env, db) ==> made == budget
  {
    hide Smooth, NotCancelled, Usable, Serves;
    SmoothServes(env, db);
    made := requests;
    if index == 0 {
      return Some(probe.items), made;
    }
    var fetched;
    fetched, made := FetchPage(env, budget, requests, start, end, index, db);
    if fetched.None? || fetched.value.total != probe.total {
      return None, made;
    }
    NotCancelledMore(env, requests, made);
    items := Some(fetched.value.items);
  }

  method ReadWindow(env: Env, canon: string -> string, o: Options, start: int, end: int, from: Selection, before: nat,
                    ghost db: seq<Item>, ghost last: int, ghost already: seq<Item>)
    returns (how: Ending, s: Selection, requests: nat, ghost read: seq<Item>)
    requires o.limit >= 1 && o.maxRequests >= 1 && before <= o.maxRequests && |from| < o.limit
    requires Represents(canon, already, from) && NotCancelled(env, before)
    requires Serves(env, db) ==> Reading(db, last, start, end, |Window(db, start, end)|, already)
    ensures before <= requests <= o.maxRequests && (!how.Stopped? ==> before < requests)
    ensures Represents(canon, read, s) && (!how.Stopped? ==> NotCancelled(env, requests))
    ensures how.Enough? ==> |s| >= o.limit
    ensures how.Exhausted? ==> |s| < o.limit
    ensures Serves(env, db) && !how.Stopped? ==> exists upper :: Reading(db, last, start, end, upper, read)
    ensures Serves(env, db) && how.Exhausted? ==> Reading(db, last, start, end, 0, read)
    ensures how.Stopped? && Smooth(env, db) ==> requests == o.maxRequests
  {
    hide Represents, Reading, Smooth, NotCancelled, Usable, Fine;
    SmoothServes(env, db);
    s, read := from, already;
    var probe;
    probe, requests := FetchPage(env, o.maxRequests, before, start, end, 0, db);
    NotCancelledMore(env, before, requests);
    if probe.None? {
      return Stopped, s, requests, read;
    }
    var total := probe.value.total;
    var upper := total;
    var newerBoundary := 0;
    while upper > 0
      invariant 0 <= upper <= total && (upper == total || upper % MAX_PAGE == 0)
      invariant before < requests <= o.maxRequests && |s| < o.limit
      invariant Represents(canon, read, s) && NotCancelled(env, requests)
      invariant Serves(env, db) ==> total == |Window(db, start, end)| && Reading(db, last, start, end, upper, read)
      invariant Serves(env, db) && newerBoundary != 0 ==> upper < total && newerBoundary == Window(db, start, end)[upper].published
      decreases upper
    {
      var index := ((upper - 1) / MAX_PAGE) * MAX_PAGE;
      var page;
      page, requests := PageAt(env, o.maxRequests, requests, start, end, index, upper, probe.value, db);
      if page.None? {
        return Stopped, s, requests, read;
      }
      var items := page.value;
      var good := CheckItems(items, start, end, newerBoundary);
      s := Merge(canon, read, s, items[..good]);
      if good < |items| {
        SmoothPagesAreGood(env, db, start, end, index, upper, items, newerBoundary);
        read := read + items[..good];
        return Stopped, s, requests, read;
      }
      assert items[..good] == items;
      if Serves(env, db) {
        ReadingMore(db, last, start, end, upper, read, index, items);
      }
      read := read + items;
      if |s| >= o.limit {
        assert Serves(env, db) ==> Reading(db, last, start, end, index, read);
        return Enough, s, requests, read;
      }
      newerBoundary := items[0].published;
      upper := index;
    }
    how := Exhausted;
  }

  lemma SmoothServes(env: Env, db: seq<Item>)
    ensures Smooth(env, db) ==> Serves(env, db)
  {
  }

  lemma SmoothPagesAreGood(env: Env, db: seq<Item>, start: int, end: int, index: nat, upper: nat, items: seq<Item>, newerBoundary: nat)
    requires Serves(env, db) ==> upper <= |Window(db, start, end)| && index <= upper && items == Window(db, start, end)[index..upper]
    requires Serves(env, db) && newerBoundary != 0 ==> upper < |Window(db, start, end)| && newerBoundary == Window(db, start, end)[upper].published
    ensures Smooth(env, db) ==> Fine(items, start, end, newerBoundary)
  {
    if Smooth(env, db) {
      var w := Window(db, start, end);
      WindowOldest(db, start, end);
      forall x | x in items
        ensures Readable(x) && In(x, start, end) && (newerBoundary != 0 ==> x.published <= newerBoundary)
      {
        var i :| 0 <= i < |items| && items[i] == x;
        assert w[index + i] == x && x in w;
      }
    }
  }

  /** fetchLatest.  At most limit distinct records, newest first; none of the range that is left out is
      newer; fewer than limit only when the range has no more; within the request budget. */
  method FetchLatest(env: Env, canon: string -> string, options: Options, ghost db: seq<Item>) returns (r: Result, requests: nat)
    ensures r.Refused? <==> !Sensible(options)
    ensures r.Refused? ==> requests == 0
    ensures !r.Refused? ==> requests <= Filled(options).maxRequests && |r.items| <= Filled(options).limit && Ranked(canon, r.items)
    ensures r.Latest? && Serves(env, db) && Oldest(db) ==> Dominates(canon, r.items, Pool(db, options.start, LastTime(options)))
    ensures r.Latest? && Serves(env, db) && |r.items| < Filled(options).limit ==>
      options.start != 0 && |r.items| == |Identifiers(canon, Pool(db, options.start, LastTime(options)))|
    ensures r.Incomplete? && Smooth(env, db) ==> requests == Filled(options).maxRequests
    ensures r.Latest? ==> NotCancelled(env, requests)
  {
    if !Sensible(options) {
      return Refused, 0;
    }
    r, requests := FetchBack(env, canon, Filled(options), LastTime(options), db);
  }

  method FetchBack(env: Env, canon: string -> string, o: Options, last: nat, ghost db: seq<Item>) returns (r: Result, requests: nat)
    requires 1 <= o.limit && 1 <= o.maxRequests && 0 < o.window && o.start <= last
    ensures !r.Refused? && requests <= o.maxRequests && |r.items| <= o.limit && Ranked(canon, r.items)
    ensures r.Latest? && Serves(env, db) && Oldest(db) ==> Dominates(canon, r.items, Pool(db, o.start, last))
    ensures r.Latest? && Serves(env, db) && |r.items| < o.limit ==>
      o.start != 0 && |r.items| == |Identifiers(canon, Pool(db, o.start, last))|
    ensures r.Incomplete? && Smooth(env, db) ==> requests == o.maxRequests
    ensures r.Latest? ==> NotCancelled(env, requests)
  {
    hide Represents, Reading, Smooth, Serves, Oldest, Dominates, ReadIsNewer, Ranked, Pool, NotCancelled;
    NotCancelledYet(env);
    var explicit := o.start != 0;
    var end: int := last;
    var s: Selection := map[];
    ghost var read: seq<Item> := [];
    requests := 0;
    NothingRead(canon, db, last);
    while true
      invariant requests <= o.maxRequests && |s| < o.limit && end <= last && (explicit ==> o.start <= end)
      invariant Serves(env, db) ==> Reading(db, last, end, end, |Window(db, end, end)|, read)
      invariant Represents(canon, read, s) && NotCancelled(env, requests)
      decreases o.maxRequests - requests
    {
      var start := end - o.window;
      if explicit && start < o.start {
        start := o.start;
      }
      if Serves(env, db) {
        Widen(db, last, end, start, read);
      }
      var how;
      how, s, requests, read := ReadWindow(env, canon, o, start, end, s, requests, db, last, read);
      if how.Stopped? {
        var items := Top(canon, s, read, o.limit);
        return Incomplete(items), requests;
      }
      if how.Enough? || (explicit && start == o.start) {
        var items := Top(canon, s, read, o.limit);
        r := Latest(items);
        if Serves(env, db) {
          Settles(canon, o, how, db, last, start, end, read, s, items);
        }
        return;
      }
      if Serves(env, db) {
        ReadingOn(db, last, start, end, read, start);
      }
      end := start;
    }
  }

  lemma NotCancelledYet(env: Env)
    ensures NotCancelled(env, 0)
  {
  }

  lemma NothingRead(canon: string -> string, db: seq<Item>, last: int)
    ensures Represents(canon, [], map[])
    ensures Reading(db, last, last, last, |Window(db, last, last)|, [])
  {
  }

  /** Nothing of the next window has been read but what lies on its later boundary. */
  lemma Widen(db: seq<Item>, last: int, end: int, start: int, read: seq<Item>)
    requires Reading(db, last, end, end, |Window(db, end, end)|, read) && start <= end
    ensures Reading(db, last, start, end, |Window(db, start, end)|, read)
  {
  }

  lemma Settles(canon: string -> string, o: Options, how: Ending, db: seq<Item>, last: int, start: int, end: int, read: seq<Item>, s: Selection, items: seq<Item>)
    requires (exists upper :: Reading(db, last, start, end, upper, read)) && (how.Exhausted? ==> Reading(db, last, start, end, 0, read))
    requires Represents(canon, read, s) && |items| == Min(o.limit, |s|) && (how.Enough? ==> |s| >= o.limit) && !how.Stopped?
    requires how.Enough? || (o.start != 0 && start == o.start)
    requires o.start != 0 ==> o.start <= start
    requires forall pool :: ReadIsNewer(read, pool) ==> Dominates(canon, items, pool)
    ensures Oldest(db) ==> Dominates(canon, items, Pool(db, o.start, last))
    ensures |items| < o.limit ==> o.start != 0 && |items| == |Identifiers(canon, Pool(db, o.start, last))|
  {
    hide Represents, Reading, Dominates, ReadIsNewer, Pool;
    if Oldest(db) {
      var upper :| Reading(db, last, start, end, upper, read);
      ReadingIsNewest(db, o.start, last, start, end, upper, read);
    }
    if |items| < o.limit {
      RangeRead(canon, db, last, start, end, read, s);
    }
  }
}
