/** The newest records of NVD, exactly as many as asked for (src/nvd/fetch.go): a count probe, then
    pages cut from the tail.  The server may answer anything; against an unchanged database in
    ascending order, what is returned is what was asked for. */
module NvdFetch {
  import opened ScanTypes
  import opened NvdRecords

  const MAX_PAGE := 200
  const BUDGET := 128

  datatype Reply = Broken(text: string) | Page(total: int, startIndex: int, perPage: int, items: seq<Item>)

  /** What the t-th request answers, and whether the caller has cancelled at the t-th look. */
  datatype Env = Env(respond: (nat, nat, nat) -> Reply, cancelled: nat -> bool)

  function Min(a: int, b: int): int {
    if a < b then a else b
  }

  /** Every page served is a stretch of the database. */
  ghost predicate Serves(env: Env, db: seq<Item>) {
    forall t, start, size {:trigger env.respond(t, start, size)} :: IsStretch(env.respond(t, start, size), start, size, db)
  }

  ghost predicate IsStretch(reply: Reply, start: nat, size: nat, db: seq<Item>) {
    reply.Page? ==> reply.total == |db| && (start + size <= |db| ==> reply.items == db[start..start + size])
  }

  /** Nothing fails: every page inside the database is served as it should be, and nobody cancels. */
  ghost predicate Smooth(env: Env, db: seq<Item>) {
    && Serves(env, db) && Oldest(db) && Dated(db)
    && (forall t :: !env.cancelled(t))
    && forall t, start, size {:trigger env.respond(t, start, size)} ::
         WellFormed(env.respond(t, start, size), start, size, db)
  }

  ghost predicate WellFormed(reply: Reply, start: nat, size: nat, db: seq<Item>) {
    reply.Page? && (start + size <= |db| ==> reply.startIndex == start && reply.perPage == size)
  }

  predicate Oldest(items: seq<Item>) {
    forall i, j :: 0 <= i < j < |items| ==> items[i].published <= items[j].published
  }

  predicate Dated(items: seq<Item>) {
    forall i :: 0 <= i < |items| ==> items[i].published != 0 && items[i].modified != 0
  }

  datatype Result = Latest(items: seq<Item>) | Incomplete(cause: string) | Refused

  /** A page that can be used: of the database that was counted, exactly the stretch that was asked for,
      with all its times and in ascending order. */
  predicate Usable(reply: Reply, total: nat, start: nat, size: nat) {
    && reply.Page? && reply.total == total && reply.startIndex == start && reply.perPage == size
    && |reply.items| == size && Dated(reply.items) && Oldest(reply.items)
  }

  /** Said of the page alone. */
  lemma UsableIff(reply: Reply, total: nat, start: nat, size: nat)
    ensures Usable(reply, total, start, size) <==>
      && reply.Page? && reply.total == total && reply.startIndex == start && reply.perPage == |reply.items| == size
      && (forall x :: x in reply.items ==> x.published != 0 && x.modified != 0)
      && forall i, j :: 0 <= i < j < |reply.items| ==> reply.items[i].published <= reply.items[j].published
  {
    if reply.Page? {
      assert forall i :: 0 <= i < |reply.items| ==> reply.items[i] in reply.items;
    }
  }

  /** A data page: its extent and its order are checked before anything in it is used. */
  method FetchPage(env: Env, requests: nat, total: nat, start: nat, size: nat, ghost db: seq<Item>)
    returns (items: Option<seq<Item>>, made: nat)
    requires 1 <= requests <= BUDGET && start + size <= total
    ensures requests <= made <= BUDGET && made <= requests + 1
    ensures items.Some? <==>
      !env.cancelled(requests) && requests < 128 && Usable(env.respond(requests + 1, start, size), total, start, size)
    ensures items.Some? ==> made == requests + 1 && |items.value| == size && Dated(items.value) && Oldest(items.value)
    ensures items.Some? ==> env.respond(made, start, size).Page? && items.value == env.respond(made, start, size).items
    ensures items.Some? && Serves(env, db) && total == |db| ==> items.value == db[start..start + size]
    ensures items.None? && Smooth(env, db) && total == |db| ==> made == BUDGET
  {
    items, made := None, requests;
    if env.cancelled(requests) || requests >= BUDGET {
      return;
    }
    made := requests + 1;
    var reply := env.respond(made, start, size);
    if reply.Broken? || reply.total != total {
      return;
    }
    var expected := Min(size, reply.total - start);
    if reply.startIndex != start || reply.perPage != expected || |reply.items| != expected {
      return;
    }
    assert Serves(env, db) && total == |db| ==> reply.items == db[start..start + size];
    for i := 0 to |reply.items|
      invariant Dated(reply.items[..i]) && Oldest(reply.items[..i])
    {
      var x := reply.items[i];
      if x.published == 0 || x.modified == 0 || (i > 0 && x.published < reply.items[i - 1].published) {
        assert !Usable(reply, total, start, size);
        return;
      }
      OldestMore(reply.items, i);
    }
    assert reply.items[..|reply.items|] == reply.items;
    items := Some(reply.items);
  }

  lemma OldestMore(items: seq<Item>, i: nat)
    requires i < |items| && Oldest(items[..i]) && Dated(items[..i])
    requires items[i].published != 0 && items[i].modified != 0 && (i > 0 ==> items[i - 1].published <= items[i].published)
    ensures Oldest(items[..i + 1]) && Dated(items[..i + 1])
  {
  }

  /** The tail of an ascending database is its newest part. */
  lemma TailIsNewer(read: seq<Item>, db: seq<Item>, upper: nat)
    requires upper <= |db| && Oldest(db) && forall x :: x in read <==> x in db[upper..]
    ensures ReadIsNewer(read, db)
  {
  }

  /** Fetch: exactly count records with distinct identifiers, newest first, within the request budget. */
  method Fetch(env: Env, canon: string -> string, count: int, ghost db: seq<Item>)
    returns (r: Result, requests: nat, ghost pages: seq<Item>)
    ensures requests <= 128
    ensures r.Refused? <==> !(1 <= count <= 200)
    ensures r.Latest? ==> NotCancelled(env, requests)
    ensures r.Latest? ==> Oldest(pages) && Dominates(canon, r.items, pages)
    ensures r.Refused? ==> requests == 0
    ensures r.Latest? ==> |r.items| == count && Ranked(canon, r.items)
    ensures r.Latest? && Serves(env, db) && Oldest(db) ==> Dominates(canon, r.items, db)
    ensures r.Incomplete? && Smooth(env, db) ==> |Identifiers(canon, db)| < count || requests == BUDGET
  {
    pages := [];
    if count < 1 || count > MAX_PAGE {
      return Refused, 0, pages;
    }
    requests := 0;
    if env.cancelled(0) {
      return Incomplete("context canceled"), 0, pages;
    }
    requests := 1;
    var probe := env.respond(1, 0, 1);
    if probe.Broken? || probe.total < 0 {
      return Incomplete("invalid probe"), 1, pages;
    }
    if probe.total < count {
      FewIdentifiers(canon, db);
      return Incomplete("too few records"), 1, pages;
    }
    r, requests, pages := FetchTail(env, canon, count, probe.total, db);
  }

  /** How far the retrieval is: the records taken so far, in ascending order throughout, are what is
      selected from; of a database that is served as it is, they are everything from upper on. */
  ghost predicate Tail(env: Env, canon: string -> string, db: seq<Item>, pages: seq<Item>, selected: Selection, newerBoundary: nat, upper: nat) {
    && Represents(canon, pages, selected)
    && Oldest(pages) && (newerBoundary == 0 <==> pages == []) && (newerBoundary != 0 ==> newerBoundary == pages[0].published)
    && (Serves(env, db) ==> upper <= |db| && pages == db[upper..])
  }

  /** Nobody had cancelled at any of the looks up to the n-th. */
  ghost predicate NotCancelled(env: Env, n: int) {
    forall t: nat :: t <= n ==> !env.cancelled(t)
  }

  lemma NoneBefore(env: Env)
    ensures !env.cancelled(0) ==> NotCancelled(env, 0)
  {
  }

  lemma NotCancelledMore(env: Env, n: nat)
    ensures NotCancelled(env, n - 1) && !env.cancelled(n) ==> NotCancelled(env, n)
  {
  }

  /** The pages from the tail on.  Whatever the server is, the records taken from it are in ascending
      order throughout, also from one page to the next, and the result is the newest of them. */
  method FetchTail(env: Env, canon: string -> string, count: nat, total: nat, ghost db: seq<Item>)
    returns (r: Result, requests: nat, ghost pages: seq<Item>)
    requires 1 <= count <= MAX_PAGE && count <= total
    requires !env.cancelled(0) && (Serves(env, db) ==> total == |db|)
    ensures requests <= BUDGET && !r.Refused?
    ensures r.Latest? ==> NotCancelled(env, requests)
    ensures r.Latest? ==> Oldest(pages) && Dominates(canon, r.items, pages)
    ensures r.Latest? ==> |r.items| == count && Ranked(canon, r.items)
    ensures r.Latest? && Serves(env, db) && Oldest(db) ==> Dominates(canon, r.items, db)
    ensures r.Incomplete? && Smooth(env, db) ==> |Identifiers(canon, db)| < count || requests == BUDGET
  {
    hide Represents, Serves, Oldest, Ranked, Dominates, NewestFirst, Smooth, Dated, Tail, Usable, NotCancelled;
    requests := 1;
    NoneBefore(env);
    var selected: Selection := map[];
    var newerBoundary, upper := 0, total;
    pages := [];
    TailStarts(env, canon, db, total);
    SmoothServes(env, db);
    while true
      invariant 0 < upper <= total && |selected| < count && 1 <= requests <= BUDGET
      invariant Tail(env, canon, db, pages, selected, newerBoundary, upper) && NotCancelled(env, requests - 1)
      decreases upper
    {
      var size := Min(Min(count - |selected|, MAX_PAGE), upper);
      var page;
      page, selected, requests := TakePage(env, canon, requests, total, upper - size, upper, selected, newerBoundary, db, pages);
      if page.None? {
        return Incomplete("request failed"), requests, pages;
      }
      pages := page.value + pages;
      upper := upper - size;
      newerBoundary := page.value[0].published;
      if |selected| >= count {
        TailRepresents(env, canon, db, pages, selected, newerBoundary, upper);
        NotCancelledMore(env, requests);
        r := Select(canon, selected, pages, count, env.cancelled(requests));
        if r.Latest? {
          TailDone(env, canon, db, pages, selected, newerBoundary, upper, r.items);
        }
        return;
      }
      if upper == 0 {
        TailExhausted(env, canon, db, pages, selected, newerBoundary);
        return Incomplete("too few unique records"), requests, pages;
      }
    }
  }

  /** One page, checked against the one after it, and merged into the selection. */
  method TakePage(env: Env, canon: string -> string, requests: nat, total: nat, start: nat, upper: nat, from: Selection, newerBoundary: nat,
                  ghost db: seq<Item>, ghost pages: seq<Item>)
    returns (page: Option<seq<Item>>, selected: Selection, made: nat)
    requires 1 <= requests <= BUDGET && start < upper <= total && (Serves(env, db) ==> total == |db|)
    requires Tail(env, canon, db, pages, from, newerBoundary, upper) && NotCancelled(env, requests - 1)
    ensures requests <= made <= BUDGET && (page.Some? ==> NotCancelled(env, made - 1))
    ensures page.Some? ==> page.value != [] && Tail(env, canon, db, page.value + pages, selected, page.value[0].published, start)
    ensures page.Some? ==> |selected| <= |from| + (upper - start)
    ensures page.None? && Smooth(env, db) ==> made == BUDGET
  {
    hide Represents, Serves, Oldest, Smooth, Dated, Tail, Usable, NotCancelled;
    SmoothServes(env, db);
    NotCancelledMore(env, requests);
    selected := from;
    page, made := FetchPage(env, requests, total, start, upper - start, db);
    if page.None? {
      return;
    }
    if Smooth(env, db) {
      SmoothBoundary(env, canon, db, pages, from, newerBoundary, start, upper, page.value);
    }
    if newerBoundary != 0 && page.value[|page.value| - 1].published > newerBoundary {
      page := None;
      return;
    }
    TailRepresents(env, canon, db, pages, from, newerBoundary, upper);
    selected := Merge(canon, pages, from, page.value);
    TailMore(env, canon, db, pages, from, newerBoundary, start, upper, page.value, selected);
  }

  lemma TailStarts(env: Env, canon: string -> string, db: seq<Item>, total: nat)
    requires Serves(env, db) ==> total == |db|
    ensures Tail(env, canon, db, [], map[], 0, total)
  {
  }

  lemma TailRepresents(env: Env, canon: string -> string, db: seq<Item>, pages: seq<Item>, selected: Selection, newerBoundary: nat, upper: nat)
    requires Tail(env, canon, db, pages, selected, newerBoundary, upper)
    ensures Represents(canon, pages, selected)
  {
  }

  lemma SmoothBoundary(env: Env, canon: string -> string, db: seq<Item>, pages: seq<Item>, selected: Selection, newerBoundary: nat, start: nat, upper: nat, page: seq<Item>)
    requires Tail(env, canon, db, pages, selected, newerBoundary, upper) && Smooth(env, db)
    requires start < upper <= |db| && (Serves(env, db) ==> page == db[start..upper])
    ensures page != [] && (newerBoundary != 0 ==> page[|page| - 1].published <= newerBoundary)
  {
    hide Serves, Represents;
    SmoothServes(env, db);
    if pages != [] {
      assert pages[0] == db[upper];
    }
  }

  /** A page that ends no later than the pages after it begin continues their order. */
  lemma TailMore(env: Env, canon: string -> string, db: seq<Item>, pages: seq<Item>, before: Selection, newerBoundary: nat, start: nat, upper: nat, page: seq<Item>, after: Selection)
    requires Tail(env, canon, db, pages, before, newerBoundary, upper) && Represents(canon, pages + page, after)
    requires start < upper && page != [] && Oldest(page) && Dated(page)
    requires newerBoundary != 0 ==> page[|page| - 1].published <= newerBoundary
    requires Serves(env, db) && upper <= |db| ==> page == db[start..upper]
    ensures Tail(env, canon, db, page + pages, after, page[0].published, start)
  {
    hide Serves;
    SameRepresents(canon, pages + page, page + pages, after);
    if Serves(env, db) {
      assert db[start..] == db[start..upper] + db[upper..];
    }
  }

  lemma SameRepresents(canon: string -> string, a: seq<Item>, b: seq<Item>, s: Selection)
    requires Represents(canon, a, s) && forall x :: x in a <==> x in b
    ensures Represents(canon, b, s)
  {
  }

  lemma TailDone(env: Env, canon: string -> string, db: seq<Item>, pages: seq<Item>, selected: Selection, newerBoundary: nat, upper: nat, items: seq<Item>)
    requires Tail(env, canon, db, pages, selected, newerBoundary, upper)
    requires NewestFirst(items) && forall x :: x in items <==> canon(x.id) in selected && selected[canon(x.id)] == x
    ensures Oldest(pages) && Dominates(canon, items, pages)
    ensures Serves(env, db) && Oldest(db) ==> Dominates(canon, items, db)
  {
    hide Represents, Serves, Dominates, NewestFirst;
    assert items[..|items|] == items;
    AllIsNewer(pages);
    TopDominates(canon, pages, selected, items, |items|, pages);
    if Serves(env, db) && Oldest(db) {
      TailIsNewer(pages, db, upper);
      TopDominates(canon, pages, selected, items, |items|, db);
    }
  }

  lemma AllIsNewer(pages: seq<Item>)
    ensures ReadIsNewer(pages, pages)
  {
  }

  lemma TailExhausted(env: Env, canon: string -> string, db: seq<Item>, pages: seq<Item>, selected: Selection, newerBoundary: nat)
    requires Tail(env, canon, db, pages, selected, newerBoundary, 0)
    ensures Serves(env, db) ==> |Identifiers(canon, db)| == |selected|
  {
    hide Represents, Serves;
    SelectedAreRead(canon, pages, selected);
    if Serves(env, db) {
      assert db[0..] == db;
    }
  }

  lemma {:induction false} FewIdentifiers(canon: string -> string, items: seq<Item>)
    ensures |Identifiers(canon, items)| <= |items|
  {
    if items != [] {
      var n := |items| - 1;
      FewIdentifiers(canon, items[..n]);
      assert items == items[..n] + [items[n]];
      assert Identifiers(canon, items) == Identifiers(canon, items[..n]) + {canon(items[n].id)};
    }
  }

  lemma SmoothServes(env: Env, db: seq<Item>)
    ensures Smooth(env, db) ==> Serves(env, db) && Oldest(db) && forall t :: !env.cancelled(t)
  {
  }

  lemma SelectedAreRead(canon: string -> string, read: seq<Item>, s: Selection)
    requires Represents(canon, read, s)
    ensures s.Keys == Identifiers(canon, read)
  {
  }

  /** The selection, ranked; there are never more records than wanted. */
  method Select(canon: string -> string, selected: Selection, ghost read: seq<Item>, count: nat, cancelled: bool) returns (r: Result)
    requires Represents(canon, read, selected) && |selected| == count
    ensures !r.Refused? && (r.Incomplete? <==> cancelled)
    ensures r.Latest? ==> |r.items| == count && Ranked(canon, r.items) && NewestFirst(r.items)
    ensures r.Latest? ==> forall x :: x in r.items <==> canon(x.id) in selected && selected[canon(x.id)] == x
  {
    var ranked := Rank(canon, selected);
    RankedFrom(canon, selected, ranked);
    if cancelled {
      return Incomplete("context canceled");
    }
    r := Latest(ranked);
  }
}
