/** Following the pages of one query, said without the loop that follows them: as the list of the page
    tokens that are asked for.  A query of a batch that is answered in order, request by request, ends
    where this list ends, with the identifiers of the pages on it. */
module OsvChains {
  import opened ScanTypes
  import opened Text
  import Strings
  import opened OsvPaging

  /** Text that identifies something on the wire: not blank, and without control characters. */
  lemma ReadableIff(s: string)
    ensures Readable(s) <==> Strings.Trim(s) != "" && forall i :: 0 <= i < |s| ==> !IsControl(s[i])
  {
    Strings.TrimmedAway(s);
  }

  ghost predicate Clean(p: Page) {
    forall id :: id in p.vulns ==> Readable(id)
  }

  ghost function PageAt(page: Asking -> Page, q: PackageVersion, tokens: seq<string>, k: nat): Page
    requires k < |tokens|
  {
    page(Asking(q, tokens[k]))
  }

  /** The k-th page is clean and names the token after it. */
  ghost predicate Leads(page: Asking -> Page, q: PackageVersion, tokens: seq<string>, k: nat)
    requires k + 1 < |tokens|
  {
    Clean(PageAt(page, q, tokens, k)) && tokens[k + 1] != "" && tokens[k + 1] == PageAt(page, q, tokens, k).next
  }

  ghost predicate Distinct(tokens: seq<string>) {
    forall j, k :: 0 <= j < k < |tokens| ==> tokens[j] != tokens[k]
  }

  /** The tokens asked for: the first page has none, and each further one is what the page before it
      named, is new, and comes after clean pages only. */
  ghost predicate Tokens(page: Asking -> Page, q: PackageVersion, tokens: seq<string>) {
    && tokens != [] && tokens[0] == "" && Distinct(tokens)
    && forall k {:trigger Leads(page, q, tokens, k)} :: 0 <= k < |tokens| - 1 ==> Leads(page, q, tokens, k)
  }

  /** Why nothing is asked for after the last of these pages. */
  ghost predicate EndsWith(page: Asking -> Page, max: nat, q: PackageVersion, tokens: seq<string>, end: End)
    requires tokens != []
  {
    var last := PageAt(page, q, tokens, |tokens| - 1);
    match end
    case Open => false
    case InvalidID => !Clean(last)
    case Done => Clean(last) && last.next == ""
    case Repeated => Clean(last) && last.next != "" && last.next in tokens
    case TooMany => Clean(last) && last.next != "" && last.next !in tokens && |tokens| == max
  }

  /** All pages of a query, and its end. */
  ghost predicate Course(page: Asking -> Page, max: nat, q: PackageVersion, tokens: seq<string>, end: End) {
    Tokens(page, q, tokens) && |tokens| <= max && EndsWith(page, max, q, tokens, end)
  }

  /** The readable identifiers of these pages. */
  ghost predicate Names(page: Asking -> Page, q: PackageVersion, tokens: seq<string>, id: string) {
    Readable(id) && exists k :: 0 <= k < |tokens| && id in PageAt(page, q, tokens, k).vulns
  }

  lemma {:induction false} ReadableAre(vulns: seq<string>, id: string)
    ensures id in ReadableOf(vulns) <==> id in vulns && Readable(id)
  {
    if vulns != [] {
      var n := |vulns| - 1;
      assert vulns == vulns[..n] + [vulns[n]];
      ReadableAre(vulns[..n], id);
    }
  }

  lemma CleanIff(p: Page)
    ensures AllReadable(p.vulns) <==> Clean(p)
  {
    hide Readable;
  }

  // ---------- paging alone follows the tokens ----------

  lemma MoreTokens(page: Asking -> Page, q: PackageVersion, tokens: seq<string>, next: string)
    requires Tokens(page, q, tokens) && Clean(PageAt(page, q, tokens, |tokens| - 1))
    requires next == PageAt(page, q, tokens, |tokens| - 1).next && next != "" && next !in tokens
    ensures Tokens(page, q, tokens + [next])
  {
    var more := tokens + [next];
    forall k | 0 <= k < |more| - 1
      ensures Leads(page, q, more, k)
    {
      if k < |tokens| - 1 {
        assert Leads(page, q, tokens, k);
      }
      assert more[k] == tokens[k];
    }
  }

  ghost predicate NamesFrom(page: Asking -> Page, q: PackageVersion, tokens: seq<string>, from: nat, id: string) {
    Readable(id) && exists k :: from <= k < |tokens| && id in PageAt(page, q, tokens, k).vulns
  }

  lemma NamesHere(page: Asking -> Page, q: PackageVersion, tokens: seq<string>, from: nat, id: string)
    requires from < |tokens|
    ensures NamesFrom(page, q, tokens, from, id) <==>
      id in ReadableOf(PageAt(page, q, tokens, from).vulns) || NamesFrom(page, q, tokens, from + 1, id)
  {
    hide Readable;
    ReadableAre(PageAt(page, q, tokens, from).vulns, id);
  }

  /** The walk on from the last of these tokens. */
  ghost function WalkOn(page: Asking -> Page, max: nat, q: PackageVersion, tokens: seq<string>): Walked
    requires 0 < |tokens| <= max
  {
    Walk(page, max, q, tokens[|tokens| - 1], Elements(tokens[1..]), |tokens|)
  }

  lemma WalkStep(page: Asking -> Page, max: nat, q: PackageVersion, tokens: seq<string>)
    requires Tokens(page, q, tokens) && 0 < |tokens| <= max
    ensures
      var p := PageAt(page, q, tokens, |tokens| - 1);
      var w := WalkOn(page, max, q, tokens);
      if Clean(p) && p.next != "" && p.next !in tokens && |tokens| < max then
        var rest := WalkOn(page, max, q, tokens + [p.next]);
        w == Walked(ReadableOf(p.vulns) + rest.ids, rest.end)
      else w.ids == ReadableOf(p.vulns) && EndsWith(page, max, q, tokens, w.end)
  {
    hide Tokens, Readable, Clean, ReadableOf;
    var p := PageAt(page, q, tokens, |tokens| - 1);
    CleanIff(p);
    SeenIff(page, q, tokens, p.next);
    var more := tokens + [p.next];
    assert more[1..] == tokens[1..] + [p.next];
    assert Elements(more[1..]) == Elements(tokens[1..]) + {p.next};
  }

  /** From any point of the way on, walking takes a way of tokens to its end. */
  lemma {:induction false} WalkIsCourse(page: Asking -> Page, max: nat, q: PackageVersion, tokens: seq<string>) returns (all: seq<string>)
    requires Tokens(page, q, tokens) && 0 < |tokens| <= max
    ensures tokens <= all && Course(page, max, q, all, WalkOn(page, max, q, tokens).end)
    ensures forall id :: id in WalkOn(page, max, q, tokens).ids <==> NamesFrom(page, q, all, |tokens| - 1, id)
    decreases max - |tokens|
  {
    hide Tokens, Readable, Clean, WalkOn, EndsWith, ReadableOf, NamesFrom;
    var n := |tokens|;
    var p := PageAt(page, q, tokens, n - 1);
    WalkStep(page, max, q, tokens);
    if Clean(p) && p.next != "" && p.next !in tokens && n < max {
      MoreTokens(page, q, tokens, p.next);
      all := WalkIsCourse(page, max, q, tokens + [p.next]);
      assert all[n - 1] == tokens[n - 1];
    } else {
      all := tokens;
    }
    forall id
      ensures id in WalkOn(page, max, q, tokens).ids <==> NamesFrom(page, q, all, n - 1, id)
    {
      NamesHere(page, q, all, n - 1, id);
      NoneBehind(page, q, all, n, id);
    }
  }

  lemma NoneBehind(page: Asking -> Page, q: PackageVersion, tokens: seq<string>, from: nat, id: string)
    ensures from >= |tokens| ==> !NamesFrom(page, q, tokens, from, id)
  {
  }

  lemma SeenIff(page: Asking -> Page, q: PackageVersion, tokens: seq<string>, next: string)
    requires Tokens(page, q, tokens)
    ensures tokens != [] && (next != "" ==> (next in Elements(tokens[1..]) <==> next in tokens))
  {
    assert tokens == [tokens[0]] + tokens[1..];
  }

  /** There is one way only: what a page names next is given. */
  lemma CourseUnique(page: Asking -> Page, max: nat, q: PackageVersion, a: seq<string>, b: seq<string>, e: End, f: End)
    requires Course(page, max, q, a, e) && Course(page, max, q, b, f)
    ensures a == b && e == f
  {
    var n := if |a| <= |b| then |a| else |b|;
    SameTokens(page, q, a, b, n);
    if |a| < |b| {
      LongerGoesOn(page, max, q, a, b, e);
    } else if |b| < |a| {
      LongerGoesOn(page, max, q, b, a, f);
    }
    assert a[..n] == a && b[..n] == b;
  }

  lemma {:induction false} SameTokens(page: Asking -> Page, q: PackageVersion, a: seq<string>, b: seq<string>, n: nat)
    requires Tokens(page, q, a) && Tokens(page, q, b) && n <= |a| && n <= |b|
    ensures a[..n] == b[..n]
  {
    if n > 0 {
      SameTokens(page, q, a, b, n - 1);
      if n > 1 {
        assert a[..n - 1][n - 2] == b[..n - 1][n - 2];
        assert Leads(page, q, a, n - 2) && Leads(page, q, b, n - 2);
      }
      assert a[..n] == a[..n - 1] + [a[n - 1]] && b[..n] == b[..n - 1] + [b[n - 1]];
    }
  }

  lemma LongerGoesOn(page: Asking -> Page, max: nat, q: PackageVersion, a: seq<string>, b: seq<string>, e: End)
    requires Tokens(page, q, a) && Tokens(page, q, b) && |a| < |b| <= max && a == b[..|a|]
    ensures !EndsWith(page, max, q, a, e)
  {
    hide Clean;
    var n := |a|;
    assert a[n - 1] == b[n - 1];
    assert Leads(page, q, b, n - 1);
    NewToken(b, n);
  }

  lemma NewToken(tokens: seq<string>, n: nat)
    requires Distinct(tokens) && n < |tokens|
    ensures tokens[n] !in tokens[..n]
  {
  }

  /** Paging alone, without walking: its end is that of the one course there is, and its identifiers
      are the readable ones of the pages on it. */
  lemma SoloIsCourse(page: Asking -> Page, max: nat, q: PackageVersion, tokens: seq<string>, end: End)
    requires 1 <= max && Course(page, max, q, tokens, end)
    ensures Solo(page, max, q).end == end
    ensures forall id :: id in Solo(page, max, q).ids <==> Names(page, q, tokens, id)
  {
    hide EndsWith, Readable;
    assert Tokens(page, q, [""]);
    var all := WalkIsCourse(page, max, q, [""]);
    assert [""][1..] == [] && Elements([""][1..]) == {};
    CourseUnique(page, max, q, all, tokens, Solo(page, max, q).end, end);
  }

  lemma SomeCourse(page: Asking -> Page, max: nat, q: PackageVersion) returns (tokens: seq<string>)
    requires 1 <= max
    ensures Course(page, max, q, tokens, Solo(page, max, q).end)
  {
    hide EndsWith, Readable;
    assert Tokens(page, q, [""]);
    tokens := WalkIsCourse(page, max, q, [""]);
    assert [""][1..] == [] && Elements([""][1..]) == {};
  }

  // ---------- what a query of a batch comes to ----------

  /** The result of a query whose pages are these. */
  ghost predicate Reads(page: Asking -> Page, q: PackageVersion, tokens: seq<string>, end: End, r: QueryResult) {
    && r.query == q
    && (r.complete <==> end == Done)
    && r.error == (match end
                   case InvalidID => INVALID_ID
                   case Repeated => REPEATED
                   case TooMany => TOO_MANY
                   case _ => "")
    && Ascending(r.ids) && forall id :: id in r.ids <==> Names(page, q, tokens, id)
  }

  /** A query whose own requests are all answered, in order and one page for each query, ends with the
      course of its own tokens, whatever else is in its batch or waits behind it.  In particular an
      empty page without a next token completes a query without identifiers. */
  lemma AnsweredIsCourse(env: Env, max: nat, queries: seq<PackageVersion>, page: Asking -> Page, log: seq<Request>, stop: Option<Stop>, results: seq<QueryResult>, i: nat)
    requires 1 <= max && Serves(env, page) && IsCall(env, max, queries, log, stop, results)
    requires i < |queries| && ValidQuery(queries[i]) && stop.None?
    requires forall k :: 0 <= k < |log| && i in log[k].who ==>
      var reply := env.send(log[k].tick, log[k].batch);
      reply.Replied? && |reply.pages| == |log[k].batch| && None !in reply.pages
    ensures |results| == |queries|
    ensures exists tokens, end :: Course(page, max, queries[i], tokens, end) && Reads(page, queries[i], tokens, end, results[i])
  {
    hide Course, Names, Proper, IsReturned, Serves, ValidQuery, Readable, Solo;
    BatchingIsTransparent(env, max, queries, page, log, stop, results, i);
    var tokens := SomeCourse(page, max, queries[i]);
    SoloIsCourse(page, max, queries[i], tokens, Solo(page, max, queries[i]).end);
    EndText(page, max, queries[i], tokens, Solo(page, max, queries[i]).end);
    assert Reads(page, queries[i], tokens, Solo(page, max, queries[i]).end, results[i]);
  }

  lemma EndText(page: Asking -> Page, max: nat, q: PackageVersion, tokens: seq<string>, end: End)
    requires Course(page, max, q, tokens, end)
    ensures end.Text() == (match end
                           case InvalidID => INVALID_ID
                           case Repeated => REPEATED
                           case TooMany => TOO_MANY
                           case _ => "")
  {
    hide Tokens, EndsWith;
  }
}
