/** What both NVD retrievals share (src/nvd/fetch.go, src/nvd/latest.go): one record per identifier
    with its latest publication, and the newest records first. */
module NvdRecords {
  import opened Text

  /** A record; times count from one, zero is a time that is missing or does not parse. */
  datatype Item = Item(id: string, published: nat, modified: nat, body: string)

  type Selection = map<string, Item>

  /** The selection holds every identifier read so far, with the latest of its publications.
      Identifiers are compared after trimming and upper-casing, which canon stands for. */
  ghost predicate Represents(canon: string -> string, read: seq<Item>, s: Selection) {
    && (forall x :: x in read ==> Covered(canon, s, x))
    && forall k :: k in s ==> s[k] in read && canon(s[k].id) == k
  }

  predicate Covered(canon: string -> string, s: Selection, x: Item) {
    canon(x.id) in s && x.published <= s[canon(x.id)].published
  }

  lemma RepresentsMore(canon: string -> string, read: seq<Item>, s: Selection, x: Item)
    requires Represents(canon, read, s)
    ensures
      if canon(x.id) !in s || s[canon(x.id)].published < x.published then Represents(canon, read + [x], s[canon(x.id) := x])
      else Represents(canon, read + [x], s)
  {
  }

  /** The loop both retrievals run over a page. */
  method Merge(canon: string -> string, ghost read: seq<Item>, start: Selection, items: seq<Item>) returns (s: Selection)
    requires Represents(canon, read, start)
    ensures Represents(canon, read + items, s)
    ensures start.Keys <= s.Keys && |s| <= |start| + |items|
  {
    hide Represents;
    s := start;
    assert read + items[..0] == read;
    for i := 0 to |items|
      invariant Represents(canon, read + items[..i], s)
      invariant start.Keys <= s.Keys && |s| <= |start| + i
    {
      var x := items[i];
      assert read + items[..i + 1] == (read + items[..i]) + [x];
      RepresentsMore(canon, read + items[..i], s, x);
      if canon(x.id) !in s || s[canon(x.id)].published < x.published {
        GrowsByOne(s, canon(x.id), x);
        s := s[canon(x.id) := x];
      }
    }
    assert items[..|items|] == items;
  }

  lemma GrowsByOne(s: Selection, k: string, x: Item)
    ensures |s[k := x]| <= |s| + 1
  {
  }

  // ---------- newest first ----------

  /** Later publications first; the same time by identifier. */
  predicate Before(x: Item, y: Item) {
    x.published > y.published || (x.published == y.published && Less(x.id, y.id))
  }

  ghost predicate NewestFirst(s: seq<Item>) {
    forall i, j :: 0 <= i < j < |s| ==> Before(s[i], s[j])
  }

  lemma BeforeTransitive(x: Item, y: Item, z: Item)
    requires Before(x, y) && Before(y, z)
    ensures Before(x, z)
  {
    if x.published == y.published == z.published {
      LessTransitive(x.id, y.id, z.id);
    }
  }

  function InsertItem(s: seq<Item>, x: Item): (r: seq<Item>)
    ensures |r| == |s| + 1 && forall y :: y in r <==> y == x || y in s
  {
    if s == [] then [x]
    else if Before(x, s[0]) then [x] + s
    else
      var r := InsertItem(s[1..], x);
      assert s == [s[0]] + s[1..];
      [s[0]] + r
  }

  lemma {:induction false} InsertNewestFirst(s: seq<Item>, x: Item)
    requires NewestFirst(s) && forall y :: y in s ==> y.id != x.id
    ensures NewestFirst(InsertItem(s, x))
  {
    if s == [] {
    } else if Before(x, s[0]) {
      forall i | 0 < i < |s|
        ensures Before(x, s[i])
      {
        BeforeTransitive(x, s[0], s[i]);
      }
    } else {
      assert s[0] in s;
      LessTotal(x.id, s[0].id);
      assert forall y :: y in s[1..] ==> y in s;
      InsertNewestFirst(s[1..], x);
      var r := InsertItem(s[1..], x);
      forall i | 0 <= i < |r|
        ensures Before(s[0], r[i])
      {
        assert r[i] in r;
        if r[i] != x {
          var j :| 0 <= j < |s[1..]| && s[1..][j] == r[i];
          assert s[j + 1] == r[i];
        }
      }
    }
  }

  /** The selected records, taken out of the map in any order and sorted. */
  method Rank(canon: string -> string, s: Selection) returns (r: seq<Item>)
    requires forall k :: k in s ==> canon(s[k].id) == k
    ensures NewestFirst(r) && |r| == |s|
    ensures forall x :: x in r <==> canon(x.id) in s && s[canon(x.id)] == x
  {
    r := [];
    var left := s.Keys;
    while left != {}
      invariant left <= s.Keys && NewestFirst(r) && |r| + |left| == |s|
      invariant forall x :: x in r <==> canon(x.id) in s && canon(x.id) !in left && s[canon(x.id)] == x
      decreases left
    {
      var k :| k in left;
      InsertNewestFirst(r, s[k]);
      r := InsertItem(r, s[k]);
      left := left - {k};
    }
  }

  // ---------- the best of everything ----------

  ghost function Identifiers(canon: string -> string, items: seq<Item>): set<string> {
    set x | x in items :: canon(x.id)
  }

  /** No record of the pool that is left out is newer than one that is returned, and those returned
      carry their latest publication. */
  ghost predicate Dominates(canon: string -> string, result: seq<Item>, pool: seq<Item>) {
    && (forall x :: x in result ==> x in pool)
    && (forall x, y :: x in result && y in pool && canon(y.id) == canon(x.id) ==> y.published <= x.published)
    && (forall x, y :: x in result && y in pool && canon(y.id) !in Identifiers(canon, result) ==> y.published <= x.published)
  }

  /** Distinct identifiers, newest first. */
  ghost predicate Ranked(canon: string -> string, result: seq<Item>) {
    NewestFirst(result) && forall i, j :: 0 <= i < j < |result| ==> canon(result[i].id) != canon(result[j].id)
  }

  /** Newest first: no record is published before a later one of the list, and records published at the
      same time are listed by identifier. */
  lemma RankedMeans(canon: string -> string, result: seq<Item>, i: nat, j: nat)
    requires Ranked(canon, result) && i < j < |result|
    ensures result[i].published >= result[j].published
    ensures result[i].published == result[j].published ==> Less(result[i].id, result[j].id)
    ensures canon(result[i].id) != canon(result[j].id)
  {
    assert Before(result[i], result[j]);
  }

  lemma RankedFrom(canon: string -> string, s: Selection, r: seq<Item>)
    requires NewestFirst(r) && forall x :: x in r ==> canon(x.id) in s && s[canon(x.id)] == x
    ensures Ranked(canon, r)
  {
    forall i, j | 0 <= i < j < |r|
      ensures canon(r[i].id) != canon(r[j].id)
    {
      assert r[i] in r && r[j] in r;
      LessIrreflexive(r[i].id);
    }
  }

  /** Everything read is at least as new as everything not read. */
  ghost predicate ReadIsNewer(read: seq<Item>, pool: seq<Item>) {
    && (forall x :: x in read ==> x in pool)
    && forall x, y :: x in read && y in pool && y !in read ==> y.published <= x.published
  }

  /** The first n of the ranked selection dominate the pool when what was read is its newest part. */
  lemma TopDominates(canon: string -> string, read: seq<Item>, s: Selection, r: seq<Item>, n: nat, pool: seq<Item>)
    requires Represents(canon, read, s) && ReadIsNewer(read, pool) && n <= |r|
    requires NewestFirst(r) && forall x :: x in r <==> canon(x.id) in s && s[canon(x.id)] == x
    ensures Dominates(canon, r[..n], pool)
  {
  }
}
