/** Sorting the identifiers of a query and removing duplicates in place, the last loop of
    `DiscoveryClient.Query` (src/osv/discovery.go). */
module IdLists {
  import opened Text

  ghost predicate Ordered(s: seq<string>) {
    forall i, j :: 0 <= i < j < |s| ==> s[i] == s[j] || Less(s[i], s[j])
  }

  function InsertSorted(s: seq<string>, v: string): (r: seq<string>)
    ensures |r| == |s| + 1
    ensures forall x :: x in r <==> x == v || x in s
  {
    if s == [] then [v]
    else if Less(v, s[0]) then [v] + s
    else
      var r := InsertSorted(s[1..], v);
      assert s == [s[0]] + s[1..];
      [s[0]] + r
  }

  lemma {:induction false} InsertSortedOrdered(s: seq<string>, v: string)
    requires Ordered(s)
    ensures Ordered(InsertSorted(s, v))
  {
    if s == [] {
    } else if Less(v, s[0]) {
      forall i | 0 < i < |s|
        ensures Less(v, s[i])
      {
        if s[0] != s[i] {
          LessTransitive(v, s[0], s[i]);
        }
      }
    } else {
      LessTotal(v, s[0]);
      InsertSortedOrdered(s[1..], v);
      var r := InsertSorted(s[1..], v);
      forall i | 0 <= i < |r|
        ensures s[0] == r[i] || Less(s[0], r[i])
      {
        assert r[i] in r;
        if r[i] != v {
          var j :| 0 <= j < |s[1..]| && s[1..][j] == r[i];
          assert s[j + 1] == r[i];
        }
      }
    }
  }

  function Sorted(ids: seq<string>): (r: seq<string>)
    ensures |r| == |ids| && forall x :: x in r <==> x in ids
  {
    if ids == [] then []
    else
      var last := |ids| - 1;
      assert ids == ids[..last] + [ids[last]];
      InsertSorted(Sorted(ids[..last]), ids[last])
  }

  lemma {:induction false} SortedOrdered(ids: seq<string>)
    ensures Ordered(Sorted(ids))
  {
    if ids != [] {
      SortedOrdered(ids[..|ids| - 1]);
      InsertSortedOrdered(Sorted(ids[..|ids| - 1]), ids[|ids| - 1]);
    }
  }

  /** Keeps the first of every run of equals, writing over what was read already. */
  method Compact(a: array<string>) returns (n: nat)
    requires Ordered(a[..])
    modifies a
    ensures n <= a.Length && a[..n] == Arrange(Elements(old(a[..])))
  {
    n := 0;
    ghost var was := a[..];
    for i := 0 to a.Length
      invariant n <= i && a[i..] == was[i..]
      invariant Ascending(a[..n]) && Elements(a[..n]) == Elements(was[..i])
      invariant n > 0 ==> i > 0 && a[n - 1] == was[i - 1]
      invariant n == 0 ==> i == 0
    {
      assert a[i] == was[i];
      assert was[..i + 1] == was[..i] + [was[i]];
      ElementsMore(was[..i], was[i]);
      ghost var kept := a[..n];
      if n == 0 || a[n - 1] != a[i] {
        AscendingMore(kept, was[i]);
        ElementsMore(kept, was[i]);
        a[n] := a[i];
        n := n + 1;
        assert a[..n] == kept + [was[i]];
      } else {
        assert was[i - 1] in was[..i];
      }
    }
    assert was[..a.Length] == was;
    ArrangeIs(a[..n], Elements(was));
  }

  lemma ElementsMore(s: seq<string>, v: string)
    ensures Elements(s + [v]) == Elements(s) + {v}
  {
  }

  lemma AscendingMore(s: seq<string>, v: string)
    requires Ascending(s) && (s != [] ==> Less(s[|s| - 1], v))
    ensures Ascending(s + [v])
  {
    forall i | 0 <= i < |s|
      ensures Less(s[i], v)
    {
      if i < |s| - 1 {
        LessTransitive(s[i], s[|s| - 1], v);
      }
    }
  }

  method SortUnique(ids: seq<string>) returns (r: seq<string>)
    ensures r == Arrange(Elements(ids))
  {
    var sorted := Sorted(ids);
    SortedOrdered(ids);
    var a := new string[|sorted|](i requires 0 <= i < |sorted| => sorted[i]);
    assert a[..] == sorted;
    var n := Compact(a);
    r := a[..n];
    assert Elements(sorted) == Elements(ids);
  }
}
