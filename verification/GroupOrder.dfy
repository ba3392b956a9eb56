module GroupOrder {
  // Whether the groups depend on the order in which `groupRecords` (src/reposcan/run.go) comes
  // across the records.

  import opened ScanTypes
  import opened Text
  import opened AliasLinks
  import opened AdvisoryGroups

  // ---------- independence of the iteration order ----------

  /** Different groups have different joined identifiers. */
  ghost predicate KeysTellApart(records: Records) {
    forall g, h :: g in GroupSet(records) && h in GroupSet(records) && JoinKey(g.ids) == JoinKey(h.ids) ==> g == h
  }

  ghost function JoinKeys(groups: seq<Group>): seq<string> {
    seq(|groups|, i requires 0 <= i < |groups| => JoinKey(groups[i].ids))
  }

  lemma JoinKeysAscending(records: Records, groups: seq<Group>)
    requires IsGrouping(records, groups) && KeysTellApart(records)
    ensures Ascending(JoinKeys(groups))
  {
    forall i, j | 0 <= i < j < |groups|
      ensures Less(JoinKeys(groups)[i], JoinKeys(groups)[j])
    {
      assert groups[i] in groups && groups[j] in groups;
      LessTotal(JoinKey(groups[i].ids), JoinKey(groups[j].ids));
    }
  }

  /** When joined identifiers tell the groups apart there is only one possible answer, so neither
      the records' nor the forest's iteration order can show. */
  lemma GroupingUnique(records: Records, a: seq<Group>, b: seq<Group>)
    requires KeysTellApart(records) && IsGrouping(records, a) && IsGrouping(records, b)
    ensures a == b
  {
    JoinKeysAscending(records, a);
    JoinKeysAscending(records, b);
    KeyMembers(records, a, b);
    KeyMembers(records, b, a);
    AscendingUnique(JoinKeys(a), JoinKeys(b));
    forall i | 0 <= i < |a|
      ensures a[i] == b[i]
    {
      assert JoinKeys(a)[i] == JoinKeys(b)[i] && a[i] in a && b[i] in b;
    }
  }

  lemma KeyMembers(records: Records, a: seq<Group>, b: seq<Group>)
    requires IsGrouping(records, a) && IsGrouping(records, b)
    ensures |JoinKeys(a)| == |a|
    ensures forall x :: x in JoinKeys(a) ==> x in JoinKeys(b)
  {
    forall x | x in JoinKeys(a)
      ensures x in JoinKeys(b)
    {
      var i :| 0 <= i < |a| && JoinKeys(a)[i] == x;
      assert a[i] in a;
      assert a[i] in b;
      var j :| 0 <= j < |b| && b[j] == a[i];
      assert JoinKeys(b)[j] == x;
    }
  }

  /** When two groups join to the same text, another order of the groups is an answer as well. */
  lemma GroupingAmbiguous(records: Records, a: seq<Group>, g: Group, h: Group) returns (b: seq<Group>)
    requires IsGrouping(records, a)
    requires g in GroupSet(records) && h in GroupSet(records) && g != h && JoinKey(g.ids) == JoinKey(h.ids)
    ensures IsGrouping(records, b) && b != a
  {
    assert g in a && h in a;
    var i :| 0 <= i < |a| && a[i] == g;
    var j :| 0 <= j < |a| && a[j] == h;
    b := a[i := h][j := g];
    forall x, y | 0 <= x < y < |b|
      ensures !Less(JoinKey(b[y].ids), JoinKey(b[x].ids)) && b[x] != b[y]
    {
      assert JoinKey(b[x].ids) == JoinKey(a[x].ids) && JoinKey(b[y].ids) == JoinKey(a[y].ids);
    }
    forall f
      ensures f in b <==> f in a
    {
      SwapMembers(a, i, j, f);
    }
    assert b[i] != a[i];
  }

  lemma SwapMembers<T>(a: seq<T>, i: nat, j: nat, f: T)
    requires i < |a| && j < |a|
    ensures f in a[i := a[j]][j := a[i]] <==> f in a
  {
    var b := a[i := a[j]][j := a[i]];
    if f in a {
      var k :| 0 <= k < |a| && a[k] == f;
      assert b[if k == i then j else if k == j then i else k] == f;
    }
    if f in b {
      var k :| 0 <= k < |b| && b[k] == f;
      assert a[if k == i then j else if k == j then i else k] == f;
    }
  }

  /** Exactly when the order of the answer is determined. */
  lemma OrderDeterminedIff(records: Records, a: seq<Group>)
    requires IsGrouping(records, a)
    ensures KeysTellApart(records) <==> forall b :: IsGrouping(records, b) ==> b == a
  {
    if KeysTellApart(records) {
      forall b | IsGrouping(records, b)
        ensures b == a
      {
        GroupingUnique(records, a, b);
      }
    } else {
      var g, h :| g in GroupSet(records) && h in GroupSet(records) && JoinKey(g.ids) == JoinKey(h.ids) && g != h;
      var b := GroupingAmbiguous(records, a, g, h);
    }
  }

  ghost predicate NulFree(s: string) {
    '\0' !in s
  }

  /** A join of NUL-free identifiers can be taken apart again. */
  lemma {:induction false} JoinKeyInjective(a: seq<string>, b: seq<string>)
    requires a != [] && b != [] && JoinKey(a) == JoinKey(b)
    requires (forall x :: x in a ==> NulFree(x)) && (forall x :: x in b ==> NulFree(x))
    ensures a == b
  {
    JoinHead(a);
    JoinHead(b);
    if |a[0]| < |b[0]| {
      NulInside(a, b);
    } else if |b[0]| < |a[0]| {
      NulInside(b, a);
    }
    assert a[0] == JoinKey(a)[..|a[0]|] == b[0];
    if |a| > 1 {
      assert |b| > 1;
      assert JoinKey(a[1..]) == JoinKey(a)[|a[0]| + 1..];
      assert JoinKey(b[1..]) == JoinKey(b)[|b[0]| + 1..];
      JoinKeyInjective(a[1..], b[1..]);
      assert a == [a[0]] + a[1..] && b == [b[0]] + b[1..];
    } else {
      assert a == [a[0]] && b == [b[0]];
    }
  }

  lemma JoinHead(a: seq<string>)
    requires a != []
    ensures a[0] <= JoinKey(a)
    ensures |a| == 1 ==> JoinKey(a) == a[0]
    ensures |a| > 1 ==> JoinKey(a) == a[0] + "\0" + JoinKey(a[1..]) && JoinKey(a)[|a[0]|] == '\0'
  {
  }

  /** If the joins agree but a starts with a shorter identifier, b's first one contains the NUL. */
  lemma NulInside(a: seq<string>, b: seq<string>)
    requires a != [] && b != [] && JoinKey(a) == JoinKey(b) && |a[0]| < |b[0]|
    ensures !NulFree(b[0])
  {
    JoinHead(a);
    JoinHead(b);
    assert b[0][|a[0]|] == JoinKey(b)[|a[0]|];
  }

  /** Records whose identifiers are NUL-free, as every validated record's are, have one grouping. */
  lemma NulFreeTellsApart(records: Records)
    requires forall k :: k in records ==> NulFree(records[k].id)
    ensures KeysTellApart(records)
  {
    forall g, h | g in GroupSet(records) && h in GroupSet(records) && JoinKey(g.ids) == JoinKey(h.ids)
      ensures g == h
    {
      GroupIdsNulFree(records, g);
      GroupIdsNulFree(records, h);
      JoinKeyInjective(g.ids, h.ids);
      var id := g.ids[0];
      assert id in g.ids && id in h.ids;
      var only := IdInOneGroup(records, id);
    }
  }

  lemma GroupIdsNulFree(records: Records, g: Group)
    requires g in GroupSet(records)
    requires forall k :: k in records ==> NulFree(records[k].id)
    ensures g.ids != [] && forall x :: x in g.ids ==> x in Ids(records) && NulFree(x)
  {
    var k :| k in records && g == GroupOf(records, k);
    LinkedSelf(AliasEdges(records), records[k].id);
    assert records[k].id in g.ids;
    forall x | x in g.ids
      ensures NulFree(x)
    {
      if ValidText(x) {
        assert forall i :: 0 <= i < |x| ==> x[i] != '\0';
      }
    }
  }

  // ---------- a NUL in an identifier ----------

  /** An identifier no edge touches is linked to itself only. */
  lemma {:induction false} IsolatedWalk(edges: Edges, x: string, path: seq<string>, y: string)
    requires Walk(edges, x, path, y)
    requires forall e :: e in edges ==> e.id != x && e.alias != x
    ensures y == x
    decreases |path|
  {
    if path != [] {
      IsolatedWalk(edges, path[0], path[1..], y);
    }
  }

  const PADDED := SourceRecord(Osv, "a\0b", [], false, Malformed(""))
  const PAIRED := SourceRecord(Osv, "a", ["b"], false, Malformed(""))

  ghost predicate PaddedAndPaired(records: Records) {
    records.Keys == {"p", "q"} && records["p"] == PADDED && records["q"] == PAIRED
  }

  lemma ExampleGraph(records: Records)
    requires PaddedAndPaired(records)
    ensures AliasEdges(records) == {Edge("a", "b")} && Ids(records) == {"a\0b", "a", "b"}
  {
    assert ValidText("b");
    assert "b" in records["q"].aliases;
    forall e
      ensures e in AliasEdges(records) <==> e == Edge("a", "b")
    {
    }
    forall x
      ensures x in Ids(records) <==> x in {"a\0b", "a", "b"}
    {
    }
  }

  /** Without the NUL condition the order is not determined: a record named a-NUL-b and a record a
      with the alias b are two groups that join to the same text, and either order of them is right. */
  lemma NulMakesTwoAnswers(records: Records)
    requires PaddedAndPaired(records)
    ensures !KeysTellApart(records)
    ensures
      var a, b := GroupOf(records, "p"), GroupOf(records, "q");
      a != b && IsGrouping(records, [a, b]) && IsGrouping(records, [b, a])
  {
    ExampleGraph(records);
    PaddedGroup(records);
    PairedGroup(records);
    SameJoin();
    TellApartFails(records, "p", "q");
    TwoGroups(records);
    EitherOrder(records, GroupOf(records, "p"), GroupOf(records, "q"));
    EitherOrder(records, GroupOf(records, "q"), GroupOf(records, "p"));
  }

  lemma TwoGroups(records: Records)
    requires records.Keys == {"p", "q"}
    ensures GroupSet(records) == {GroupOf(records, "p"), GroupOf(records, "q")}
  {
    hide GroupOf;
    forall g
      ensures g in GroupSet(records) <==> g == GroupOf(records, "p") || g == GroupOf(records, "q")
    {
      assert "p" in records && "q" in records;
    }
  }

  lemma EitherOrder(records: Records, a: Group, b: Group)
    requires GroupSet(records) == {a, b} && a != b && JoinKey(a.ids) == JoinKey(b.ids)
    ensures IsGrouping(records, [a, b])
  {
    LessIrreflexive(JoinKey(a.ids));
    forall g
      ensures g in [a, b] <==> g in GroupSet(records)
    {
    }
  }

  lemma SameJoin()
    ensures JoinKey(["a", "b"]) == JoinKey(["a\0b"]) && ["a", "b"] != ["a\0b"]
  {
  }

  lemma TellApartFails(records: Records, j: string, k: string)
    requires j in records && k in records
    requires GroupOf(records, j).ids != GroupOf(records, k).ids
    requires JoinKey(GroupOf(records, j).ids) == JoinKey(GroupOf(records, k).ids)
    ensures !KeysTellApart(records)
  {
  }

  lemma PaddedGroup(records: Records)
    requires PaddedAndPaired(records)
    requires AliasEdges(records) == {Edge("a", "b")} && Ids(records) == {"a\0b", "a", "b"}
    ensures GroupOf(records, "p").ids == ["a\0b"]
  {
    var ids := set id | id in Ids(records) && SameGroup(records, "p", id);
    LinkedSelf(AliasEdges(records), "a\0b");
    forall id | id in ids
      ensures id == "a\0b"
    {
      var path :| Walk(AliasEdges(records), "a\0b", path, id);
      IsolatedWalk(AliasEdges(records), "a\0b", path, id);
    }
    assert "a\0b" in ids;
    ArrangeIs(["a\0b"], ids);
  }

  lemma PairedGroup(records: Records)
    requires PaddedAndPaired(records)
    requires AliasEdges(records) == {Edge("a", "b")} && Ids(records) == {"a\0b", "a", "b"}
    ensures GroupOf(records, "q").ids == ["a", "b"]
  {
    var edges := AliasEdges(records);
    var ids := set id | id in Ids(records) && SameGroup(records, "q", id);
    LinkedSelf(edges, "a");
    LinkedEdge(edges, "a", "b");
    if "a\0b" in ids {
      LinkedBack(edges, "a", "a\0b");
      var path :| Walk(edges, "a\0b", path, "a");
      IsolatedWalk(edges, "a\0b", path, "a");
    }
    assert "a" in ids && "b" in ids;
    ArrangeIs(["a", "b"], ids);
  }
}
