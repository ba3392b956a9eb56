/** Advisory groups in plain terms: records share a group exactly when a list of identifiers leads from
    the one to the other, each identifier and the next being a record's own and one of its valid aliases. */
module GroupClaims {
  import opened ScanTypes
  import opened Text
  import opened AliasLinks
  import opened AdvisoryGroups

  /** Some record goes by a and has b as a valid alias. */
  ghost predicate Aliased(records: Records, a: string, b: string) {
    exists k :: k in records && records[k].id == a && b in records[k].aliases && ValidText(b)
  }

  ghost predicate Neighbours(records: Records, a: string, b: string) {
    Aliased(records, a, b) || Aliased(records, b, a)
  }

  /** A list of identifiers from x to y in which each is a neighbour of the next. */
  ghost predicate Leads(records: Records, x: string, y: string, path: seq<string>) {
    && path != [] && path[0] == x && path[|path| - 1] == y
    && forall i :: 0 < i < |path| ==> Neighbours(records, path[i - 1], path[i])
  }

  ghost predicate Connected(records: Records, x: string, y: string) {
    exists path :: Leads(records, x, y, path)
  }

  lemma EdgesAre(records: Records, a: string, b: string)
    ensures Edge(a, b) in AliasEdges(records) <==> Aliased(records, a, b)
    ensures Adjacent(AliasEdges(records), a, b) <==> a == b || Neighbours(records, a, b)
  {
    EdgeIs(records, a, b);
    EdgeIs(records, b, a);
  }

  lemma EdgeIs(records: Records, a: string, b: string)
    ensures Edge(a, b) in AliasEdges(records) <==> Aliased(records, a, b)
  {
    if Aliased(records, a, b) {
      var k :| k in records && records[k].id == a && b in records[k].aliases && ValidText(b);
      assert Edge(records[k].id, b) in AliasEdges(records);
    }
  }

  lemma {:induction false} WalkLeads(records: Records, x: string, walk: seq<string>, y: string)
    requires Walk(AliasEdges(records), x, walk, y)
    ensures Connected(records, x, y)
    decreases |walk|
  {
    hide Neighbours, Adjacent, AliasEdges;
    if walk == [] {
      assert Leads(records, x, y, [x]);
    } else {
      EdgesAre(records, x, walk[0]);
      WalkLeads(records, walk[0], walk[1..], y);
      var path :| Leads(records, walk[0], y, path);
      if x != walk[0] {
        LeadsMore(records, x, walk[0], y, path);
      }
    }
  }

  lemma LeadsMore(records: Records, x: string, z: string, y: string, path: seq<string>)
    requires Leads(records, z, y, path) && Neighbours(records, x, z)
    ensures Connected(records, x, y)
  {
    hide Neighbours;
    var more := [x] + path;
    forall i | 0 < i < |more|
      ensures Neighbours(records, more[i - 1], more[i])
    {
      assert more[i] == path[i - 1];
      assert i > 1 ==> more[i - 1] == path[i - 2];
    }
    assert Leads(records, x, y, more);
  }

  lemma {:induction false} LeadsWalk(records: Records, x: string, y: string, path: seq<string>)
    requires Leads(records, x, y, path)
    ensures Walk(AliasEdges(records), x, path[1..], y)
    decreases |path|
  {
    hide Neighbours, Adjacent, AliasEdges;
    if |path| > 1 {
      var rest := path[1..];
      assert rest[0] == path[1];
      EdgesAre(records, x, rest[0]);
      forall i | 0 < i < |rest|
        ensures Neighbours(records, rest[i - 1], rest[i])
      {
        assert rest[i] == path[i + 1];
      }
      LeadsWalk(records, rest[0], y, rest);
    }
  }

  lemma ConnectedIff(records: Records, x: string, y: string)
    ensures Linked(AliasEdges(records), x, y) <==> Connected(records, x, y)
  {
    hide AliasEdges, Walk, Leads;
    if Linked(AliasEdges(records), x, y) {
      var walk :| Walk(AliasEdges(records), x, walk, y);
      WalkLeads(records, x, walk, y);
    }
    if Connected(records, x, y) {
      var path :| Leads(records, x, y, path);
      NotEmpty(records, x, y, path);
      LeadsWalk(records, x, y, path);
      WalkLinks(AliasEdges(records), x, path[1..], y);
    }
  }

  lemma NotEmpty(records: Records, x: string, y: string, path: seq<string>)
    requires Leads(records, x, y, path)
    ensures path != []
  {
  }

  lemma WalkLinks(edges: Edges, x: string, path: seq<string>, y: string)
    requires Walk(edges, x, path, y)
    ensures Linked(edges, x, y)
  {
  }

  /** An identifier of a record or one of its valid aliases. */
  ghost predicate Grouped(records: Records, x: string) {
    exists k :: k in records && (x == records[k].id || (x in records[k].aliases && ValidText(x)))
  }

  lemma GroupedIff(records: Records, x: string)
    ensures x in Ids(records) <==> Grouped(records, x)
  {
  }

  /** A group is all that is connected with one of its records: the identifiers and the records, both in
      order. */
  ghost predicate Gathers(records: Records, g: Group, k: string)
    requires k in records
  {
    && Ascending(g.ids) && Ascending(g.recordKeys) && g.runtimeImpact == "unknown"
    && (forall x :: x in g.ids <==> Grouped(records, x) && Connected(records, records[k].id, x))
    && forall j :: j in g.recordKeys <==> j in records && Connected(records, records[k].id, records[j].id)
  }

  lemma GroupGathers(records: Records, k: string)
    requires k in records
    ensures Gathers(records, GroupOf(records, k), k)
  {
    hide Grouped, Connected, AliasEdges, Linked, Ids;
    forall x
      ensures Linked(AliasEdges(records), records[k].id, x) <==> Connected(records, records[k].id, x)
      ensures x in Ids(records) <==> Grouped(records, x)
    {
      ConnectedIff(records, records[k].id, x);
      GroupedIff(records, x);
    }
  }

  lemma GatheredOnce(records: Records, g: Group, h: Group, k: string)
    requires k in records && Gathers(records, g, k) && Gathers(records, h, k)
    ensures g == h
  {
    hide Grouped, Connected;
    AscendingUnique(g.ids, h.ids);
    AscendingUnique(g.recordKeys, h.recordKeys);
  }

  /** The groups of some records, in plain terms: each record is in exactly one, each group is what is
      connected with any record of it, and they are listed by their identifiers joined with NULs. */
  ghost predicate Groups(records: Records, groups: seq<Group>) {
    && (forall k :: k in records ==> exists i :: 0 <= i < |groups| && k in groups[i].recordKeys)
    && (forall i, j, k :: 0 <= i < |groups| && 0 <= j < |groups| && k in groups[i].recordKeys && k in groups[j].recordKeys ==> i == j)
    && (forall i :: 0 <= i < |groups| ==> groups[i].recordKeys != [])
    && (forall i, k :: 0 <= i < |groups| && k in groups[i].recordKeys ==> k in records && Gathers(records, groups[i], k))
    && forall i, j :: 0 <= i < j < |groups| ==> !Less(JoinKey(groups[j].ids), JoinKey(groups[i].ids))
  }

  lemma GroupingGroups(records: Records, groups: seq<Group>)
    requires IsGrouping(records, groups)
    ensures Groups(records, groups)
  {
    hide Gathers, GroupOf, Linked, AliasEdges;
    forall k | k in records
      ensures exists i :: 0 <= i < |groups| && k in groups[i].recordKeys
    {
      var g := KeyInOneGroup(records, k);
      assert g in groups;
    }
    forall i, k | 0 <= i < |groups| && k in groups[i].recordKeys
      ensures k in records && Gathers(records, groups[i], k) && GroupOf(records, k) == groups[i]
    {
      assert groups[i] in groups;
      var j :| j in records && groups[i] == GroupOf(records, j);
      MemberIs(records, j, k);
      SharedIffLinked(records, j, k);
      GroupGathers(records, k);
    }
    forall i, j, k | 0 <= i < |groups| && 0 <= j < |groups| && k in groups[i].recordKeys && k in groups[j].recordKeys
      ensures i == j
    {
      assert GroupOf(records, k) == groups[i];
      assert GroupOf(records, k) == groups[j];
    }
    forall i | 0 <= i < |groups|
      ensures groups[i].recordKeys != []
    {
      assert groups[i] in groups;
      var j :| j in records && groups[i] == GroupOf(records, j);
      OwnKey(records, j);
    }
  }

  lemma MemberIs(records: Records, j: string, k: string)
    requires j in records && k in GroupOf(records, j).recordKeys
    ensures k in records
  {
  }

  lemma OwnKey(records: Records, j: string)
    requires j in records
    ensures j in GroupOf(records, j).recordKeys
  {
    LinkedSelf(AliasEdges(records), records[j].id);
  }

  lemma GroupsGrouping(records: Records, groups: seq<Group>)
    requires Groups(records, groups)
    ensures IsGrouping(records, groups)
  {
    hide Gathers, GroupOf;
    forall i, k | 0 <= i < |groups| && k in groups[i].recordKeys
      ensures k in records && groups[i] == GroupOf(records, k)
    {
      GroupGathers(records, k);
      GatheredOnce(records, groups[i], GroupOf(records, k), k);
    }
    forall g
      ensures g in groups <==> g in GroupSet(records)
    {
      if g in groups {
        var i :| 0 <= i < |groups| && groups[i] == g;
        assert groups[i].recordKeys[0] in groups[i].recordKeys;
        assert g == GroupOf(records, groups[i].recordKeys[0]);
      }
      if g in GroupSet(records) {
        var k :| k in records && g == GroupOf(records, k);
        var i :| 0 <= i < |groups| && k in groups[i].recordKeys;
        assert groups[i] == g;
      }
    }
    forall i, j | 0 <= i < j < |groups|
      ensures groups[i] != groups[j]
    {
      assert groups[i].recordKeys[0] in groups[i].recordKeys;
    }
  }

  /** The groupings are exactly these lists. */
  lemma GroupingIff(records: Records, groups: seq<Group>)
    ensures IsGrouping(records, groups) <==> Groups(records, groups)
  {
    hide IsGrouping, Groups;
    if IsGrouping(records, groups) {
      GroupingGroups(records, groups);
    }
    if Groups(records, groups) {
      GroupsGrouping(records, groups);
    }
  }

  lemma {:induction false} JoinKeyIs(ids: seq<string>)
    ensures |ids| == 1 ==> JoinKey(ids) == ids[0]
    ensures |ids| > 1 ==> JoinKey(ids) == ids[0] + "\0" + JoinKey(ids[1..])
  {
  }
}
