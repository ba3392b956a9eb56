/** Advisory groups. */
module AdvisoryGroups {
  // Alias groups of source records: `groupRecords` (src/reposcan/run.go) computes the connected
  // components of the graph whose edges join a record's identifier to its valid aliases.

  import opened ScanTypes
  import opened Text
  import UnionFind
  import opened AliasLinks

  ghost predicate SameGroup(records: Records, k: string, id: string)
    requires k in records
  {
    Linked(AliasEdges(records), records[k].id, id)
  }

  /** The group of a record: all identifiers and all records a chain of aliases leads to. */
  ghost function GroupOf(records: Records, k: string): Group
    requires k in records
  {
    Group(Arrange(set id | id in Ids(records) && SameGroup(records, k, id)),
          Arrange(set j | j in records && SameGroup(records, k, records[j].id)),
          UNKNOWN_IMPACT)
  }

  ghost function GroupSet(records: Records): set<Group> {
    set k | k in records :: GroupOf(records, k)
  }

  /** The text groups are ordered by: the identifiers with a NUL between them. */
  function JoinKey(ids: seq<string>): string {
    if ids == [] then "" else if |ids| == 1 then ids[0] else ids[0] + "\0" + JoinKey(ids[1..])
  }

  ghost predicate Ordered(groups: seq<Group>) {
    forall i, j :: 0 <= i < j < |groups| ==> !Less(JoinKey(groups[j].ids), JoinKey(groups[i].ids))
  }

  ghost predicate Distinct<T(!new)>(s: seq<T>) {
    forall i, j :: 0 <= i < j < |s| ==> s[i] != s[j]
  }

  /** A list of all the groups, each once, in order. */
  ghost predicate IsGrouping(records: Records, groups: seq<Group>) {
    && (forall g :: g in groups <==> g in GroupSet(records))
    && Distinct(groups)
    && Ordered(groups)
  }

  /** Two records share a group iff a chain of valid aliases links them. */
  lemma SharedIffLinked(records: Records, j: string, k: string)
    requires j in records && k in records
    ensures GroupOf(records, j) == GroupOf(records, k) <==> SameGroup(records, j, records[k].id)
    ensures k in GroupOf(records, j).recordKeys <==> SameGroup(records, j, records[k].id)
  {
    var edges := AliasEdges(records);
    LinkedSelf(edges, records[k].id);
    assert records[k].id in Ids(records);
    if SameGroup(records, j, records[k].id) {
      forall id
        ensures SameGroup(records, j, id) <==> SameGroup(records, k, id)
      {
        SameComponent(edges, records[j].id, records[k].id, id);
      }
      assert (set id | id in Ids(records) && SameGroup(records, j, id)) == (set id | id in Ids(records) && SameGroup(records, k, id));
      assert (set i | i in records && SameGroup(records, j, records[i].id)) == (set i | i in records && SameGroup(records, k, records[i].id));
    } else {
      assert k in GroupOf(records, k).recordKeys && k !in GroupOf(records, j).recordKeys;
    }
  }

  lemma SameComponent(edges: Edges, x: string, y: string, z: string)
    requires Linked(edges, x, y)
    ensures Linked(edges, x, z) <==> Linked(edges, y, z)
  {
    LinkedBack(edges, x, y);
    if Linked(edges, x, z) {
      LinkedJoin(edges, y, x, z);
    }
    if Linked(edges, y, z) {
      LinkedJoin(edges, x, y, z);
    }
  }

  /** Every record key lies in exactly one group. */
  lemma KeyInOneGroup(records: Records, k: string) returns (g: Group)
    requires k in records
    ensures g in GroupSet(records) && k in g.recordKeys
    ensures forall h :: h in GroupSet(records) && k in h.recordKeys ==> h == g
  {
    g := GroupOf(records, k);
    LinkedSelf(AliasEdges(records), records[k].id);
    SharedIffLinked(records, k, k);
    forall h | h in GroupSet(records) && k in h.recordKeys
      ensures h == g
    {
      var j :| j in records && h == GroupOf(records, j);
      SharedIffLinked(records, j, k);
    }
  }

  /** Every identifier lies in exactly one group. */
  lemma IdInOneGroup(records: Records, id: string) returns (g: Group)
    requires id in Ids(records)
    ensures g in GroupSet(records) && id in g.ids
    ensures forall h :: h in GroupSet(records) && id in h.ids ==> h == g
  {
    var k := OwnerOf(records, id);
    g := GroupOf(records, k);
    forall h | h in GroupSet(records) && id in h.ids
      ensures h == g
    {
      var j :| j in records && h == GroupOf(records, j);
      SharedById(records, j, k, id);
    }
  }

  lemma SharedById(records: Records, j: string, k: string, id: string)
    requires j in records && k in records && SameGroup(records, j, id) && SameGroup(records, k, id)
    ensures GroupOf(records, j) == GroupOf(records, k)
  {
    LinkedBack(AliasEdges(records), records[k].id, id);
    LinkedJoin(AliasEdges(records), records[j].id, id, records[k].id);
    SharedIffLinked(records, j, k);
  }

  /** A record whose own links reach the identifier. */
  lemma OwnerOf(records: Records, id: string) returns (k: string)
    requires id in Ids(records)
    ensures k in records && SameGroup(records, k, id)
  {
    if j :| j in records && records[j].id == id {
      k := j;
      LinkedSelf(AliasEdges(records), id);
    } else {
      k :| k in records && id in records[k].aliases && ValidText(id);
      assert Edge(records[k].id, id) in AliasEdges(records);
      LinkedEdge(AliasEdges(records), records[k].id, id);
    }
  }

  // ---------- groupRecords ----------

  /** The edges after the aliases of one identifier were linked, one by one. */
  ghost function WithLinks(edges: Edges, id: string, aliases: seq<string>): (r: Edges)
    ensures forall e :: e in r <==> e in edges || (e.id == id && e.alias in aliases && ValidText(e.alias))
  {
    if aliases == [] then edges
    else
      var last := |aliases| - 1;
      assert aliases == aliases[..last] + [aliases[last]];
      var before := WithLinks(edges, id, aliases[..last]);
      if ValidText(aliases[last]) then before + {Edge(id, aliases[last])} else before
  }

  ghost function WithAliases(ids: set<string>, aliases: seq<string>): (r: set<string>)
    ensures forall x :: x in r <==> x in ids || (x in aliases && ValidText(x))
  {
    if aliases == [] then ids
    else
      var last := |aliases| - 1;
      assert aliases == aliases[..last] + [aliases[last]];
      var before := WithAliases(ids, aliases[..last]);
      if ValidText(aliases[last]) then before + {aliases[last]} else before
  }

  lemma WithLinksStep(edges: Edges, id: string, aliases: seq<string>, i: nat)
    requires i < |aliases|
    ensures
      var before := WithLinks(edges, id, aliases[..i]);
      WithLinks(edges, id, aliases[..i + 1]) == if ValidText(aliases[i]) then before + {Edge(id, aliases[i])} else before
  {
  }

  lemma WithAliasesStep(ids: set<string>, aliases: seq<string>, i: nat)
    requires i < |aliases|
    ensures
      var before := WithAliases(ids, aliases[..i]);
      WithAliases(ids, aliases[..i + 1]) == if ValidText(aliases[i]) then before + {aliases[i]} else before
  {
  }

  ghost function EdgesOf(records: Records, keys: seq<string>): Edges
    requires forall k :: k in keys ==> k in records
  {
    if keys == [] then {}
    else
      var last := |keys| - 1;
      WithLinks(EdgesOf(records, keys[..last]), records[keys[last]].id, records[keys[last]].aliases)
  }

  ghost function IdsOf(records: Records, keys: seq<string>): set<string>
    requires forall k :: k in keys ==> k in records
  {
    if keys == [] then {}
    else
      var last := |keys| - 1;
      WithAliases(IdsOf(records, keys[..last]) + {records[keys[last]].id}, records[keys[last]].aliases)
  }

  ghost predicate Contributes(rec: SourceRecord, e: Edge) {
    e.id == rec.id && e.alias in rec.aliases && ValidText(e.alias)
  }

  ghost predicate Mentions(rec: SourceRecord, x: string) {
    x == rec.id || (x in rec.aliases && ValidText(x))
  }

  lemma {:induction false} EdgesOfAll(records: Records, keys: seq<string>, e: Edge)
    requires forall k :: k in keys ==> k in records
    ensures e in EdgesOf(records, keys) <==> exists k :: k in keys && Contributes(records[k], e)
  {
    if keys != [] {
      var last := |keys| - 1;
      EdgesOfAll(records, keys[..last], e);
      assert keys == keys[..last] + [keys[last]];
    }
  }

  lemma {:induction false} IdsOfAll(records: Records, keys: seq<string>, x: string)
    requires forall k :: k in keys ==> k in records
    ensures x in IdsOf(records, keys) <==> exists k :: k in keys && Mentions(records[k], x)
  {
    if keys != [] {
      var last := |keys| - 1;
      IdsOfAll(records, keys[..last], x);
      assert keys == keys[..last] + [keys[last]];
    }
  }

  lemma AllKeysAllEdges(records: Records, keys: seq<string>)
    requires forall k :: k in keys <==> k in records
    ensures EdgesOf(records, keys) == AliasEdges(records) && IdsOf(records, keys) == Ids(records)
  {
    forall e
      ensures e in EdgesOf(records, keys) <==> e in AliasEdges(records)
    {
      EdgesOfAll(records, keys, e);
      if e in AliasEdges(records) {
        var k, a :| k in records && a in records[k].aliases && ValidText(a) && e == Edge(records[k].id, a);
        assert k in keys && Contributes(records[k], e);
      }
    }
    forall x
      ensures x in IdsOf(records, keys) <==> x in Ids(records)
    {
      IdsOfAll(records, keys, x);
      if x in Ids(records) {
        var k :| k in records && Mentions(records[k], x);
        assert k in keys;
      }
    }
  }

  /** Enters one record: its identifier, and a link for each valid alias. */
  method LinkRecord(parent: UnionFind.Parents, rec: SourceRecord, ghost rank: UnionFind.Ranks, ghost edges: Edges)
    returns (next: UnionFind.Parents, ghost rank': UnionFind.Ranks)
    requires Represents(parent, rank, edges)
    ensures Represents(next, rank', WithLinks(edges, rec.id, rec.aliases))
    ensures next.Keys == WithAliases(parent.Keys + {rec.id}, rec.aliases)
  {
    var r;
    next, r, rank' := UnionFind.Find(parent, rec.id, rank);
    RepresentsGrown(parent, rank, next, rank', rec.id, edges);
    for i := 0 to |rec.aliases|
      invariant Represents(next, rank', WithLinks(edges, rec.id, rec.aliases[..i]))
      invariant next.Keys == WithAliases(parent.Keys + {rec.id}, rec.aliases[..i])
    {
      WithLinksStep(edges, rec.id, rec.aliases, i);
      WithAliasesStep(parent.Keys + {rec.id}, rec.aliases, i);
      if ValidText(rec.aliases[i]) {
        next, rank' := LinkAlias(next, rec.id, rec.aliases[i], rank', WithLinks(edges, rec.id, rec.aliases[..i]));
      }
    }
    assert rec.aliases[..|rec.aliases|] == rec.aliases;
  }

  method BuildForest(records: Records, keys: seq<string>) returns (parent: UnionFind.Parents, ghost rank: UnionFind.Ranks)
    requires forall k :: k in keys ==> k in records
    ensures Represents(parent, rank, EdgesOf(records, keys))
    ensures parent.Keys == IdsOf(records, keys)
  {
    parent, rank := map[], map[];
    for i := 0 to |keys|
      invariant Represents(parent, rank, EdgesOf(records, keys[..i]))
      invariant parent.Keys == IdsOf(records, keys[..i])
    {
      parent, rank := LinkRecord(parent, records[keys[i]], rank, EdgesOf(records, keys[..i]));
      assert keys[..i + 1][..i] == keys[..i];
    }
    assert keys[..|keys|] == keys;
  }

  /** The root of every identifier, as a plain map: what path compression leaves alone. */
  ghost predicate IsHome(parent: UnionFind.Parents, rank: UnionFind.Ranks, home: map<string, string>) {
    && UnionFind.Forest(parent, rank)
    && parent.Keys == home.Keys
    && forall x {:trigger UnionFind.Rep(parent, rank, x)} :: x in parent ==> UnionFind.Rep(parent, rank, x) == home[x]
  }

  /** home tells the components of the records apart. */
  ghost predicate Components(records: Records, home: map<string, string>) {
    && home.Keys == Ids(records)
    && forall x, y {:trigger home[x], home[y]} :: x in home && y in home ==>
         (home[x] == home[y] <==> Linked(AliasEdges(records), x, y))
  }

  lemma HomesAreComponents(records: Records, parent: UnionFind.Parents, rank: UnionFind.Ranks, home: map<string, string>)
    requires Represents(parent, rank, AliasEdges(records)) && parent.Keys == Ids(records)
    requires IsHome(parent, rank, home)
    ensures Components(records, home)
  {
    forall x, y | x in home && y in home
      ensures home[x] == home[y] <==> Linked(AliasEdges(records), x, y)
    {
      RepIsComponent(parent, rank, AliasEdges(records), x, y);
    }
  }

  ghost function IdsAt(home: map<string, string>, done: set<string>, r: string): set<string> {
    set id | id in done && id in home && home[id] == r
  }

  /** The keys, in their order, whose records live at r. */
  ghost function KeysAt(records: Records, home: map<string, string>, keys: seq<string>, r: string): (at: seq<string>)
    requires forall k :: k in keys ==> k in records && records[k].id in home
    ensures forall k :: k in at <==> k in keys && home[records[k].id] == r
  {
    if keys == [] then []
    else
      var last := |keys| - 1;
      assert keys == keys[..last] + [keys[last]];
      var before := KeysAt(records, home, keys[..last], r);
      if home[records[keys[last]].id] == r then before + [keys[last]] else before
  }

  lemma {:induction false} KeysAtAscending(records: Records, home: map<string, string>, keys: seq<string>, r: string)
    requires forall k :: k in keys ==> k in records && records[k].id in home
    requires Ascending(keys)
    ensures Ascending(KeysAt(records, home, keys, r))
  {
    if keys != [] {
      var last := |keys| - 1;
      KeysAtAscending(records, home, keys[..last], r);
      var before := KeysAt(records, home, keys[..last], r);
      forall i | 0 <= i < |before|
        ensures Less(before[i], keys[last])
      {
        assert before[i] in keys[..last];
        var j :| 0 <= j < last && keys[..last][j] == before[i];
        assert keys[j] == before[i];
      }
    }
  }

  /** What is collected at the root of a record is that record's group. */
  lemma HomeGroup(records: Records, home: map<string, string>, keys: seq<string>, k: string)
    requires Components(records, home) && keys == Arrange(records.Keys) && k in records
    requires forall j :: j in keys ==> j in records && records[j].id in home
    ensures
      var r := home[records[k].id];
      Group(Arrange(IdsAt(home, home.Keys, r)), KeysAt(records, home, keys, r), UNKNOWN_IMPACT) == GroupOf(records, k)
  {
    var r := home[records[k].id];
    assert IdsAt(home, home.Keys, r) == set id | id in Ids(records) && SameGroup(records, k, id) by {
      forall id
        ensures id in IdsAt(home, home.Keys, r) <==> id in Ids(records) && SameGroup(records, k, id)
      {
        assert id in home ==> (home[records[k].id] == home[id] <==> Linked(AliasEdges(records), records[k].id, id));
      }
    }
    var at := KeysAt(records, home, keys, r);
    KeysAtAscending(records, home, keys, r);
    forall j
      ensures j in at <==> j in (set i | i in records && SameGroup(records, k, records[i].id))
    {
      if j in records {
        assert home[records[k].id] == home[records[j].id] <==> Linked(AliasEdges(records), records[k].id, records[j].id);
      }
    }
    ArrangeIs(at, set i | i in records && SameGroup(records, k, records[i].id));
  }

  lemma KeysHaveHomes(records: Records, keys: seq<string>)
    requires keys == Arrange(records.Keys)
    ensures forall k :: k in keys ==> k in records && records[k].id in Ids(records)
  {
  }

  /** Second walk over the records: their keys, collected under their roots. */
  method CollectKeys(records: Records, keys: seq<string>, parent: UnionFind.Parents, ghost rank: UnionFind.Ranks, ghost home: map<string, string>)
    returns (next: UnionFind.Parents, keysOf: map<string, seq<string>>)
    requires IsHome(parent, rank, home)
    requires forall k :: k in keys ==> k in records && records[k].id in home
    ensures IsHome(next, rank, home)
    ensures forall r :: r in keysOf <==> KeysAt(records, home, keys, r) != []
    ensures forall r :: r in keysOf ==> keysOf[r] == KeysAt(records, home, keys, r)
  {
    next, keysOf := parent, map[];
    for i := 0 to |keys|
      invariant IsHome(next, rank, home)
      invariant forall r :: r in keysOf <==> KeysAt(records, home, keys[..i], r) != []
      invariant forall r :: r in keysOf ==> keysOf[r] == KeysAt(records, home, keys[..i], r)
    {
      assert keys[..i + 1][..i] == keys[..i];
      var rt;
      next, rt := UnionFind.Root(next, records[keys[i]].id, rank);
      keysOf := keysOf[rt := (if rt in keysOf then keysOf[rt] else []) + [keys[i]]];
    }
    assert keys[..|keys|] == keys;
  }

  /** Walk over the forest, in any order: identifiers collected under their roots. */
  method CollectIds(parent: UnionFind.Parents, roots: set<string>, ghost rank: UnionFind.Ranks, ghost home: map<string, string>)
    returns (idsOf: map<string, set<string>>)
    requires IsHome(parent, rank, home)
    ensures idsOf.Keys == roots
    ensures forall r :: r in roots ==> idsOf[r] == IdsAt(home, home.Keys, r)
  {
    idsOf := map r | r in roots :: {};
    var left, p := parent.Keys, parent;
    while left != {}
      invariant left <= home.Keys && IsHome(p, rank, home) && idsOf.Keys == roots
      invariant forall r :: r in roots ==> idsOf[r] == IdsAt(home, home.Keys - left, r)
      decreases left
    {
      var id :| id in left;
      var rt;
      p, rt := UnionFind.Root(p, id, rank);
      if rt in roots {
        idsOf := idsOf[rt := idsOf[rt] + {id}];
      }
      left := left - {id};
    }
    assert home.Keys - left == home.Keys;
  }

  /** Inserting a group in the order of the joined identifiers. */
  function InsertGroup(groups: seq<Group>, g: Group): (r: seq<Group>)
    ensures |r| == |groups| + 1
    ensures forall h :: h in r <==> h == g || h in groups
  {
    if groups == [] then [g]
    else if Less(JoinKey(g.ids), JoinKey(groups[0].ids)) then [g] + groups
    else
      var r := InsertGroup(groups[1..], g);
      assert groups == [groups[0]] + groups[1..];
      [groups[0]] + r
  }

  lemma {:induction false} InsertGroupOrdered(groups: seq<Group>, g: Group)
    requires Ordered(groups)
    ensures Ordered(InsertGroup(groups, g))
  {
    if groups != [] {
      var first := groups[0];
      if Less(JoinKey(g.ids), JoinKey(first.ids)) {
        forall i | 0 <= i < |groups|
          ensures !Less(JoinKey(groups[i].ids), JoinKey(g.ids))
        {
          if Less(JoinKey(groups[i].ids), JoinKey(g.ids)) {
            LessTransitive(JoinKey(groups[i].ids), JoinKey(g.ids), JoinKey(first.ids));
            LessIrreflexive(JoinKey(first.ids));
          }
        }
      } else {
        InsertGroupOrdered(groups[1..], g);
        var r := InsertGroup(groups[1..], g);
        forall i | 0 <= i < |r|
          ensures !Less(JoinKey(r[i].ids), JoinKey(first.ids))
        {
          assert r[i] in r;
          if r[i] != g {
            var j :| 0 <= j < |groups[1..]| && groups[1..][j] == r[i];
            assert groups[j + 1] == r[i];
          }
        }
      }
    }
  }

  lemma {:induction false} InsertGroupDistinct(groups: seq<Group>, g: Group)
    requires Distinct(groups) && g !in groups
    ensures Distinct(InsertGroup(groups, g))
  {
    if groups != [] && !Less(JoinKey(g.ids), JoinKey(groups[0].ids)) {
      assert g !in groups[1..];
      InsertGroupDistinct(groups[1..], g);
      var r := InsertGroup(groups[1..], g);
      forall i | 0 <= i < |r|
        ensures r[i] != groups[0]
      {
        assert r[i] in r;
      }
    }
  }

  ghost function GroupAt(records: Records, home: map<string, string>, keys: seq<string>, r: string): Group
    requires forall k :: k in keys ==> k in records && records[k].id in home
  {
    Group(Arrange(IdsAt(home, home.Keys, r)), KeysAt(records, home, keys, r), UNKNOWN_IMPACT)
  }

  /** The collected groups, written out in order whatever order they are taken in. */
  method Emit(records: Records, keys: seq<string>, keysOf: map<string, seq<string>>, idsOf: map<string, set<string>>, ghost home: map<string, string>)
    returns (groups: seq<Group>)
    requires forall k :: k in keys ==> k in records && records[k].id in home
    requires keysOf.Keys == idsOf.Keys
    requires forall r :: r in keysOf ==> keysOf[r] == KeysAt(records, home, keys, r) && keysOf[r] != []
    requires forall r :: r in keysOf ==> idsOf[r] == IdsAt(home, home.Keys, r)
    ensures Ordered(groups) && Distinct(groups)
    ensures forall g :: g in groups <==> exists r :: r in keysOf && g == GroupAt(records, home, keys, r)
  {
    groups := [];
    var left := keysOf.Keys;
    while left != {}
      invariant left <= keysOf.Keys && Ordered(groups) && Distinct(groups)
      invariant forall g :: g in groups <==> exists r :: r in keysOf && r !in left && g == GroupAt(records, home, keys, r)
      decreases left
    {
      var rt :| rt in left;
      var ids := SortKeys(idsOf[rt]);
      var g := Group(ids, keysOf[rt], UNKNOWN_IMPACT);
      assert g == GroupAt(records, home, keys, rt);
      RootsApart(records, home, keys, rt, groups, keysOf.Keys - left);
      InsertGroupOrdered(groups, g);
      InsertGroupDistinct(groups, g);
      groups := InsertGroup(groups, g);
      left := left - {rt};
    }
  }

  /** Groups of different roots differ: they hold different keys. */
  lemma RootsApart(records: Records, home: map<string, string>, keys: seq<string>, rt: string, groups: seq<Group>, done: set<string>)
    requires forall k :: k in keys ==> k in records && records[k].id in home
    requires rt !in done && KeysAt(records, home, keys, rt) != []
    requires forall g :: g in groups ==> exists r :: r in done && g == GroupAt(records, home, keys, r)
    ensures GroupAt(records, home, keys, rt) !in groups
  {
    var k := KeysAt(records, home, keys, rt)[0];
    assert k in KeysAt(records, home, keys, rt);
    forall g | g in groups
      ensures g != GroupAt(records, home, keys, rt)
    {
      var r :| r in done && g == GroupAt(records, home, keys, r);
      assert k !in g.recordKeys;
    }
  }

  /** Alias groups: exactly the connected components, each once, in order of their identifiers. */
  method GroupRecords(records: Records) returns (groups: seq<Group>)
    ensures IsGrouping(records, groups)
  {
    var keys := SortKeys(records.Keys);
    KeysHaveHomes(records, keys);
    var parent;
    ghost var rank;
    parent, rank := BuildForest(records, keys);
    AllKeysAllEdges(records, keys);
    ghost var home := map x | x in parent :: UnionFind.Rep(parent, rank, x);
    HomesAreComponents(records, parent, rank, home);
    var keysOf;
    parent, keysOf := CollectKeys(records, keys, parent, rank, home);
    var idsOf := CollectIds(parent, keysOf.Keys, rank, home);
    groups := Emit(records, keys, keysOf, idsOf, home);
    EmittedIsGroupSet(records, keys, keysOf.Keys, home);
  }

  lemma EmittedIsGroupSet(records: Records, keys: seq<string>, roots: set<string>, home: map<string, string>)
    requires keys == Arrange(records.Keys) && Components(records, home)
    requires forall k :: k in keys ==> k in records && records[k].id in home
    requires forall r :: r in roots <==> KeysAt(records, home, keys, r) != []
    ensures forall g :: g in GroupSet(records) <==> exists r :: r in roots && g == GroupAt(records, home, keys, r)
  {
    forall g
      ensures g in GroupSet(records) <==> exists r :: r in roots && g == GroupAt(records, home, keys, r)
    {
      if g in GroupSet(records) {
        var k :| k in records && g == GroupOf(records, k);
        HomeGroup(records, home, keys, k);
        assert k in KeysAt(records, home, keys, home[records[k].id]);
        assert home[records[k].id] in roots;
      }
      if r :| r in roots && g == GroupAt(records, home, keys, r) {
        var k := KeysAt(records, home, keys, r)[0];
        assert k in KeysAt(records, home, keys, r);
        HomeGroup(records, home, keys, k);
      }
    }
  }
}
