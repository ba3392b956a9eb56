/** The alias links of source records: chains of aliases, and the union-find partition that stands
    for them while `groupRecords` (src/reposcan/run.go) works. */
module AliasLinks {
  import opened ScanTypes
  import UnionFind

  datatype Edge = Edge(id: string, alias: string)
  type Edges = set<Edge>

  /** The alias links: identifier and alias of one record. */
  ghost function AliasEdges(records: Records): Edges {
    set k, a | k in records && a in records[k].aliases && ValidText(a) :: Edge(records[k].id, a)
  }

  /** Everything that is grouped: record identifiers and valid aliases. */
  ghost function Ids(records: Records): set<string> {
    (set k | k in records :: records[k].id) +
    (set k, a | k in records && a in records[k].aliases && ValidText(a) :: a)
  }

  // ---------- chains of aliases ----------

  ghost predicate Adjacent(edges: Edges, x: string, y: string) {
    x == y || Edge(x, y) in edges || Edge(y, x) in edges
  }

  /** Following `path` from x, one alias link at a time, ends at y. */
  ghost predicate Walk(edges: Edges, x: string, path: seq<string>, y: string)
    decreases |path|
  {
    if path == [] then x == y
    else Adjacent(edges, x, path[0]) && Walk(edges, path[0], path[1..], y)
  }

  /** A chain of valid aliases leads from x to y. */
  ghost predicate Linked(edges: Edges, x: string, y: string) {
    exists path :: Walk(edges, x, path, y)
  }

  lemma LinkedSelf(edges: Edges, x: string)
    ensures Linked(edges, x, x)
  {
    assert Walk(edges, x, [], x);
  }

  lemma LinkedEdge(edges: Edges, x: string, y: string)
    requires Adjacent(edges, x, y)
    ensures Linked(edges, x, y)
  {
    assert Walk(edges, y, [], y);
    assert Walk(edges, x, [y], y);
  }

  lemma {:induction false} WalkJoin(edges: Edges, x: string, p: seq<string>, y: string, q: seq<string>, z: string)
    requires Walk(edges, x, p, y) && Walk(edges, y, q, z)
    ensures Walk(edges, x, p + q, z)
    decreases |p|
  {
    if p == [] {
      assert p + q == q;
    } else {
      WalkJoin(edges, p[0], p[1..], y, q, z);
      assert (p + q)[1..] == p[1..] + q;
    }
  }

  lemma LinkedJoin(edges: Edges, x: string, y: string, z: string)
    requires Linked(edges, x, y) && Linked(edges, y, z)
    ensures Linked(edges, x, z)
  {
    var p :| Walk(edges, x, p, y);
    var q :| Walk(edges, y, q, z);
    WalkJoin(edges, x, p, y, q, z);
  }

  lemma {:induction false} WalkBack(edges: Edges, x: string, p: seq<string>, y: string)
    requires Walk(edges, x, p, y)
    ensures Linked(edges, y, x)
    decreases |p|
  {
    if p == [] {
      LinkedSelf(edges, x);
    } else {
      WalkBack(edges, p[0], p[1..], y);
      LinkedEdge(edges, p[0], x);
      LinkedJoin(edges, y, p[0], x);
    }
  }

  lemma LinkedBack(edges: Edges, x: string, y: string)
    requires Linked(edges, x, y)
    ensures Linked(edges, y, x)
  {
    var p :| Walk(edges, x, p, y);
    WalkBack(edges, x, p, y);
  }

  lemma {:induction false} WalkMore(edges: Edges, more: Edges, x: string, p: seq<string>, y: string)
    requires edges <= more && Walk(edges, x, p, y)
    ensures Walk(more, x, p, y)
    decreases |p|
  {
    if p != [] {
      WalkMore(edges, more, p[0], p[1..], y);
    }
  }

  lemma LinkedMore(edges: Edges, more: Edges, x: string, y: string)
    requires edges <= more && Linked(edges, x, y)
    ensures Linked(more, x, y)
  {
    var p :| Walk(edges, x, p, y);
    WalkMore(edges, more, x, p, y);
  }

  // ---------- the partition kept by union-find ----------

  ghost predicate Reaches(p: UnionFind.Parents, rank: UnionFind.Ranks, edges: Edges, x: string)
    requires UnionFind.Forest(p, rank)
  {
    x in p ==> Linked(edges, x, UnionFind.Rep(p, rank, x))
  }

  ghost predicate Covers(p: UnionFind.Parents, rank: UnionFind.Ranks, e: Edge)
    requires UnionFind.Forest(p, rank)
  {
    e.id in p && e.alias in p && UnionFind.Rep(p, rank, e.id) == UnionFind.Rep(p, rank, e.alias)
  }

  /** The forest represents exactly the components of the edges seen so far: every identifier is
      linked to its root, and both ends of every edge have the same root. */
  ghost predicate Represents(p: UnionFind.Parents, rank: UnionFind.Ranks, edges: Edges) {
    && UnionFind.Forest(p, rank)
    && (forall x {:trigger Reaches(p, rank, edges, x)} :: Reaches(p, rank, edges, x))
    && (forall e {:trigger Covers(p, rank, e)} :: e in edges ==> Covers(p, rank, e))
  }

  lemma {:induction false} WalkKeepsRep(p: UnionFind.Parents, rank: UnionFind.Ranks, edges: Edges, x: string, path: seq<string>, y: string)
    requires Represents(p, rank, edges) && Walk(edges, x, path, y) && x in p
    ensures y in p && UnionFind.Rep(p, rank, x) == UnionFind.Rep(p, rank, y)
    decreases |path|
  {
    if path != [] {
      var next := path[0];
      assert x == next || Covers(p, rank, Edge(x, next)) || Covers(p, rank, Edge(next, x));
      WalkKeepsRep(p, rank, edges, next, path[1..], y);
    }
  }

  /** Same root iff a chain of aliases links the two. */
  lemma RepIsComponent(p: UnionFind.Parents, rank: UnionFind.Ranks, edges: Edges, x: string, y: string)
    requires Represents(p, rank, edges) && x in p && y in p
    ensures UnionFind.Rep(p, rank, x) == UnionFind.Rep(p, rank, y) <==> Linked(edges, x, y)
  {
    if UnionFind.Rep(p, rank, x) == UnionFind.Rep(p, rank, y) {
      assert Reaches(p, rank, edges, x) && Reaches(p, rank, edges, y);
      LinkedBack(edges, y, UnionFind.Rep(p, rank, y));
      LinkedJoin(edges, x, UnionFind.Rep(p, rank, x), y);
    } else if Linked(edges, x, y) {
      var path :| Walk(edges, x, path, y);
      WalkKeepsRep(p, rank, edges, x, path, y);
    }
  }

  lemma RepresentsSame(p: UnionFind.Parents, rank: UnionFind.Ranks, q: UnionFind.Parents, rank': UnionFind.Ranks, edges: Edges)
    requires Represents(p, rank, edges) && UnionFind.Forest(q, rank') && UnionFind.SamePartition(p, rank, q, rank')
    ensures Represents(q, rank', edges)
  {
    forall x
      ensures Reaches(q, rank', edges, x)
    {
      assert Reaches(p, rank, edges, x);
    }
    forall e | e in edges
      ensures Covers(q, rank', e)
    {
      assert Covers(p, rank, e);
    }
  }

  lemma RepresentsGrown(p: UnionFind.Parents, rank: UnionFind.Ranks, q: UnionFind.Parents, rank': UnionFind.Ranks, s: string, edges: Edges)
    requires Represents(p, rank, edges) && UnionFind.Forest(q, rank') && q.Keys == p.Keys + {s}
    requires forall x {:trigger UnionFind.Rep(q, rank', x)} :: x in p ==> UnionFind.Rep(q, rank', x) == UnionFind.Rep(p, rank, x)
    requires s !in p ==> UnionFind.Rep(q, rank', s) == s
    ensures Represents(q, rank', edges)
  {
    LinkedSelf(edges, s);
    forall x
      ensures Reaches(q, rank', edges, x)
    {
      assert Reaches(p, rank, edges, x);
    }
    forall e | e in edges
      ensures Covers(q, rank', e)
    {
      assert Covers(p, rank, e);
    }
  }

  /** Joining the roots of both ends accounts for a new edge. */
  lemma RepresentsJoined(p: UnionFind.Parents, rank: UnionFind.Ranks, q: UnionFind.Parents, rank': UnionFind.Ranks,
                         edges: Edges, x: string, y: string)
    requires Represents(p, rank, edges) && x in p && y in p
    requires UnionFind.Renamed(p, rank, q, rank', UnionFind.Rep(p, rank, x), UnionFind.Rep(p, rank, y))
    ensures Represents(q, rank', edges + {Edge(x, y)})
  {
    var more := edges + {Edge(x, y)};
    forall z
      ensures Reaches(q, rank', more, z)
    {
      if z in q {
        assert Reaches(p, rank, edges, x) && Reaches(p, rank, edges, y) && Reaches(p, rank, edges, z);
        if UnionFind.Rep(p, rank, z) == UnionFind.Rep(p, rank, y) {
          LinkedAcross(edges, x, y, UnionFind.Rep(p, rank, x), UnionFind.Rep(p, rank, y), z);
        } else {
          LinkedMore(edges, more, z, UnionFind.Rep(p, rank, z));
        }
      }
    }
    forall e | e in more
      ensures Covers(q, rank', e)
    {
      if e != Edge(x, y) {
        assert Covers(p, rank, e);
      }
    }
  }

  lemma LinkedAcross(edges: Edges, x: string, y: string, a: string, b: string, z: string)
    requires Linked(edges, x, a) && Linked(edges, y, b) && Linked(edges, z, b)
    ensures Linked(edges + {Edge(x, y)}, z, a)
  {
    var more := edges + {Edge(x, y)};
    LinkedMore(edges, more, z, b);
    LinkedMore(edges, more, y, b);
    LinkedMore(edges, more, x, a);
    LinkedBack(more, y, b);
    LinkedEdge(more, y, x);
    LinkedJoin(more, z, b, y);
    LinkedJoin(more, z, y, x);
    LinkedJoin(more, z, x, a);
  }

  lemma RepresentsKnown(p: UnionFind.Parents, rank: UnionFind.Ranks, edges: Edges, x: string, y: string)
    requires Represents(p, rank, edges) && x in p && y in p
    requires UnionFind.Rep(p, rank, x) == UnionFind.Rep(p, rank, y)
    ensures Represents(p, rank, edges + {Edge(x, y)})
  {
    var more := edges + {Edge(x, y)};
    forall z
      ensures Reaches(p, rank, more, z)
    {
      if z in p {
        assert Reaches(p, rank, edges, z);
        LinkedMore(edges, more, z, UnionFind.Rep(p, rank, z));
      }
    }
    forall e | e in more
      ensures Covers(p, rank, e)
    {
      assert e in edges ==> Covers(p, rank, e);
    }
  }

  /** Links one alias to the identifier of its record. */
  method LinkAlias(parent: UnionFind.Parents, id: string, alias: string, ghost rank: UnionFind.Ranks, ghost edges: Edges)
    returns (next: UnionFind.Parents, ghost rank': UnionFind.Ranks)
    requires Represents(parent, rank, edges) && id in parent
    ensures Represents(next, rank', edges + {Edge(id, alias)})
    ensures next.Keys == parent.Keys + {alias}
  {
    var p1, a := UnionFind.Root(parent, id, rank);
    RepresentsSame(parent, rank, p1, rank, edges);
    var p2, b, rank2 := UnionFind.Find(p1, alias, rank);
    RepresentsGrown(p1, rank, p2, rank2, alias, edges);
    if a != b {
      RepRootIsRoot(p2, rank2, id, alias);
      next, rank' := UnionFind.Join(p2, a, b, rank2);
      RepresentsJoined(p2, rank2, next, rank', edges, id, alias);
    } else {
      next, rank' := p2, rank2;
      RepresentsKnown(p2, rank2, edges, id, alias);
    }
  }

  lemma RepRootIsRoot(p: UnionFind.Parents, rank: UnionFind.Ranks, x: string, y: string)
    requires UnionFind.Forest(p, rank) && x in p && y in p
    ensures p[UnionFind.Rep(p, rank, x)] == UnionFind.Rep(p, rank, x)
    ensures p[UnionFind.Rep(p, rank, y)] == UnionFind.Rep(p, rank, y)
  {
  }
}
