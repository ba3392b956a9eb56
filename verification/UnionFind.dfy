/** Union-find with path compression, as `groupRecords` keeps it: a map from each identifier to
    its parent, roots pointing at themselves (src/reposcan/run.go). */
module UnionFind {

  type Parents = map<string, string>
  type Ranks = map<string, nat>

  /** One parent link: it stays inside the map, and the ghost rank falls along it. */
  ghost predicate Linked(p: Parents, rank: Ranks, s: string) {
    s in p ==> p[s] in p && s in rank && p[s] in rank && (p[s] != s ==> rank[p[s]] < rank[s])
  }

  /** Every link is in order, so following links ends at a root. */
  ghost predicate Forest(p: Parents, rank: Ranks) {
    && rank.Keys == p.Keys
    && forall s {:trigger Linked(p, rank, s)} :: Linked(p, rank, s)
  }

  /** The root of s. */
  ghost function Rep(p: Parents, rank: Ranks, s: string): (r: string)
    requires Forest(p, rank) && s in p
    ensures r in p && p[r] == r
    ensures r != s ==> rank[r] < rank[s]
    decreases rank[s]
  {
    assert Linked(p, rank, s);
    if p[s] == s then s else Rep(p, rank, p[s])
  }

  /** Pointing a node straight at its root changes no root. */
  lemma CompressionKeepsForest(p: Parents, rank: Ranks, s: string)
    requires Forest(p, rank) && s in p
    ensures Forest(p[s := Rep(p, rank, s)], rank)
  {
    var q := p[s := Rep(p, rank, s)];
    assert q.Keys == p.Keys;
    forall x
      ensures Linked(q, rank, x)
    {
      assert Linked(p, rank, x);
    }
  }

  lemma {:induction false} CompressionKeepsRep(p: Parents, rank: Ranks, s: string, x: string)
    requires Forest(p, rank) && s in p && x in p
    requires Forest(p[s := Rep(p, rank, s)], rank)
    ensures Rep(p[s := Rep(p, rank, s)], rank, x) == Rep(p, rank, x)
    decreases rank[x]
  {
    var r := Rep(p, rank, s);
    if x == s {
      if r != s {
        CompressionKeepsRep(p, rank, s, r);
      }
    } else if p[x] != x {
      assert Linked(p, rank, x);
      CompressionKeepsRep(p, rank, s, p[x]);
    }
  }

  /** The ranks after b's tree was hung under the root a: that whole tree is lifted above a. */
  ghost function Lifted(p: Parents, rank: Ranks, a: string, b: string): Ranks
    requires Forest(p, rank) && a in p
  {
    map s | s in p :: if Rep(p, rank, s) == b then rank[s] + rank[a] + 1 else rank[s]
  }

  lemma UnionKeepsForest(p: Parents, rank: Ranks, a: string, b: string)
    requires Forest(p, rank) && a in p && b in p && p[a] == a && p[b] == b && a != b
    ensures Forest(p[b := a], Lifted(p, rank, a, b))
  {
    var q, lifted := p[b := a], Lifted(p, rank, a, b);
    assert q.Keys == p.Keys;
    forall s
      ensures Linked(q, lifted, s)
    {
      assert Linked(p, rank, s);
      if s in p && s != b && p[s] != s {
        assert Rep(p, rank, s) == Rep(p, rank, p[s]);
      }
    }
  }

  /** A union renames exactly the root b to a. */
  lemma {:induction false} UnionReps(p: Parents, rank: Ranks, a: string, b: string, x: string)
    requires Forest(p, rank) && a in p && b in p && p[a] == a && p[b] == b && a != b && x in p
    requires Forest(p[b := a], Lifted(p, rank, a, b))
    ensures Rep(p[b := a], Lifted(p, rank, a, b), x) == if Rep(p, rank, x) == b then a else Rep(p, rank, x)
    decreases rank[x]
  {
    if x == b {
      assert Rep(p[b := a], Lifted(p, rank, a, b), a) == a;
    } else if p[x] != x {
      assert Linked(p, rank, x);
      UnionReps(p, rank, a, b, p[x]);
    }
  }

  /** q is p with the tree of b hung under a. */
  ghost predicate Renamed(p: Parents, rank: Ranks, q: Parents, rank': Ranks, a: string, b: string) {
    && Forest(p, rank) && Forest(q, rank')
    && q.Keys == p.Keys
    && forall x {:trigger Rep(q, rank', x)} :: x in p ==> Rep(q, rank', x) == if Rep(p, rank, x) == b then a else Rep(p, rank, x)
  }

  lemma UnionRenames(p: Parents, rank: Ranks, a: string, b: string)
    requires Forest(p, rank) && a in p && b in p && p[a] == a && p[b] == b && a != b
    ensures Renamed(p, rank, p[b := a], Lifted(p, rank, a, b), a, b)
  {
    UnionKeepsForest(p, rank, a, b);
    var q, rank' := p[b := a], Lifted(p, rank, a, b);
    assert q.Keys == p.Keys;
    forall x | x in p
      ensures Rep(q, rank', x) == if Rep(p, rank, x) == b then a else Rep(p, rank, x)
    {
      UnionReps(p, rank, a, b, x);
    }
  }

  /** A new identifier is a tree of its own. */
  lemma FreshKeepsForest(p: Parents, rank: Ranks, s: string)
    requires Forest(p, rank) && s !in p
    ensures Forest(p[s := s], rank[s := 0])
  {
    var q, grown := p[s := s], rank[s := 0];
    forall x
      ensures Linked(q, grown, x)
    {
      assert Linked(p, rank, x);
    }
  }

  lemma {:induction false} FreshReps(p: Parents, rank: Ranks, s: string, x: string)
    requires Forest(p, rank) && s !in p && x in p
    requires Forest(p[s := s], rank[s := 0])
    ensures Rep(p[s := s], rank[s := 0], x) == Rep(p, rank, x)
    decreases rank[x]
  {
    if p[x] != x {
      assert Linked(p, rank, x);
      FreshReps(p, rank, s, p[x]);
    }
  }

  /** Both forests have the same identifiers and the same roots. */
  ghost predicate SamePartition(p: Parents, rank: Ranks, q: Parents, rank': Ranks)
    requires Forest(p, rank) && Forest(q, rank')
  {
    && p.Keys == q.Keys
    && forall x {:trigger Rep(q, rank', x)} :: x in p ==> Rep(q, rank', x) == Rep(p, rank, x)
  }

  /** Finding the root of a known identifier: it terminates, and compression moves no root. */
  method Root(parent: Parents, s: string, ghost rank: Ranks) returns (next: Parents, r: string)
    requires Forest(parent, rank) && s in parent
    ensures Forest(next, rank) && SamePartition(parent, rank, next, rank)
    ensures r == Rep(parent, rank, s)
    decreases rank[s]
  {
    var p := parent[s];
    next, r := parent, s;
    if p != s {
      assert Linked(parent, rank, s);
      next, r := Root(parent, p, rank);
      CompressionKeepsForest(next, rank, s);
      forall x | x in next
        ensures Rep(next[s := r], rank, x) == Rep(next, rank, x)
      {
        CompressionKeepsRep(next, rank, s, x);
      }
      next := next[s := r];
    }
  }

  /** The same for an identifier that may be new. */
  method Find(parent: Parents, s: string, ghost rank: Ranks) returns (next: Parents, r: string, ghost rank': Ranks)
    requires Forest(parent, rank)
    ensures Forest(next, rank') && next.Keys == parent.Keys + {s}
    ensures forall x {:trigger Rep(next, rank', x)} :: x in parent ==> Rep(next, rank', x) == Rep(parent, rank, x)
    ensures r == Rep(next, rank', s)
    ensures s !in parent ==> r == s
  {
    if s !in parent {
      FreshKeepsForest(parent, rank, s);
      forall x | x in parent
        ensures Rep(parent[s := s], rank[s := 0], x) == Rep(parent, rank, x)
      {
        FreshReps(parent, rank, s, x);
      }
      return parent[s := s], s, rank[s := 0];
    }
    next, r := Root(parent, s, rank);
    rank' := rank;
  }

  /** Joining two trees at their roots. */
  method Join(parent: Parents, a: string, b: string, ghost rank: Ranks) returns (next: Parents, ghost rank': Ranks)
    requires Forest(parent, rank) && a in parent && b in parent && parent[a] == a && parent[b] == b && a != b
    ensures Renamed(parent, rank, next, rank', a, b)
  {
    UnionRenames(parent, rank, a, b);
    next := parent[b := a];
    rank' := Lifted(parent, rank, a, b);
  }
}
