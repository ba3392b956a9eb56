/** Byte order on strings, and the one ascending list of a set of strings.  Everything the
    repository sorts after collecting it in a map goes through here: however the map is walked,
    the list is the same. */
module Text {

  /** a comes before b in the order of sort.Strings. */
  predicate Less(a: string, b: string) {
    b != [] && (a == [] || a[0] < b[0] || (a[0] == b[0] && Less(a[1..], b[1..])))
  }

  lemma {:induction false} LessIrreflexive(a: string)
    ensures !Less(a, a)
  {
    if a != [] {
      LessIrreflexive(a[1..]);
    }
  }

  lemma {:induction false} LessTransitive(a: string, b: string, c: string)
    requires Less(a, b) && Less(b, c)
    ensures Less(a, c)
  {
    if a != [] && a[0] == b[0] == c[0] {
      LessTransitive(a[1..], b[1..], c[1..]);
    }
  }

  lemma {:induction false} LessTotal(a: string, b: string)
    ensures Less(a, b) || a == b || Less(b, a)
  {
    if a != [] && b != [] && a[0] == b[0] {
      LessTotal(a[1..], b[1..]);
      if a[1..] == b[1..] {
        assert a == [a[0]] + a[1..] == [b[0]] + b[1..] == b;
      }
    }
  }

  lemma {:induction false} LessAsymmetric(a: string, b: string)
    requires Less(a, b)
    ensures !Less(b, a)
  {
    if Less(b, a) {
      LessTransitive(a, b, a);
      LessIrreflexive(a);
    }
  }

  /** The order read off two texts side by side: they agree on their first k characters, and then a is
      at its end or has the smaller character. */
  ghost predicate Diverges(a: string, b: string, k: nat) {
    k <= |a| && k < |b| && a[..k] == b[..k] && (k == |a| || a[k] < b[k])
  }

  lemma {:induction false} LessIff(a: string, b: string)
    ensures Less(a, b) <==> exists k: nat :: Diverges(a, b, k)
  {
    if a == [] || b == [] {
      if b != [] {
        assert Diverges(a, b, 0);
      }
    } else {
      LessIff(a[1..], b[1..]);
      if a[0] < b[0] {
        assert Diverges(a, b, 0);
      }
      if a[0] == b[0] && Less(a[1..], b[1..]) {
        var k: nat :| Diverges(a[1..], b[1..], k);
        assert a[..k + 1] == [a[0]] + a[1..][..k] && b[..k + 1] == [b[0]] + b[1..][..k];
        assert Diverges(a, b, k + 1);
      }
      if k: nat :| Diverges(a, b, k) {
        if k > 0 {
          assert a[..k][0] == a[0] && b[..k][0] == b[0];
          assert a[1..][..k - 1] == a[..k][1..] && b[1..][..k - 1] == b[..k][1..];
          assert Diverges(a[1..], b[1..], k - 1);
        }
      }
    }
  }

  /** Strictly increasing: sorted and without duplicates. */
  ghost predicate Ascending(s: seq<string>) {
    forall i, j :: 0 <= i < j < |s| ==> Less(s[i], s[j])
  }

  ghost function Elements<T>(s: seq<T>): set<T> {
    set x | x in s
  }

  lemma BothEmpty(a: seq<string>, b: seq<string>)
    requires forall x :: x in a <==> x in b
    ensures b == [] ==> a == []
  {
    if a != [] {
      assert a[0] in b;
    }
  }

  /** An ascending list is determined by its elements. */
  lemma {:induction false} AscendingUnique(a: seq<string>, b: seq<string>)
    requires Ascending(a) && Ascending(b)
    requires forall x :: x in a <==> x in b
    ensures a == b
  {
    BothEmpty(a, b);
    BothEmpty(b, a);
    if a != [] {
      SameHead(a, b);
      SameTail(a, b);
      AscendingUnique(a[1..], b[1..]);
      assert a == [a[0]] + a[1..] && b == [b[0]] + b[1..];
    }
  }

  lemma SameHead(a: seq<string>, b: seq<string>)
    requires Ascending(a) && Ascending(b) && a != [] && b != []
    requires forall x :: x in a <==> x in b
    ensures a[0] == b[0]
  {
    if a[0] != b[0] {
      assert a[0] in a && b[0] in b;
      var i :| 0 <= i < |b| && b[i] == a[0];
      var j :| 0 <= j < |a| && a[j] == b[0];
      assert Less(b[0], a[0]) && Less(a[0], b[0]);
      LessAsymmetric(a[0], b[0]);
    }
  }

  lemma SameTail(a: seq<string>, b: seq<string>)
    requires Ascending(a) && Ascending(b) && a != [] && b != [] && a[0] == b[0]
    requires forall x :: x in a <==> x in b
    ensures forall x :: x in a[1..] <==> x in b[1..]
  {
    HeadNotInTail(a);
    HeadNotInTail(b);
    forall x
      ensures x in a[1..] <==> x in b[1..]
    {
      TailMembers(a, x);
      TailMembers(b, x);
    }
  }

  lemma TailMembers(a: seq<string>, x: string)
    requires a != []
    ensures x in a <==> x == a[0] || x in a[1..]
  {
  }

  lemma HeadNotInTail(a: seq<string>)
    requires Ascending(a) && a != []
    ensures a[0] !in a[1..]
  {
    if a[0] in a[1..] {
      var i :| 0 <= i < |a[1..]| && a[1..][i] == a[0];
      assert Less(a[0], a[i + 1]);
      LessIrreflexive(a[0]);
    }
  }

  lemma AscendingDistinct(a: seq<string>)
    requires Ascending(a)
    ensures forall i, j :: 0 <= i < j < |a| ==> a[i] != a[j]
  {
    forall i, j | 0 <= i < j < |a|
      ensures a[i] != a[j]
    {
      LessIrreflexive(a[i]);
    }
  }

  /** Puts v in its place, once. */
  function Insert(s: seq<string>, v: string): (r: seq<string>)
    ensures forall x :: x in r <==> x == v || x in s
  {
    if s == [] then [v]
    else if s[0] == v then s
    else if Less(v, s[0]) then [v] + s
    else
      var r := Insert(s[1..], v);
      assert s == [s[0]] + s[1..];
      [s[0]] + r
  }

  lemma {:induction false} InsertAscending(s: seq<string>, v: string)
    requires Ascending(s)
    ensures Ascending(Insert(s, v))
  {
    if s == [] || s[0] == v {
    } else if Less(v, s[0]) {
      forall i | 0 < i < |s| ensures Less(v, s[i]) {
        LessTransitive(v, s[0], s[i]);
      }
    } else {
      LessTotal(v, s[0]);
      InsertAscending(s[1..], v);
      var r := Insert(s[1..], v);
      forall i | 0 <= i < |r| ensures Less(s[0], r[i]) {
        assert r[i] in r;
        if r[i] != v {
          var j :| 0 <= j < |s[1..]| && s[1..][j] == r[i];
          assert s[j + 1] == r[i];
        }
      }
    }
  }

  /** The ascending list of a set of strings. */
  ghost function Arrange(s: set<string>): (r: seq<string>)
    ensures Ascending(r)
    ensures forall x :: x in r <==> x in s
  {
    if s == {} then []
    else
      var v :| v in s;
      var r := Arrange(s - {v});
      InsertAscending(r, v);
      Insert(r, v)
  }

  lemma {:induction false} AscendingSize(r: seq<string>)
    requires Ascending(r)
    ensures |Elements(r)| == |r|
  {
    if r != [] {
      AscendingSize(r[1..]);
      HeadNotInTail(r);
      assert Elements(r) == Elements(r[1..]) + {r[0]} by {
        forall x
          ensures x in Elements(r) <==> x in Elements(r[1..]) + {r[0]}
        {
          TailMembers(r, x);
        }
      }
    }
  }

  lemma ArrangeSize(s: set<string>)
    ensures |Arrange(s)| == |s|
  {
    AscendingSize(Arrange(s));
    assert Elements(Arrange(s)) == s;
  }

  lemma ArrangeIs(r: seq<string>, s: set<string>)
    requires Ascending(r) && forall x :: x in r <==> x in s
    ensures r == Arrange(s)
  {
    AscendingUnique(r, Arrange(s));
  }

  /** Sorting the keys of a map: the keys come out in any order, the list does not depend on it. */
  method SortKeys(keys: set<string>) returns (r: seq<string>)
    ensures r == Arrange(keys)
  {
    r := [];
    var left := keys;
    while left != {}
      invariant left <= keys && Ascending(r)
      invariant forall x :: x in r <==> x in keys - left
      decreases left
    {
      var v :| v in left;
      InsertAscending(r, v);
      r := Insert(r, v);
      left := left - {v};
    }
    ArrangeIs(r, keys);
  }

  // ---------- records sorted by a text ----------

  ghost predicate AscendingBy<T(!new)>(key: T -> string, s: seq<T>) {
    forall i, j :: 0 <= i < j < |s| ==> Less(key(s[i]), key(s[j]))
  }

  ghost function KeysBy<T>(key: T -> string, s: seq<T>): (keys: seq<string>)
    ensures |keys| == |s| && forall i :: 0 <= i < |s| ==> keys[i] == key(s[i])
  {
    seq(|s|, i requires 0 <= i < |s| => key(s[i]))
  }

  /** A list ascending by a text is determined by its members. */
  lemma AscendingByUnique<T(!new)>(key: T -> string, a: seq<T>, b: seq<T>)
    requires AscendingBy(key, a) && AscendingBy(key, b)
    requires forall x :: x in a <==> x in b
    ensures a == b
  {
    KeyMembersBy(key, a, b);
    KeyMembersBy(key, b, a);
    AscendingUnique(KeysBy(key, a), KeysBy(key, b));
    forall i | 0 <= i < |a|
      ensures a[i] == b[i]
    {
      assert KeysBy(key, a)[i] == KeysBy(key, b)[i];
      SameKeySame(key, b, a[i], i);
    }
  }

  lemma KeyMembersBy<T(!new)>(key: T -> string, a: seq<T>, b: seq<T>)
    requires forall x :: x in a ==> x in b
    ensures forall k :: k in KeysBy(key, a) ==> k in KeysBy(key, b)
  {
    forall k | k in KeysBy(key, a)
      ensures k in KeysBy(key, b)
    {
      var i :| 0 <= i < |a| && KeysBy(key, a)[i] == k;
      assert a[i] in a;
      var j :| 0 <= j < |b| && b[j] == a[i];
      assert KeysBy(key, b)[j] == k;
    }
  }

  lemma SameKeySame<T(!new)>(key: T -> string, b: seq<T>, x: T, i: nat)
    requires AscendingBy(key, b) && x in b && i < |b| && key(b[i]) == key(x)
    ensures b[i] == x
  {
    var j :| 0 <= j < |b| && b[j] == x;
    LessIrreflexive(key(x));
  }

  function InsertBy<T(!new)>(key: T -> string, s: seq<T>, x: T): (r: seq<T>)
    ensures forall y :: y in r <==> y == x || y in s
  {
    if s == [] then [x]
    else if Less(key(x), key(s[0])) then [x] + s
    else
      var r := InsertBy(key, s[1..], x);
      assert s == [s[0]] + s[1..];
      [s[0]] + r
  }

  lemma {:induction false} InsertByAscending<T(!new)>(key: T -> string, s: seq<T>, x: T)
    requires AscendingBy(key, s)
    requires forall y :: y in s ==> key(y) != key(x)
    ensures AscendingBy(key, InsertBy(key, s, x))
  {
    if s == [] {
    } else if Less(key(x), key(s[0])) {
      forall i | 0 < i < |s|
        ensures Less(key(x), key(s[i]))
      {
        LessTransitive(key(x), key(s[0]), key(s[i]));
      }
    } else {
      assert s[0] in s;
      LessTotal(key(x), key(s[0]));
      assert forall y :: y in s[1..] ==> y in s;
      InsertByAscending(key, s[1..], x);
      var r := InsertBy(key, s[1..], x);
      forall i | 0 <= i < |r|
        ensures Less(key(s[0]), key(r[i]))
      {
        assert r[i] in r;
        if r[i] != x {
          var j :| 0 <= j < |s[1..]| && s[1..][j] == r[i];
          assert s[j + 1] == r[i];
        }
      }
    }
  }

  /** Sorting collected items, taken out of a map in any order, by a text that tells them apart. */
  method SortBy<T(==,!new)>(key: T -> string, items: set<T>) returns (r: seq<T>)
    requires forall x, y :: x in items && y in items && key(x) == key(y) ==> x == y
    ensures AscendingBy(key, r)
    ensures forall x :: x in r <==> x in items
  {
    r := [];
    var left := items;
    while left != {}
      invariant left <= items && AscendingBy(key, r)
      invariant forall x :: x in r <==> x in items && x !in left
      decreases left
    {
      var x :| x in left;
      InsertByAscending(key, r, x);
      r := InsertBy(key, r, x);
      left := left - {x};
    }
  }

  /** The distinct non-empty values. */
  ghost function NonEmpty(values: seq<string>): set<string> {
    set v | v in values && v != ""
  }

  /** Distinct non-empty values in order: `unique` and `sortedUnique`. */
  ghost function Uniq(values: seq<string>): seq<string> {
    Arrange(NonEmpty(values))
  }

  method Unique(values: seq<string>) returns (r: seq<string>)
    ensures r == Uniq(values)
  {
    var collected: set<string> := {};
    for i := 0 to |values|
      invariant collected == NonEmpty(values[..i])
    {
      assert values[..i + 1] == values[..i] + [values[i]];
      if values[i] != "" {
        collected := collected + {values[i]};
      }
    }
    assert values[..|values|] == values;
    r := SortKeys(collected);
  }
}
