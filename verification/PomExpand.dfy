module PomExpand {
  // Bounded expansion of Maven properties: `expand` (src/ecosystem/lockprofile/pom.go).  Depth, work and
  // size are limited and a property is never expanded inside itself; the result, when there is one, is
  // that of plain recursive substitution, and there is one exactly when substitution ends within the
  // limits.

  import opened ScanTypes
  import Strings

  const MAX_DEPTH := 32
  const MAX_STEPS := 256
  const MAX_SIZE := 65536

  type Properties = map<string, string>

  // ---------- the holes of a text ----------

  /** The first ${ of a text, or its length. */
  function FindOpen(s: string): (i: nat)
    ensures i <= |s| && (i < |s| ==> i + 1 < |s| && s[i] == '$' && s[i + 1] == '{')
  {
    if |s| < 2 then |s|
    else if s[0] == '$' && s[1] == '{' then 0
    else 1 + FindOpen(s[1..])
  }

  datatype Piece = Plain | Unclosed | Hole(before: string, key: string, rest: string)

  function NextHole(s: string): (p: Piece)
    ensures p.Hole? ==> |p.before| + |p.rest| < |s|
  {
    var start := FindOpen(s);
    if start == |s| then Plain
    else
      var tail := s[start + 2..];
      var end := Strings.Find(tail, '}');
      if end == |tail| then Unclosed else Hole(s[..start], tail[..end], tail[end + 1..])
  }

  /** A hole opens at the i-th character. */
  predicate OpensAt(s: string, i: nat) {
    i + 1 < |s| && s[i] == '$' && s[i + 1] == '{'
  }

  /** The first hole of a text, said without searching: the text is put together from what stands
      before it, its key and what follows; no hole opens earlier, and the key ends at the first }. */
  predicate FirstHole(s: string, before: string, key: string, rest: string) {
    && s == before + "${" + key + "}" + rest
    && (forall i :: 0 <= i < |before| ==> !OpensAt(s, i))
    && forall i :: 0 <= i < |key| ==> key[i] != '}'
  }

  lemma {:induction false} OpenIsFirst(s: string)
    ensures forall i :: 0 <= i < FindOpen(s) ==> !OpensAt(s, i)
    ensures FindOpen(s) < |s| ==> OpensAt(s, FindOpen(s))
  {
    if |s| >= 2 && !OpensAt(s, 0) {
      OpenIsFirst(s[1..]);
      forall i | 0 <= i < FindOpen(s)
        ensures !OpensAt(s, i)
      {
        if i > 0 {
          assert !OpensAt(s[1..], i - 1);
        }
      }
    }
  }

  lemma OpenAtIs(s: string, n: nat)
    requires OpensAt(s, n) && forall i :: 0 <= i < n ==> !OpensAt(s, i)
    ensures FindOpen(s) == n
  {
    OpenIsFirst(s);
  }

  /** The three pieces a text can start with, each told by the text alone. */
  lemma NextHoleIff(s: string, before: string, key: string, rest: string)
    ensures NextHole(s).Plain? <==> forall i: nat :: !OpensAt(s, i)
    ensures NextHole(s) == Hole(before, key, rest) <==> FirstHole(s, before, key, rest)
    ensures NextHole(s).Unclosed? <==>
      exists i: nat :: OpensAt(s, i) && (forall j :: 0 <= j < i ==> !OpensAt(s, j)) && forall k :: i + 2 <= k < |s| ==> s[k] != '}'
  {
    PlainIff(s);
    HoleIff(s, before, key, rest);
    UnclosedIff(s);
  }

  lemma PlainIff(s: string)
    ensures NextHole(s).Plain? <==> forall i: nat :: !OpensAt(s, i)
  {
    OpenIsFirst(s);
    if NextHole(s).Plain? {
      forall i: nat
        ensures !OpensAt(s, i)
      {
        if i >= |s| {
          assert !OpensAt(s, i);
        }
      }
    }
  }

  lemma HoleIff(s: string, before: string, key: string, rest: string)
    ensures NextHole(s) == Hole(before, key, rest) <==> FirstHole(s, before, key, rest)
  {
    hide FirstHole, NextHole;
    if NextHole(s) == Hole(before, key, rest) {
      HoleIsFirst(s);
    }
    if FirstHole(s, before, key, rest) {
      FirstIsHole(s, before, key, rest);
    }
  }

  lemma HoleIsFirst(s: string)
    requires NextHole(s).Hole?
    ensures FirstHole(s, NextHole(s).before, NextHole(s).key, NextHole(s).rest)
  {
    OpenIsFirst(s);
    var start := FindOpen(s);
    var tail := s[start + 2..];
    var end := Strings.Find(tail, '}');
    assert s == s[..start] + "${" + tail;
    assert tail == tail[..end] + "}" + tail[end + 1..];
    assert "${" + tail == "${" + tail[..end] + "}" + tail[end + 1..];
  }

  lemma FirstIsHole(s: string, before: string, key: string, rest: string)
    requires FirstHole(s, before, key, rest)
    ensures NextHole(s) == Hole(before, key, rest)
  {
    var n := |before|;
    assert s[n] == '$' && s[n + 1] == '{';
    OpenAtIs(s, n);
    var tail := s[n + 2..];
    assert tail == key + "}" + rest;
    assert s[..n] == before;
    Strings.FindIs(tail, '}', |key|);
    assert tail[..|key|] == key && tail[|key| + 1..] == rest;
  }

  lemma UnclosedIff(s: string)
    ensures NextHole(s).Unclosed? <==>
      exists i: nat :: OpensAt(s, i) && (forall j :: 0 <= j < i ==> !OpensAt(s, j)) && forall k :: i + 2 <= k < |s| ==> s[k] != '}'
  {
    OpenIsFirst(s);
    var start := FindOpen(s);
    if NextHole(s).Unclosed? {
      forall k | start + 2 <= k < |s|
        ensures s[k] != '}'
      {
        assert s[start + 2..][k - start - 2] == s[k];
      }
      assert OpensAt(s, start);
    }
    if i: nat :| OpensAt(s, i) && (forall j :: 0 <= j < i ==> !OpensAt(s, j)) && forall k :: i + 2 <= k < |s| ==> s[k] != '}' {
      OpenAtIs(s, i);
      Strings.FindIs(s[i + 2..], '}', |s| - i - 2);
    }
  }

  // ---------- plain substitution ----------

  /** A property that can be put in. */
  predicate Usable(props: Properties, key: string) {
    key in props && props[key] != ""
  }

  /** Every hole replaced by the substituted value of its property, nested at most d deep. */
  function Subst(props: Properties, s: string, d: nat): Option<string>
    decreases d, |s|
  {
    match NextHole(s)
    case Plain => Some(s)
    case Unclosed => None
    case Hole(before, key, rest) =>
      if !Usable(props, key) || d == 0 then None
      else
        var v, r := Subst(props, props[key], d - 1), Subst(props, rest, d);
        if v.None? || r.None? then None else Some(before + v.value + r.value)
  }

  lemma SubstHole(props: Properties, s: string, d: nat)
    requires NextHole(s).Hole?
    ensures
      var h := NextHole(s);
      if !Usable(props, h.key) || d == 0 then Subst(props, s, d).None?
      else
        && (Subst(props, s, d).Some? <==> Subst(props, props[h.key], d - 1).Some? && Subst(props, h.rest, d).Some?)
        && (Subst(props, s, d).Some? ==>
              Subst(props, s, d).value == h.before + Subst(props, props[h.key], d - 1).value + Subst(props, h.rest, d).value)
  {
  }

  lemma SubstFlat(props: Properties, s: string, d: nat)
    requires !NextHole(s).Hole?
    ensures Subst(props, s, d) == if NextHole(s).Plain? then Some(s) else None
  {
  }

  /** Substitution without a bound: it comes to out at some depth. */
  ghost predicate SubstitutesTo(props: Properties, s: string, out: string) {
    exists d: nat :: Subst(props, s, d) == Some(out)
  }

  /** More depth changes nothing once there is a result. */
  lemma {:induction false} DeeperSame(props: Properties, s: string, d: nat, e: nat)
    requires d <= e && Subst(props, s, d).Some?
    ensures Subst(props, s, e) == Subst(props, s, d)
    decreases d, |s|
  {
    hide Subst, NextHole;
    if NextHole(s).Hole? {
      var h := NextHole(s);
      SubstHole(props, s, d);
      SubstHole(props, s, e);
      RestIsShorter(s);
      DeeperSame(props, props[h.key], d - 1, e - 1);
      DeeperSame(props, h.rest, d, e);
    } else {
      SubstFlat(props, s, d);
      SubstFlat(props, s, e);
    }
  }

  lemma RestIsShorter(s: string)
    requires NextHole(s).Hole?
    ensures |NextHole(s).rest| < |s|
  {
  }

  /** So there is at most one result. */
  lemma SubstitutionUnique(props: Properties, s: string, a: string, b: string)
    requires SubstitutesTo(props, s, a) && SubstitutesTo(props, s, b)
    ensures a == b
  {
    var d: nat :| Subst(props, s, d) == Some(a);
    var e: nat :| Subst(props, s, e) == Some(b);
    if d <= e {
      DeeperSame(props, s, d, e);
    } else {
      DeeperSame(props, s, e, d);
    }
  }

  // ---------- a property inside itself ----------

  /** Whatever t comes to, s is part of it, j levels further down. */
  ghost predicate Involves(props: Properties, t: string, s: string, j: nat) {
    forall n: nat {:trigger Subst(props, t, n)} :: Subst(props, t, n).Some? ==> j <= n && Subst(props, s, n - j).Some?
  }

  /** A text that is part of itself never comes to anything. */
  lemma {:induction false} CyclesNeverEnd(props: Properties, t: string, j: nat, n: nat)
    requires Involves(props, t, t, j + 1)
    ensures Subst(props, t, n).None?
    decreases n
  {
    if Subst(props, t, n).Some? {
      CyclesNeverEnd(props, t, j, n - (j + 1));
    }
  }

  lemma InvolvesPart(props: Properties, t: string, s: string, j: nat)
    requires Involves(props, t, s, j) && NextHole(s).Hole?
    ensures Involves(props, t, NextHole(s).rest, j)
    ensures Usable(props, NextHole(s).key) ==> Involves(props, t, props[NextHole(s).key], j + 1)
  {
  }

  /** Every property being expanded involves the text at hand. */
  ghost predicate AllInvolve(props: Properties, active: set<string>, s: string) {
    forall k :: k in active ==> k in props && InvolvesSome(props, props[k], s)
  }

  ghost predicate InvolvesSome(props: Properties, t: string, s: string) {
    exists j: nat :: Involves(props, t, s, j)
  }

  lemma AllInvolvePart(props: Properties, active: set<string>, s: string)
    requires AllInvolve(props, active, s) && NextHole(s).Hole?
    ensures AllInvolve(props, active, NextHole(s).rest)
    ensures Usable(props, NextHole(s).key) ==> AllInvolve(props, active + {NextHole(s).key}, props[NextHole(s).key])
  {
    var key, rest := NextHole(s).key, NextHole(s).rest;
    forall k | k in active
      ensures InvolvesSome(props, props[k], rest)
      ensures Usable(props, key) ==> InvolvesSome(props, props[k], props[key])
    {
      var j: nat :| Involves(props, props[k], s, j);
      InvolvesPart(props, props[k], s, j);
      assert Involves(props, props[k], rest, j);
    }
    if Usable(props, key) {
      assert Involves(props, props[key], props[key], 0);
    }
  }

  /** Meeting a property that is being expanded means there is no result at any depth. */
  lemma {:induction false} ActiveMeansCycle(props: Properties, active: set<string>, s: string, n: nat)
    requires AllInvolve(props, active, s) && NextHole(s).Hole? && NextHole(s).key in active
    ensures Subst(props, s, n).None?
  {
    hide Involves, Subst, NextHole;
    var key := NextHole(s).key;
    if Usable(props, key) && n > 0 {
      var j: nat :| Involves(props, props[key], s, j);
      InvolvesPart(props, props[key], s, j);
      CyclesNeverEnd(props, props[key], j, n - 1);
    }
    HoleFails(props, s, n);
  }

  lemma HoleFails(props: Properties, s: string, n: nat)
    requires NextHole(s).Hole?
    requires Usable(props, NextHole(s).key) && n > 0 ==> Subst(props, props[NextHole(s).key], n - 1).None?
    ensures Subst(props, s, n).None?
  {
  }

  // ---------- work and size ----------

  /** How many values are resolved on the way to the result. */
  function Work(props: Properties, s: string, d: nat): nat
    decreases d, |s|
  {
    match NextHole(s)
    case Hole(_, key, rest) =>
      if !Usable(props, key) || d == 0 then 0
      else 1 + Work(props, props[key], d - 1) + Work(props, rest, d)
    case _ => 0
  }

  /** No value resolved on the way is too long. */
  predicate Short(props: Properties, s: string, d: nat)
    decreases d, |s|
  {
    match NextHole(s)
    case Hole(_, key, rest) =>
      Usable(props, key) && d > 0 ==> |props[key]| <= MAX_SIZE && Short(props, props[key], d - 1) && Short(props, rest, d)
    case _ => true
  }

  /** Substitution ends within what is left of the limits. */
  predicate Within(props: Properties, s: string, d: nat, steps: nat) {
    && Subst(props, s, d).Some?
    && |s| <= MAX_SIZE && Short(props, s, d)
    && steps + 1 + Work(props, s, d) <= MAX_STEPS
    && |Subst(props, s, d).value| <= MAX_SIZE
  }

  // ---------- the expansion ----------

  /** The output so far and the text still to read, against the whole text. */
  ghost predicate Halfway(props: Properties, s: string, d: nat, out: string, rest: string, from: nat, steps: nat) {
    && |s| <= MAX_SIZE && steps <= MAX_STEPS
    && (Subst(props, s, d).Some? <==> Subst(props, rest, d).Some?)
    && (Subst(props, s, d).Some? ==> Subst(props, s, d).value == out + Subst(props, rest, d).value)
    && (Short(props, s, d) <==> Short(props, rest, d))
    && steps + Work(props, rest, d) == from + 1 + Work(props, s, d)
  }

  lemma HalfwayDone(props: Properties, s: string, d: nat, out: string, rest: string, from: nat, steps: nat)
    requires Halfway(props, s, d, out, rest, from, steps) && NextHole(rest).Plain?
    ensures Subst(props, s, d) == Some(out + rest) && steps == from + 1 + Work(props, s, d)
    ensures Within(props, s, d, from) <==> |out + rest| <= MAX_SIZE
  {
  }

  /** What cannot be put in: an unclosed hole, or a property that is not usable. */
  lemma HalfwayStuck(props: Properties, s: string, d: nat, out: string, rest: string, from: nat, steps: nat)
    requires Halfway(props, s, d, out, rest, from, steps) && Subst(props, rest, d).None?
    ensures !Within(props, s, d, from)
  {
  }

  lemma {:induction false} StuckAt(props: Properties, active: set<string>, rest: string, d: nat)
    requires AllInvolve(props, active, rest)
    requires NextHole(rest).Unclosed? || (NextHole(rest).Hole? && (!Usable(props, NextHole(rest).key) || NextHole(rest).key in active))
    ensures Subst(props, rest, d).None?
  {
    if NextHole(rest).Hole? && NextHole(rest).key in active {
      ActiveMeansCycle(props, active, rest, d);
    }
  }

  /** The value of a hole, resolved with one level less. */
  ghost predicate Inner(props: Properties, value: string, d: nat, before: nat, v: Option<string>, after: nat) {
    if d == 0 then v.None?
    else
      && (v.Some? <==> Within(props, value, d - 1, before))
      && (v.Some? ==> v == Subst(props, value, d - 1) && after == before + 1 + Work(props, value, d - 1))
  }

  lemma HalfwayOn(props: Properties, s: string, d: nat, out: string, rest: string, from: nat, steps: nat, v: Option<string>, after: nat)
    requires Halfway(props, s, d, out, rest, from, steps) && NextHole(rest).Hole? && Usable(props, NextHole(rest).key)
    requires Inner(props, props[NextHole(rest).key], d, steps, v, after)
    ensures v.None? ==> !Within(props, s, d, from)
    ensures v.Some? ==>
      var more := out + NextHole(rest).before + v.value;
      && Halfway(props, s, d, more, NextHole(rest).rest, from, after)
      && (|more| > MAX_SIZE ==> !Within(props, s, d, from))
  {
    hide Subst, Work, Short, NextHole;
    var piece := NextHole(rest);
    SubstHole(props, rest, d);
    if d > 0 {
      CostsOfHole(props, rest, d);
    }
    if v.Some? && Subst(props, s, d).Some? {
      var more := out + piece.before + v.value;
      assert out + Subst(props, rest, d).value == more + Subst(props, piece.rest, d).value;
    }
  }

  lemma CostsOfHole(props: Properties, s: string, d: nat)
    requires NextHole(s).Hole? && Usable(props, NextHole(s).key) && d > 0
    ensures
      var h := NextHole(s);
      && Work(props, s, d) == 1 + Work(props, props[h.key], d - 1) + Work(props, h.rest, d)
      && (Short(props, s, d) <==> |props[h.key]| <= MAX_SIZE && Short(props, props[h.key], d - 1) && Short(props, h.rest, d))
  {
  }

  class Expansion {
    const props: Properties
    var steps: nat
    var active: set<string>

    constructor (props: Properties)
      ensures this.props == props && steps == 0 && active == {}
    {
      this.props, steps, active := props, 0, {};
    }

    /** resolve.  It fails exactly when the limits do not suffice; active is left as it was found. */
    method Resolve(s: string, depth: nat) returns (r: Option<string>)
      requires depth <= MAX_DEPTH + 1 && AllInvolve(props, active, s)
      modifies this
      ensures active == old(active) && steps > old(steps)
      ensures Inner(props, s, MAX_DEPTH + 1 - depth, old(steps), r, steps)
      decreases MAX_DEPTH + 1 - depth, 1
    {
      hide Within, AllInvolve, Subst;
      steps := steps + 1;
      if depth > MAX_DEPTH {
        return None;
      }
      if steps > MAX_STEPS || |s| > MAX_SIZE {
        TooMuchAlready(props, s, MAX_DEPTH - depth, steps - 1);
        return None;
      }
      r := Substitute(s, depth);
    }

    /** The loop of resolve: text up to a hole, the value of the hole, and so on. */
    method Substitute(s: string, depth: nat) returns (r: Option<string>)
      requires depth <= MAX_DEPTH && 1 <= steps <= MAX_STEPS && |s| <= MAX_SIZE && AllInvolve(props, active, s)
      modifies this
      ensures active == old(active) && steps >= old(steps)
      ensures Inner(props, s, MAX_DEPTH + 1 - depth, old(steps) - 1, r, steps)
      decreases MAX_DEPTH + 1 - depth, 0
    {
      hide Subst, Work, Within, Halfway, AllInvolve;
      ghost var d, from := MAX_DEPTH - depth, steps - 1;
      var out, rest := "", s;
      HalfwayStarts(props, s, d, from);
      while true
        invariant active == old(active) && AllInvolve(props, active, rest) && steps >= old(steps) && |out| <= MAX_SIZE
        invariant Halfway(props, s, d, out, rest, from, steps)
        decreases |rest|
      {
        var piece := NextHole(rest);
        if piece.Plain? {
          HalfwayDone(props, s, d, out, rest, from, steps);
          return if |out + rest| > MAX_SIZE then None else Some(out + rest);
        }
        if piece.Unclosed? || !Usable(props, piece.key) || piece.key in active {
          StuckAt(props, active, rest, d);
          HalfwayStuck(props, s, d, out, rest, from, steps);
          return None;
        }
        ghost var before := steps;
        var v := Value(piece.key, depth, rest);
        HalfwayOn(props, s, d, out, rest, from, before, v, steps);
        if v.None? {
          return None;
        }
        out := out + piece.before + v.value;
        if |out| > MAX_SIZE {
          return None;
        }
        rest := piece.rest;
      }
    }

    /** The value of a hole, resolved while its property is marked active. */
    method Value(key: string, depth: nat, ghost rest: string) returns (v: Option<string>)
      requires depth <= MAX_DEPTH && key !in active && Usable(props, key)
      requires NextHole(rest).Hole? && NextHole(rest).key == key && AllInvolve(props, active, rest)
      modifies this
      ensures active == old(active) && steps > old(steps)
      ensures Inner(props, props[key], MAX_DEPTH - depth, old(steps), v, steps)
      ensures AllInvolve(props, active, NextHole(rest).rest)
      decreases MAX_DEPTH - depth, 2
    {
      hide Inner, AllInvolve;
      AllInvolvePart(props, active, rest);
      active := active + {key};
      v := Resolve(props[key], depth + 1);
      active := active - {key};
      assert active == old(active);
    }
  }

  lemma HalfwayStarts(props: Properties, s: string, d: nat, from: nat)
    requires |s| <= MAX_SIZE && from + 1 <= MAX_STEPS
    ensures Halfway(props, s, d, "", s, from, from + 1)
  {
  }

  lemma TooMuchAlready(props: Properties, s: string, d: nat, steps: nat)
    requires steps + 1 > MAX_STEPS || |s| > MAX_SIZE
    ensures !Within(props, s, d, steps)
  {
  }

  // ---------- substitution as a derivation ----------

  /** How a text is filled in: it has no hole, or its first hole is replaced by the filled-in value of
      its property, and the rest is filled in. */
  datatype Filling = Ready | Fill(before: string, key: string, rest: string, value: string, after: string, inner: Filling, outer: Filling) {
    ghost predicate Derives(props: Properties, s: string, out: string) {
      match this
      case Ready => out == s && forall i: nat :: !OpensAt(s, i)
      case Fill(before, key, rest, value, after, inner, outer) =>
        && FirstHole(s, before, key, rest)
        && key in props && props[key] != "" && inner.Derives(props, props[key], value)
        && outer.Derives(props, rest, after)
        && out == before + value + after
    }

    /** How deep properties are nested in each other. */
    function Depth(): nat {
      match this
      case Ready => 0
      case Fill(_, _, _, _, _, inner, outer) => if inner.Depth() + 1 >= outer.Depth() then inner.Depth() + 1 else outer.Depth()
    }

    /** How many holes are filled in all. */
    function Holes(): nat {
      match this
      case Ready => 0
      case Fill(_, _, _, _, _, inner, outer) => 1 + inner.Holes() + outer.Holes()
    }

    /** No value that is filled in is longer than size. */
    predicate Fits(props: Properties, size: nat) {
      match this
      case Ready => true
      case Fill(_, key, _, _, _, inner, outer) =>
        key in props && |props[key]| <= size && inner.Fits(props, size) && outer.Fits(props, size)
    }
  }

  /** Substitution is filling in, and its depth, work and sizes are those of the filling. */
  lemma {:induction false} SubstIsFilling(props: Properties, s: string, d: nat) returns (t: Filling)
    requires Subst(props, s, d).Some?
    ensures t.Derives(props, s, Subst(props, s, d).value)
    ensures t.Depth() <= d && t.Holes() == Work(props, s, d) && (t.Fits(props, MAX_SIZE) <==> Short(props, s, d))
    decreases d, |s|
  {
    hide Subst, Work, Short, NextHole;
    if NextHole(s).Hole? {
      var h := NextHole(s);
      SubstHole(props, s, d);
      CostsOfHole(props, s, d);
      RestIsShorter(s);
      HoleIff(s, h.before, h.key, h.rest);
      var inner := SubstIsFilling(props, props[h.key], d - 1);
      var outer := SubstIsFilling(props, h.rest, d);
      t := Fill(h.before, h.key, h.rest, Subst(props, props[h.key], d - 1).value, Subst(props, h.rest, d).value, inner, outer);
    } else {
      SubstFlat(props, s, d);
      CostsFlat(props, s, d);
      PlainIff(s);
      t := Ready;
    }
  }

  lemma CostsFlat(props: Properties, s: string, d: nat)
    requires !NextHole(s).Hole?
    ensures Work(props, s, d) == 0 && Short(props, s, d)
  {
  }

  lemma {:induction false} FillingIsSubst(props: Properties, s: string, out: string, d: nat, t: Filling)
    requires t.Derives(props, s, out) && t.Depth() <= d
    ensures Subst(props, s, d) == Some(out)
    ensures t.Holes() == Work(props, s, d) && (t.Fits(props, MAX_SIZE) <==> Short(props, s, d))
    decreases t
  {
    hide Subst, Work, Short, NextHole;
    match t {
      case Ready =>
        PlainIff(s);
        SubstFlat(props, s, d);
        CostsFlat(props, s, d);
      case Fill(before, key, rest, value, after, inner, outer) =>
        HoleIff(s, before, key, rest);
        FillingIsSubst(props, props[key], value, d - 1, inner);
        FillingIsSubst(props, rest, after, d, outer);
        SubstHole(props, s, d);
        CostsOfHole(props, s, d);
    }
  }

  /** The text can be filled in with properties nested at most 32 deep, 255 holes and no text longer
      than 65536 on the way. */
  ghost predicate Expands(props: Properties, s: string, out: string) {
    && |s| <= 65536 && |out| <= 65536
    && exists t: Filling :: t.Derives(props, s, out) && t.Depth() <= 32 && t.Holes() < 256 && t.Fits(props, 65536)
  }

  lemma ExpandsIff(props: Properties, s: string, out: string)
    ensures Expands(props, s, out) <==> Within(props, s, MAX_DEPTH, 0) && Subst(props, s, MAX_DEPTH) == Some(out)
  {
    hide Subst, Work, Short, Filling.Derives, Filling.Depth, Filling.Holes, Filling.Fits;
    if Expands(props, s, out) {
      var t: Filling :| t.Derives(props, s, out) && t.Depth() <= 32 && t.Holes() < 256 && t.Fits(props, 65536);
      FillingIsSubst(props, s, out, MAX_DEPTH, t);
    }
    if Within(props, s, MAX_DEPTH, 0) && Subst(props, s, MAX_DEPTH) == Some(out) {
      var t := SubstIsFilling(props, s, MAX_DEPTH);
    }
  }

  /** The everyday case: one hole in a text, filled with a value that has none. */
  lemma OneHole(props: Properties, a: string, key: string, b: string)
    requires '$' !in a && '}' !in key && key in props && props[key] != ""
    requires (forall i: nat :: !OpensAt(props[key], i)) && forall i: nat :: !OpensAt(b, i)
    requires |a + "${" + key + "}" + b| <= 65536 && |props[key]| <= 65536 && |a + props[key] + b| <= 65536
    ensures Expands(props, a + "${" + key + "}" + b, a + props[key] + b)
  {
    var s := a + "${" + key + "}" + b;
    forall i | 0 <= i < |a|
      ensures !OpensAt(s, i)
    {
      assert s[i] == a[i];
    }
    assert Ready.Derives(props, props[key], props[key]) && Ready.Derives(props, b, b);
    var t := Fill(a, key, b, props[key], b, Ready, Ready);
    assert t.Derives(props, s, a + props[key] + b);
    assert t.Depth() == 1 && t.Holes() == 1 && t.Fits(props, 65536);
  }

  /** A text without holes stays as it is. */
  lemma NoHole(props: Properties, s: string)
    requires |s| <= 65536 && forall i: nat :: !OpensAt(s, i)
    ensures Expands(props, s, s)
  {
    assert Ready.Derives(props, s, s);
  }

  /** expand: plain substitution, whenever that ends within the limits, and nothing otherwise. */
  method Expand(s: string, props: Properties) returns (r: Option<string>)
    ensures r.Some? <==> Within(props, s, MAX_DEPTH, 0)
    ensures r.Some? ==> SubstitutesTo(props, s, r.value) && |r.value| <= MAX_SIZE
    ensures forall out :: r == Some(out) <==> Expands(props, s, out)
  {
    hide Expands;
    forall out
      ensures Expands(props, s, out) <==> Within(props, s, MAX_DEPTH, 0) && Subst(props, s, MAX_DEPTH) == Some(out)
    {
      ExpandsIff(props, s, out);
    }
    var e := new Expansion(props);
    r := e.Resolve(s, 0);
  }
}
