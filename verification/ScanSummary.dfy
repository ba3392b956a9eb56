/** Per-ecosystem summaries of a scan: `summarize` (src/reposcan/run.go).  The mapping of profiler
    names to canonical ecosystem names is a parameter. */
module ScanSummary {
  import opened ScanTypes
  import opened Text
  import opened ScanReport

  function CountComponents(canon: string -> string, cs: seq<Component>, e: string): nat {
    if cs == [] then 0
    else CountComponents(canon, cs[..|cs| - 1], e) + if canon(cs[|cs| - 1].ecosystem) == e then 1 else 0
  }

  function CountQueries(canon: string -> string, qs: seq<PackageResult>, e: string): nat {
    if qs == [] then 0
    else CountQueries(canon, qs[..|qs| - 1], e) + if canon(qs[|qs| - 1].query.ecosystem) == e then 1 else 0
  }

  function CountUnqueried(canon: string -> string, us: seq<Unqueried>, e: string): nat {
    if us == [] then 0
    else CountUnqueried(canon, us[..|us| - 1], e) + if canon(us[|us| - 1].component.ecosystem) == e then 1 else 0
  }

  ghost predicate AllComplete(canon: string -> string, qs: seq<PackageResult>, e: string) {
    forall i :: 0 <= i < |qs| && canon(qs[i].query.ecosystem) == e ==> qs[i].complete
  }

  /** The summary of one ecosystem: what was seen of it, and whether nothing of it is missing. */
  ghost function SummaryFor(canon: string -> string, e: string, base: bool, cs: seq<Component>, qs: seq<PackageResult>, us: seq<Unqueried>): Summary {
    Summary(e, CountComponents(canon, cs, e), CountQueries(canon, qs, e), CountUnqueried(canon, us, e),
            base && AllComplete(canon, qs, e) && CountUnqueried(canon, us, e) == 0)
  }

  ghost function Named(canon: string -> string, es: seq<string>, cs: seq<Component>, qs: seq<PackageResult>, us: seq<Unqueried>): set<string> {
    (set e | e in es :: canon(e)) + (set c | c in cs :: canon(c.ecosystem))
    + (set q | q in qs :: canon(q.query.ecosystem)) + (set u | u in us :: canon(u.component.ecosystem))
  }

  ghost function Base(profile: Profile, r: Report): bool {
    r.acquisition.AcquiredComplete? && profile.warnings == []
  }

  /** One summary for every ecosystem that occurs anywhere, in order. */
  ghost predicate IsSummary(canon: string -> string, profile: Profile, r: Report, list: seq<Summary>) {
    var names := Arrange(Named(canon, profile.ecosystems, profile.components, r.queries, r.unqueried));
    && |list| == |names|
    && forall i :: 0 <= i < |list| ==>
         list[i] == SummaryFor(canon, names[i], Base(profile, r), profile.components, r.queries, r.unqueried)
  }

  lemma SummaryUnique(canon: string -> string, profile: Profile, r: Report, a: seq<Summary>, b: seq<Summary>)
    requires IsSummary(canon, profile, r, a) && IsSummary(canon, profile, r, b)
    ensures a == b
  {
  }

  type Sums = map<string, Summary>

  ghost predicate Tally(canon: string -> string, sums: Sums, base: bool, es: seq<string>, cs: seq<Component>, qs: seq<PackageResult>, us: seq<Unqueried>) {
    && sums.Keys == Named(canon, es, cs, qs, us)
    && forall e :: e in sums ==> sums[e] == SummaryFor(canon, e, base, cs, qs, us)
  }

  /** The entry of an ecosystem, created on first use. */
  function Get(sums: Sums, base: bool, e: string): Summary {
    if e in sums then sums[e] else Summary(e, 0, 0, 0, base)
  }

  lemma {:induction false} AbsentComponents(canon: string -> string, cs: seq<Component>, e: string)
    ensures (forall c :: c in cs ==> canon(c.ecosystem) != e) ==> CountComponents(canon, cs, e) == 0
  {
    if cs != [] {
      AbsentComponents(canon, cs[..|cs| - 1], e);
      assert cs[|cs| - 1] in cs;
    }
  }

  lemma {:induction false} AbsentQueries(canon: string -> string, qs: seq<PackageResult>, e: string)
    ensures (forall q :: q in qs ==> canon(q.query.ecosystem) != e) ==> CountQueries(canon, qs, e) == 0 && AllComplete(canon, qs, e)
  {
    if qs != [] {
      AbsentQueries(canon, qs[..|qs| - 1], e);
      assert qs[|qs| - 1] in qs;
    }
  }

  lemma {:induction false} AbsentUnqueried(canon: string -> string, us: seq<Unqueried>, e: string)
    ensures (forall u :: u in us ==> canon(u.component.ecosystem) != e) ==> CountUnqueried(canon, us, e) == 0
  {
    if us != [] {
      AbsentUnqueried(canon, us[..|us| - 1], e);
      assert us[|us| - 1] in us;
    }
  }

  /** An ecosystem not met so far has the empty summary. */
  lemma GetIsSummary(canon: string -> string, sums: Sums, base: bool, es: seq<string>, cs: seq<Component>, qs: seq<PackageResult>, us: seq<Unqueried>, e: string)
    requires Tally(canon, sums, base, es, cs, qs, us)
    ensures Get(sums, base, e) == SummaryFor(canon, e, base, cs, qs, us)
  {
    if e !in sums {
      AbsentComponents(canon, cs, e);
      AbsentQueries(canon, qs, e);
      AbsentUnqueried(canon, us, e);
    }
  }

  /** Writing one entry accounts for one more item: its name, and the changed summary. */
  lemma TallyPut(canon: string -> string, sums: Sums, base: bool, es: seq<string>, cs: seq<Component>, qs: seq<PackageResult>, us: seq<Unqueried>,
                 es': seq<string>, cs': seq<Component>, qs': seq<PackageResult>, us': seq<Unqueried>, e: string, s: Summary)
    requires Tally(canon, sums, base, es, cs, qs, us)
    requires Named(canon, es', cs', qs', us') == Named(canon, es, cs, qs, us) + {e}
    requires s == SummaryFor(canon, e, base, cs', qs', us')
    requires forall f :: f != e ==> SummaryFor(canon, f, base, cs', qs', us') == SummaryFor(canon, f, base, cs, qs, us)
    ensures Tally(canon, sums[e := s], base, es', cs', qs', us')
  {
  }

  lemma NamedMore(canon: string -> string, es: seq<string>, cs: seq<Component>, c: Component)
    ensures Named(canon, es, cs + [c], [], []) == Named(canon, es, cs, [], []) + {canon(c.ecosystem)}
  {
  }

  lemma NamedMoreQueries(canon: string -> string, es: seq<string>, cs: seq<Component>, qs: seq<PackageResult>, q: PackageResult)
    ensures Named(canon, es, cs, qs + [q], []) == Named(canon, es, cs, qs, []) + {canon(q.query.ecosystem)}
  {
  }

  lemma NamedMoreUnqueried(canon: string -> string, es: seq<string>, cs: seq<Component>, qs: seq<PackageResult>, us: seq<Unqueried>, u: Unqueried)
    ensures Named(canon, es, cs, qs, us + [u]) == Named(canon, es, cs, qs, us) + {canon(u.component.ecosystem)}
  {
  }

  lemma TallyEcosystem(canon: string -> string, sums: Sums, base: bool, es: seq<string>, e: string)
    requires Tally(canon, sums, base, es, [], [], [])
    ensures Tally(canon, sums[canon(e) := Get(sums, base, canon(e))], base, es + [e], [], [], [])
  {
  }

  lemma TallyComponent(canon: string -> string, sums: Sums, base: bool, es: seq<string>, cs: seq<Component>, c: Component)
    requires Tally(canon, sums, base, es, cs, [], [])
    ensures
      var e := canon(c.ecosystem);
      var s := Get(sums, base, e);
      Tally(canon, sums[e := s.(components := s.components + 1)], base, es, cs + [c], [], [])
  {
    var e := canon(c.ecosystem);
    var s := Get(sums, base, e);
    GetIsSummary(canon, sums, base, es, cs, [], [], e);
    assert (cs + [c])[..|cs|] == cs;
    NamedMore(canon, es, cs, c);
    TallyPut(canon, sums, base, es, cs, [], [], es, cs + [c], [], [], e, s.(components := s.components + 1));
  }

  lemma TallyQuery(canon: string -> string, sums: Sums, base: bool, es: seq<string>, cs: seq<Component>, qs: seq<PackageResult>, q: PackageResult)
    requires Tally(canon, sums, base, es, cs, qs, [])
    ensures
      var e := canon(q.query.ecosystem);
      var s := Get(sums, base, e);
      Tally(canon, sums[e := s.(queries := s.queries + 1, complete := s.complete && q.complete)], base, es, cs, qs + [q], [])
  {
    var e := canon(q.query.ecosystem);
    var s := Get(sums, base, e);
    GetIsSummary(canon, sums, base, es, cs, qs, [], e);
    QuerySummary(canon, base, cs, qs, q, e);
    forall f | f != e
      ensures SummaryFor(canon, f, base, cs, qs + [q], []) == SummaryFor(canon, f, base, cs, qs, [])
    {
      QuerySummary(canon, base, cs, qs, q, f);
    }
    NamedMoreQueries(canon, es, cs, qs, q);
    TallyPut(canon, sums, base, es, cs, qs, [], es, cs, qs + [q], [], e,
             s.(queries := s.queries + 1, complete := s.complete && q.complete));
  }

  lemma QuerySummary(canon: string -> string, base: bool, cs: seq<Component>, qs: seq<PackageResult>, q: PackageResult, f: string)
    ensures
      var s := SummaryFor(canon, f, base, cs, qs, []);
      SummaryFor(canon, f, base, cs, qs + [q], []) ==
      if canon(q.query.ecosystem) == f then s.(queries := s.queries + 1, complete := s.complete && q.complete) else s
  {
  }

  lemma TallyUnqueried(canon: string -> string, sums: Sums, base: bool, es: seq<string>, cs: seq<Component>, qs: seq<PackageResult>, us: seq<Unqueried>, u: Unqueried)
    requires Tally(canon, sums, base, es, cs, qs, us)
    ensures
      var e := canon(u.component.ecosystem);
      var s := Get(sums, base, e);
      Tally(canon, sums[e := s.(unqueried := s.unqueried + 1, complete := false)], base, es, cs, qs, us + [u])
  {
    var e := canon(u.component.ecosystem);
    var s := Get(sums, base, e);
    GetIsSummary(canon, sums, base, es, cs, qs, us, e);
    assert (us + [u])[..|us|] == us;
    NamedMoreUnqueried(canon, es, cs, qs, us, u);
    TallyPut(canon, sums, base, es, cs, qs, us, es, cs, qs, us + [u], e, s.(unqueried := s.unqueried + 1, complete := false));
  }

  lemma Prefix<T>(s: seq<T>, i: nat)
    requires i < |s|
    ensures s[..i + 1] == s[..i] + [s[i]]
  {
  }

  method Summarize(canon: string -> string, profile: Profile, r: Report) returns (list: seq<Summary>)
    ensures IsSummary(canon, profile, r, list)
  {
    var base := r.acquisition.AcquiredComplete? && profile.warnings == [];
    var es, cs := profile.ecosystems, profile.components;
    var sums := TallyProfile(canon, es, cs, base);
    sums := TallyResults(canon, profile, r, base, sums);
    var names := SortKeys(sums.Keys);
    list := seq(|names|, i requires 0 <= i < |names| => sums[names[i]]);
  }

  method TallyProfile(canon: string -> string, es: seq<string>, cs: seq<Component>, base: bool) returns (sums: Sums)
    ensures Tally(canon, sums, base, es, cs, [], [])
  {
    sums := map[];
    for i := 0 to |es|
      invariant Tally(canon, sums, base, es[..i], [], [], [])
    {
      Prefix(es, i);
      TallyEcosystem(canon, sums, base, es[..i], es[i]);
      sums := sums[canon(es[i]) := Get(sums, base, canon(es[i]))];
    }
    assert es[..|es|] == es;
    for i := 0 to |cs|
      invariant Tally(canon, sums, base, es, cs[..i], [], [])
    {
      Prefix(cs, i);
      TallyComponent(canon, sums, base, es, cs[..i], cs[i]);
      var s := Get(sums, base, canon(cs[i].ecosystem));
      sums := sums[canon(cs[i].ecosystem) := s.(components := s.components + 1)];
    }
    assert cs[..|cs|] == cs;
  }

  method TallyResults(canon: string -> string, profile: Profile, r: Report, base: bool, before: Sums) returns (sums: Sums)
    requires Tally(canon, before, base, profile.ecosystems, profile.components, [], [])
    ensures Tally(canon, sums, base, profile.ecosystems, profile.components, r.queries, r.unqueried)
  {
    hide Tally, Get;
    var es, cs, qs, us := profile.ecosystems, profile.components, r.queries, r.unqueried;
    sums := before;
    for i := 0 to |qs|
      invariant Tally(canon, sums, base, es, cs, qs[..i], [])
    {
      Prefix(qs, i);
      TallyQuery(canon, sums, base, es, cs, qs[..i], qs[i]);
      var s := Get(sums, base, canon(qs[i].query.ecosystem));
      sums := sums[canon(qs[i].query.ecosystem) := s.(queries := s.queries + 1, complete := s.complete && qs[i].complete)];
    }
    assert qs[..|qs|] == qs;
    for i := 0 to |us|
      invariant Tally(canon, sums, base, es, cs, qs, us[..i])
    {
      Prefix(us, i);
      TallyUnqueried(canon, sums, base, es, cs, qs, us[..i], us[i]);
      var s := Get(sums, base, canon(us[i].component.ecosystem));
      sums := sums[canon(us[i].component.ecosystem) := s.(unqueried := s.unqueried + 1, complete := false)];
    }
    assert us[..|us|] == us;
  }

  // ---------- the summaries in plain terms ----------

  ghost function ComponentsOf(canon: string -> string, cs: seq<Component>, e: string): set<nat> {
    set i: nat | i < |cs| && canon(cs[i].ecosystem) == e
  }

  ghost function QueriesOfEcosystem(canon: string -> string, qs: seq<PackageResult>, e: string): set<nat> {
    set i: nat | i < |qs| && canon(qs[i].query.ecosystem) == e
  }

  ghost function UnqueriedOfEcosystem(canon: string -> string, us: seq<Unqueried>, e: string): set<nat> {
    set i: nat | i < |us| && canon(us[i].component.ecosystem) == e
  }

  lemma {:induction false} ComponentsCounted(canon: string -> string, cs: seq<Component>, e: string)
    ensures CountComponents(canon, cs, e) == |ComponentsOf(canon, cs, e)|
  {
    if cs != [] {
      var n := |cs| - 1;
      ComponentsCounted(canon, cs[..n], e);
      assert ComponentsOf(canon, cs, e) == ComponentsOf(canon, cs[..n], e) + if canon(cs[n].ecosystem) == e then {n} else {};
    }
  }

  lemma {:induction false} QueriesCounted(canon: string -> string, qs: seq<PackageResult>, e: string)
    ensures CountQueries(canon, qs, e) == |QueriesOfEcosystem(canon, qs, e)|
  {
    if qs != [] {
      var n := |qs| - 1;
      QueriesCounted(canon, qs[..n], e);
      assert QueriesOfEcosystem(canon, qs, e) == QueriesOfEcosystem(canon, qs[..n], e) + if canon(qs[n].query.ecosystem) == e then {n} else {};
    }
  }

  lemma {:induction false} UnqueriedCounted(canon: string -> string, us: seq<Unqueried>, e: string)
    ensures CountUnqueried(canon, us, e) == |UnqueriedOfEcosystem(canon, us, e)|
  {
    if us != [] {
      var n := |us| - 1;
      UnqueriedCounted(canon, us[..n], e);
      assert UnqueriedOfEcosystem(canon, us, e) == UnqueriedOfEcosystem(canon, us[..n], e) + if canon(us[n].component.ecosystem) == e then {n} else {};
    }
  }

  /** An ecosystem that the profile or the results name, under its canonical name. */
  ghost predicate Occurs(canon: string -> string, profile: Profile, r: Report, e: string) {
    || (exists x :: x in profile.ecosystems && canon(x) == e)
    || (exists c :: c in profile.components && canon(c.ecosystem) == e)
    || (exists q :: q in r.queries && canon(q.query.ecosystem) == e)
    || (exists u :: u in r.unqueried && canon(u.component.ecosystem) == e)
  }

  /** The summary of an ecosystem counts its components, queries and unqueried components; it is complete
      when the profile was acquired whole and without warnings, every query of the ecosystem is complete
      and none of its components was left out. */
  ghost predicate SumsUp(canon: string -> string, profile: Profile, r: Report, s: Summary) {
    && s.components == |ComponentsOf(canon, profile.components, s.ecosystem)|
    && s.queries == |QueriesOfEcosystem(canon, r.queries, s.ecosystem)|
    && s.unqueried == |UnqueriedOfEcosystem(canon, r.unqueried, s.ecosystem)|
    && (s.complete <==>
          && r.acquisition == AcquiredComplete && profile.warnings == []
          && (forall q :: q in r.queries && canon(q.query.ecosystem) == s.ecosystem ==> q.complete)
          && forall u :: u in r.unqueried ==> canon(u.component.ecosystem) != s.ecosystem)
  }

  lemma SummarySumsUp(canon: string -> string, profile: Profile, r: Report, e: string, s: Summary)
    ensures s == SummaryFor(canon, e, Base(profile, r), profile.components, r.queries, r.unqueried) <==>
      s.ecosystem == e && SumsUp(canon, profile, r, s)
  {
    ComponentsCounted(canon, profile.components, e);
    QueriesCounted(canon, r.queries, e);
    UnqueriedCounted(canon, r.unqueried, e);
    NoneUnqueried(canon, r.unqueried, e);
    CompleteAsMembers(canon, r.queries, e);
    hide CountComponents, CountQueries, CountUnqueried, AllComplete;
  }

  lemma NoneUnqueried(canon: string -> string, us: seq<Unqueried>, e: string)
    ensures |UnqueriedOfEcosystem(canon, us, e)| == 0 <==> forall u :: u in us ==> canon(u.component.ecosystem) != e
  {
    if |UnqueriedOfEcosystem(canon, us, e)| == 0 {
      assert UnqueriedOfEcosystem(canon, us, e) == {};
      forall u | u in us
        ensures canon(u.component.ecosystem) != e
      {
        var i :| 0 <= i < |us| && us[i] == u;
        assert i !in UnqueriedOfEcosystem(canon, us, e);
      }
    } else {
      var i :| i in UnqueriedOfEcosystem(canon, us, e);
      assert us[i] in us;
    }
  }

  lemma CompleteAsMembers(canon: string -> string, qs: seq<PackageResult>, e: string)
    ensures AllComplete(canon, qs, e) <==> forall q :: q in qs && canon(q.query.ecosystem) == e ==> q.complete
  {
  }

  lemma NamedOccurs(canon: string -> string, profile: Profile, r: Report, e: string)
    ensures e in Named(canon, profile.ecosystems, profile.components, r.queries, r.unqueried) <==> Occurs(canon, profile, r, e)
  {
  }

  /** One summary for every ecosystem that occurs, in order, each adding up. */
  ghost predicate Summarizes(canon: string -> string, profile: Profile, r: Report, list: seq<Summary>) {
    && (forall i, j :: 0 <= i < j < |list| ==> Less(list[i].ecosystem, list[j].ecosystem))
    && (forall e :: Occurs(canon, profile, r, e) <==> exists i :: 0 <= i < |list| && list[i].ecosystem == e)
    && forall i :: 0 <= i < |list| ==> SumsUp(canon, profile, r, list[i])
  }

  lemma SummaryIff(canon: string -> string, profile: Profile, r: Report, list: seq<Summary>)
    ensures IsSummary(canon, profile, r, list) <==> Summarizes(canon, profile, r, list)
  {
    hide SumsUp, SummaryFor, Occurs, Named;
    var named := Named(canon, profile.ecosystems, profile.components, r.queries, r.unqueried);
    var names := Arrange(named);
    var keys := seq(|list|, i requires 0 <= i < |list| => list[i].ecosystem);
    forall e
      ensures e in named <==> Occurs(canon, profile, r, e)
    {
      NamedOccurs(canon, profile, r, e);
    }
    forall i | 0 <= i < |list|
      ensures forall e :: list[i] == SummaryFor(canon, e, Base(profile, r), profile.components, r.queries, r.unqueried) <==> list[i].ecosystem == e && SumsUp(canon, profile, r, list[i])
    {
      forall e {
        SummarySumsUp(canon, profile, r, e, list[i]);
      }
    }
    if Summarizes(canon, profile, r, list) {
      KeysAreNames(canon, profile, r, list, keys, named);
    }
    if IsSummary(canon, profile, r, list) {
      assert forall i :: 0 <= i < |list| ==> list[i].ecosystem == names[i];
      forall e
        ensures Occurs(canon, profile, r, e) <==> exists i :: 0 <= i < |list| && list[i].ecosystem == e
      {
        if e in names {
          var i :| 0 <= i < |names| && names[i] == e;
          assert list[i].ecosystem == e;
        }
      }
    }
  }

  lemma KeysAreNames(canon: string -> string, profile: Profile, r: Report, list: seq<Summary>, keys: seq<string>, named: set<string>)
    requires Summarizes(canon, profile, r, list) && |keys| == |list| && forall i :: 0 <= i < |list| ==> keys[i] == list[i].ecosystem
    requires forall e :: e in named <==> Occurs(canon, profile, r, e)
    ensures keys == Arrange(named)
  {
    hide SumsUp, Occurs;
    forall e
      ensures e in keys <==> e in named
    {
      if e in named {
        var i :| 0 <= i < |list| && list[i].ecosystem == e;
        assert keys[i] == e;
      }
      if e in keys {
        var i :| 0 <= i < |keys| && keys[i] == e;
        assert list[i].ecosystem == e;
      }
    }
    ArrangeIs(keys, named);
  }
}
