/** Scan reports (src/reposcan/types.go) and the query plan that a run follows and the validation of a saved scan
    recomputes (src/reposcan/plan.go). */
module ScanReport {
  import opened ScanTypes
  import opened Text

  const SCHEMA_VERSION := 1
  const UNAVAILABLE := "unavailable"

  datatype Acquisition = AcquiredComplete | AcquiredUnknown | AcquiredOther(text: string)
  datatype Status = StatusComplete | StatusIncomplete | StatusOther(text: string)
  datatype Outcome = Unknown | NoAdvisoryFound | AffectedVersionMatch | Withdrawn | OutcomeOther(text: string)
  datatype EnrichmentStatus = NotChecked | Found | NotFound | Failed | EnrichmentOther(text: string)

  datatype PlannedQuery = PlannedQuery(query: PackageVersion, origins: seq<Component>)
  datatype Unqueried = Unqueried(component: Component, reason: string)
  datatype PlanReport = PlanReport(queries: seq<PlannedQuery>, unqueried: seq<Unqueried>)

  datatype Match = Match(recordKey: string, outcome: Outcome, reason: string, fixedVersions: seq<string>)

  datatype PackageResult = PackageResult(
    query: PackageVersion, origins: seq<Component>, workspace: string, dependencyPath: string,
    complete: bool, error: string, outcome: Outcome, ids: seq<string>, matches: seq<Match>, runtimeImpact: string)

  datatype Enrichment = Enrichment(source: Source, id: string, status: EnrichmentStatus, error: string)

  datatype Summary = Summary(ecosystem: string, components: nat, queries: nat, unqueried: nat, complete: bool)

  datatype Report = Report(
    repository: Repository, startedAt: int, finishedAt: int, acquisition: Acquisition, status: Status,
    refreshComplete: bool, queries: seq<PackageResult>, unqueried: seq<Unqueried>,
    records: Records, retained: Records, groups: seq<Group>, warnings: seq<string>,
    ecosystems: seq<Summary>, enrichment: seq<Enrichment>, runtimeImpact: string)

  datatype State = State(schemaVersion: int, profile: Profile, report: Report)

  // ---------- the query plan ----------

  /** Whether a component becomes a query, or why not. */
  datatype Classified = Query(query: PackageVersion) | Rejected(reason: string)

  /** The parts of planning that belong to package identities, version grammars and JSON encoding:
      the decision per component, the texts queries and components are sorted by, and the canonical
      name of an ecosystem. */
  datatype Rules = Rules(
    classify: Component -> Classified,
    queryKey: PackageVersion -> string,
    componentKey: Component -> string,
    canonical: string -> string)
  {
    /** Different queries encode differently. */
    ghost predicate Injective() {
      forall p, q {:trigger queryKey(p), queryKey(q)} :: queryKey(p) == queryKey(q) ==> p == q
    }
  }

  /** Stable insertion: behind everything that does not sort after c. */
  function InsertOrigin(rules: Rules, origins: seq<Component>, c: Component): seq<Component> {
    if origins == [] then [c]
    else
      var last := |origins| - 1;
      if Less(rules.componentKey(c), rules.componentKey(origins[last])) then
        InsertOrigin(rules, origins[..last], c) + [origins[last]]
      else origins + [c]
  }

  function SortOrigins(rules: Rules, origins: seq<Component>): seq<Component> {
    if origins == [] then []
    else InsertOrigin(rules, SortOrigins(rules, origins[..|origins| - 1]), origins[|origins| - 1])
  }

  /** The components that ask for a query, in profile order. */
  function OriginsOf(rules: Rules, components: seq<Component>, q: PackageVersion): seq<Component> {
    if components == [] then []
    else
      var last := |components| - 1;
      var before := OriginsOf(rules, components[..last], q);
      if rules.classify(components[last]) == Query(q) then before + [components[last]] else before
  }

  /** The components that are not queried, with the reasons. */
  function UnqueriedOf(rules: Rules, components: seq<Component>): seq<Unqueried> {
    if components == [] then []
    else
      var last := |components| - 1;
      var before := UnqueriedOf(rules, components[..last]);
      var c := rules.classify(components[last]);
      if c.Rejected? then before + [Unqueried(components[last], c.reason)] else before
  }

  ghost function QueriesOf(rules: Rules, components: seq<Component>): (qs: set<PackageVersion>)
    ensures forall q :: q in qs <==> exists c :: c in components && rules.classify(c) == Query(q)
  {
    if components == [] then {}
    else
      var last := |components| - 1;
      assert components == components[..last] + [components[last]];
      var before := QueriesOf(rules, components[..last]);
      var c := rules.classify(components[last]);
      if c.Query? then before + {c.query} else before
  }

  function Asked(plan: PlanReport): (qs: seq<PackageVersion>)
    ensures |qs| == |plan.queries| && forall i :: 0 <= i < |qs| ==> qs[i] == plan.queries[i].query
  {
    seq(|plan.queries|, i requires 0 <= i < |plan.queries| => plan.queries[i].query)
  }

  /** The plan of a profile: every query its components ask for, once, in the order of their
      encodings, with all components that ask for it; and every other component with its reason. */
  ghost predicate IsPlan(rules: Rules, profile: Profile, plan: PlanReport) {
    && plan.unqueried == UnqueriedOf(rules, profile.components)
    && (forall q :: q in Asked(plan) <==> q in QueriesOf(rules, profile.components))
    && AscendingBy(rules.queryKey, Asked(plan))
    && forall i :: 0 <= i < |plan.queries| ==>
         plan.queries[i].origins == SortOrigins(rules, OriginsOf(rules, profile.components, plan.queries[i].query))
  }

  /** Planning is deterministic: a profile has one plan. */
  lemma PlanUnique(rules: Rules, profile: Profile, a: PlanReport, b: PlanReport)
    requires IsPlan(rules, profile, a) && IsPlan(rules, profile, b)
    ensures a == b
  {
    AscendingByUnique(rules.queryKey, Asked(a), Asked(b));
    forall i | 0 <= i < |a.queries|
      ensures a.queries[i] == b.queries[i]
    {
      assert Asked(a)[i] == Asked(b)[i];
    }
  }

  // ---------- what a plan lists ----------

  /** Two components of a profile, at positions a and b, in the order in which origins are listed:
      by their encodings, and where those agree as they stand in the profile. */
  ghost predicate Precedes(rules: Rules, cs: seq<Component>, a: nat, b: nat)
    requires a < |cs| && b < |cs|
  {
    var x, y := rules.componentKey(cs[a]), rules.componentKey(cs[b]);
    Less(x, y) || (x == y && a < b)
  }

  /** The origins are the components at these positions of the profile, listed in order. */
  ghost predicate Placed(rules: Rules, cs: seq<Component>, origins: seq<Component>, from: seq<nat>) {
    && |from| == |origins|
    && (forall i :: 0 <= i < |from| ==> from[i] < |cs| && origins[i] == cs[from[i]])
    && forall i, j :: 0 <= i < j < |from| ==> Precedes(rules, cs, from[i], from[j])
  }

  /** The origins of a query, said without sorting: the components that ask for it, each as often as
      the profile has it, by their encodings, and components that encode alike in profile order. */
  ghost predicate ListsOrigins(rules: Rules, cs: seq<Component>, q: PackageVersion, origins: seq<Component>) {
    exists from :: Placed(rules, cs, origins, from)
      && forall k :: 0 <= k < |cs| ==> (k in from <==> rules.classify(cs[k]) == Query(q))
  }

  lemma PlacedMore(rules: Rules, cs: seq<Component>, origins: seq<Component>, from: seq<nat>, n: nat)
    requires n < |cs| && Placed(rules, cs, origins, from)
    requires forall i :: 0 <= i < |from| ==> Precedes(rules, cs, from[i], n)
    ensures Placed(rules, cs, origins + [cs[n]], from + [n])
  {
    hide Precedes;
  }

  lemma PlacedLess(rules: Rules, cs: seq<Component>, origins: seq<Component>, from: seq<nat>)
    requires origins != [] && Placed(rules, cs, origins, from)
    ensures Placed(rules, cs, origins[..|origins| - 1], from[..|from| - 1])
  {
    hide Precedes;
  }

  lemma {:induction false} InsertPlaced(rules: Rules, cs: seq<Component>, origins: seq<Component>, from: seq<nat>, n: nat) returns (next: seq<nat>)
    requires n < |cs| && Placed(rules, cs, origins, from) && forall k :: k in from ==> k < n
    ensures Placed(rules, cs, InsertOrigin(rules, origins, cs[n]), next)
    ensures forall k :: k in next <==> k == n || k in from
  {
    if origins == [] {
      next := [n];
    } else {
      var last := |origins| - 1;
      assert from == from[..last] + [from[last]];
      if Less(rules.componentKey(cs[n]), rules.componentKey(origins[last])) {
        PlacedLess(rules, cs, origins, from);
        assert forall k :: k in from[..last] ==> k in from;
        var before := InsertPlaced(rules, cs, origins[..last], from[..last], n);
        forall i | 0 <= i < |before|
          ensures Precedes(rules, cs, before[i], from[last])
        {
          assert before[i] in before;
          BeforeLast(rules, cs, origins, from, n, before[i]);
        }
        PlacedMore(rules, cs, InsertOrigin(rules, origins[..last], cs[n]), before, from[last]);
        next := before + [from[last]];
      } else {
        forall i | 0 <= i < |from|
          ensures Precedes(rules, cs, from[i], n)
        {
          BehindLast(rules, cs, origins, from, n, i);
        }
        PlacedMore(rules, cs, origins, from, n);
        next := from + [n];
      }
    }
  }

  lemma BeforeLast(rules: Rules, cs: seq<Component>, origins: seq<Component>, from: seq<nat>, n: nat, k: nat)
    requires n < |cs| && Placed(rules, cs, origins, from) && origins != []
    requires Less(rules.componentKey(cs[n]), rules.componentKey(origins[|origins| - 1]))
    requires k == n || k in from[..|from| - 1]
    ensures k < |cs| && Precedes(rules, cs, k, from[|from| - 1])
  {
  }

  lemma BehindLast(rules: Rules, cs: seq<Component>, origins: seq<Component>, from: seq<nat>, n: nat, i: nat)
    requires n < |cs| && Placed(rules, cs, origins, from) && i < |from| && forall k :: k in from ==> k < n
    requires !Less(rules.componentKey(cs[n]), rules.componentKey(origins[|origins| - 1]))
    ensures Precedes(rules, cs, from[i], n)
  {
    var last := |from| - 1;
    var x, y, z := rules.componentKey(cs[from[i]]), rules.componentKey(cs[from[last]]), rules.componentKey(cs[n]);
    assert from[i] in from;
    LessTotal(y, z);
    if i < last {
      assert Precedes(rules, cs, from[i], from[last]);
      if Less(x, y) && Less(y, z) {
        LessTransitive(x, y, z);
      }
    }
  }

  lemma {:induction false} SortedPlaced(rules: Rules, cs: seq<Component>, n: nat, q: PackageVersion) returns (from: seq<nat>)
    requires n <= |cs|
    ensures Placed(rules, cs, SortOrigins(rules, OriginsOf(rules, cs[..n], q)), from)
    ensures forall k :: k in from <==> 0 <= k < n && rules.classify(cs[k]) == Query(q)
  {
    if n == 0 {
      from := [];
    } else {
      var before := OriginsOf(rules, cs[..n - 1], q);
      assert cs[..n][..n - 1] == cs[..n - 1];
      from := SortedPlaced(rules, cs, n - 1, q);
      if rules.classify(cs[n - 1]) == Query(q) {
        assert (before + [cs[n - 1]])[..|before|] == before;
        from := InsertPlaced(rules, cs, SortOrigins(rules, before), from, n - 1);
      }
    }
  }

  /** Every component that asks for the query is an origin as often as it is in the profile. */
  lemma {:induction false} InsertCounted(rules: Rules, origins: seq<Component>, c: Component)
    ensures multiset(InsertOrigin(rules, origins, c)) == multiset(origins) + multiset{c}
  {
    if origins != [] {
      var last := |origins| - 1;
      assert origins == origins[..last] + [origins[last]];
      InsertCounted(rules, origins[..last], c);
    }
  }

  lemma {:induction false} OriginsCounted(rules: Rules, cs: seq<Component>, q: PackageVersion, c: Component)
    ensures multiset(SortOrigins(rules, OriginsOf(rules, cs, q)))[c] == if rules.classify(c) == Query(q) then multiset(cs)[c] else 0
  {
    if cs != [] {
      var last := |cs| - 1;
      var before := OriginsOf(rules, cs[..last], q);
      assert cs == cs[..last] + [cs[last]];
      OriginsCounted(rules, cs[..last], q, c);
      if rules.classify(cs[last]) == Query(q) {
        assert (before + [cs[last]])[..|before|] == before;
        InsertCounted(rules, SortOrigins(rules, before), cs[last]);
      }
    }
  }

  /** The rejected components at these positions, each with its own reason, in profile order. */
  ghost predicate Turned(rules: Rules, cs: seq<Component>, unqueried: seq<Unqueried>, from: seq<nat>) {
    && |from| == |unqueried|
    && (forall i :: 0 <= i < |from| ==>
          from[i] < |cs| && rules.classify(cs[from[i]]).Rejected?
          && unqueried[i] == Unqueried(cs[from[i]], rules.classify(cs[from[i]]).reason))
    && forall i, j :: 0 <= i < j < |from| ==> from[i] < from[j]
  }

  /** The components that are not queried, said without the walk: all that planning rejects. */
  ghost predicate ListsUnqueried(rules: Rules, cs: seq<Component>, unqueried: seq<Unqueried>) {
    exists from :: Turned(rules, cs, unqueried, from)
      && forall k :: 0 <= k < |cs| && rules.classify(cs[k]).Rejected? ==> k in from
  }

  lemma {:induction false} UnqueriedPlaced(rules: Rules, cs: seq<Component>, n: nat) returns (from: seq<nat>)
    requires n <= |cs|
    ensures Turned(rules, cs, UnqueriedOf(rules, cs[..n]), from)
    ensures forall k :: k in from <==> 0 <= k < n && rules.classify(cs[k]).Rejected?
  {
    if n == 0 {
      from := [];
    } else {
      assert cs[..n][..n - 1] == cs[..n - 1];
      from := UnqueriedPlaced(rules, cs, n - 1);
      if rules.classify(cs[n - 1]).Rejected? {
        forall i | 0 <= i < |from|
          ensures from[i] < n - 1
        {
          assert from[i] in from;
        }
        from := from + [n - 1];
      }
    }
  }

  /** What every plan lists: for each query the components that ask for it, sorted stably and none
      lost or doubled, and the others with their reasons. */
  lemma PlanLists(rules: Rules, profile: Profile, plan: PlanReport)
    requires IsPlan(rules, profile, plan)
    ensures ListsUnqueried(rules, profile.components, plan.unqueried)
    ensures forall i :: 0 <= i < |plan.queries| ==>
      ListsOrigins(rules, profile.components, plan.queries[i].query, plan.queries[i].origins)
    ensures forall i, c :: 0 <= i < |plan.queries| ==>
      multiset(plan.queries[i].origins)[c] ==
        if rules.classify(c) == Query(plan.queries[i].query) then multiset(profile.components)[c] else 0
    ensures forall i, j, k :: 0 <= i < |plan.queries| && 0 <= j < k < |plan.queries[i].origins| ==>
      !Less(rules.componentKey(plan.queries[i].origins[k]), rules.componentKey(plan.queries[i].origins[j]))
  {
    hide Precedes;
    var cs := profile.components;
    assert cs[..|cs|] == cs;
    var turned := UnqueriedPlaced(rules, cs, |cs|);
    forall i | 0 <= i < |plan.queries|
      ensures ListsOrigins(rules, cs, plan.queries[i].query, plan.queries[i].origins)
      ensures forall j, k :: 0 <= j < k < |plan.queries[i].origins| ==>
        !Less(rules.componentKey(plan.queries[i].origins[k]), rules.componentKey(plan.queries[i].origins[j]))
    {
      var q, origins := plan.queries[i].query, plan.queries[i].origins;
      var from := SortedPlaced(rules, cs, |cs|, q);
      forall j, k | 0 <= j < k < |origins|
        ensures !Less(rules.componentKey(origins[k]), rules.componentKey(origins[j]))
      {
        assert Precedes(rules, cs, from[j], from[k]);
        NotBefore(rules, cs, from[j], from[k]);
      }
    }
    forall i, c | 0 <= i < |plan.queries|
      ensures multiset(plan.queries[i].origins)[c] ==
        if rules.classify(c) == Query(plan.queries[i].query) then multiset(cs)[c] else 0
    {
      OriginsCounted(rules, cs, plan.queries[i].query, c);
    }
  }

  lemma NotBefore(rules: Rules, cs: seq<Component>, a: nat, b: nat)
    requires a < |cs| && b < |cs| && Precedes(rules, cs, a, b)
    ensures !Less(rules.componentKey(cs[b]), rules.componentKey(cs[a]))
  {
    var x, y := rules.componentKey(cs[a]), rules.componentKey(cs[b]);
    if x == y {
      LessIrreflexive(x);
    } else {
      LessAsymmetric(x, y);
    }
  }

  // ---------- and nothing else is a plan ----------

  lemma PrecedesOnce(rules: Rules, cs: seq<Component>, a: nat, b: nat)
    requires a < |cs| && b < |cs| && Precedes(rules, cs, a, b)
    ensures a != b && !Precedes(rules, cs, b, a)
  {
    var x, y := rules.componentKey(cs[a]), rules.componentKey(cs[b]);
    LessIrreflexive(x);
    if Less(x, y) {
      LessAsymmetric(x, y);
    }
  }

  ghost predicate InOrder(rules: Rules, cs: seq<Component>, from: seq<nat>) {
    && (forall i :: 0 <= i < |from| ==> from[i] < |cs|)
    && forall i, j :: 0 <= i < j < |from| ==> Precedes(rules, cs, from[i], from[j])
  }

  lemma NoneIn(a: seq<nat>, b: seq<nat>)
    requires forall k :: k in a ==> k in b
    ensures b == [] ==> a == []
  {
    if a != [] {
      assert a[0] in b;
    }
  }

  /** Positions in order are determined by which they are. */
  lemma {:induction false} InOrderUnique(rules: Rules, cs: seq<Component>, a: seq<nat>, b: seq<nat>)
    requires InOrder(rules, cs, a) && InOrder(rules, cs, b) && forall k :: k in a <==> k in b
    ensures a == b
  {
    hide Precedes;
    NoneIn(a, b);
    NoneIn(b, a);
    if a != [] {
      assert a[0] in a && b[0] in b;
      if a[0] != b[0] {
        var i :| 0 <= i < |b| && b[i] == a[0];
        var j :| 0 <= j < |a| && a[j] == b[0];
        assert Precedes(rules, cs, b[0], b[i]) && Precedes(rules, cs, a[0], a[j]);
        PrecedesOnce(rules, cs, a[0], b[0]);
      }
      OrderedRest(rules, cs, a, b);
      InOrderUnique(rules, cs, a[1..], b[1..]);
      assert a == [a[0]] + a[1..] && b == [b[0]] + b[1..];
    }
  }

  lemma OrderedRest(rules: Rules, cs: seq<Component>, a: seq<nat>, b: seq<nat>)
    requires InOrder(rules, cs, a) && InOrder(rules, cs, b) && forall k :: k in a <==> k in b
    requires a != [] && b != [] && a[0] == b[0]
    ensures InOrder(rules, cs, a[1..]) && InOrder(rules, cs, b[1..]) && forall k :: k in a[1..] <==> k in b[1..]
  {
    hide Precedes;
    HeadOnce(rules, cs, a);
    HeadOnce(rules, cs, b);
    forall k
      ensures k in a[1..] <==> k in b[1..]
    {
      assert k in a <==> k == a[0] || k in a[1..];
      assert k in b <==> k == b[0] || k in b[1..];
    }
  }

  lemma HeadOnce(rules: Rules, cs: seq<Component>, a: seq<nat>)
    requires InOrder(rules, cs, a) && a != []
    ensures a[0] !in a[1..]
  {
    hide Precedes;
    if a[0] in a[1..] {
      var i :| 0 <= i < |a[1..]| && a[1..][i] == a[0];
      assert Precedes(rules, cs, a[0], a[i + 1]);
      PrecedesOnce(rules, cs, a[0], a[i + 1]);
    }
  }

  lemma OriginsUnique(rules: Rules, cs: seq<Component>, q: PackageVersion, a: seq<Component>, b: seq<Component>)
    requires ListsOrigins(rules, cs, q, a) && ListsOrigins(rules, cs, q, b)
    ensures a == b
  {
    hide Precedes;
    var x :| Placed(rules, cs, a, x) && forall k :: 0 <= k < |cs| ==> (k in x <==> rules.classify(cs[k]) == Query(q));
    var y :| Placed(rules, cs, b, y) && forall k :: 0 <= k < |cs| ==> (k in y <==> rules.classify(cs[k]) == Query(q));
    InOrderUnique(rules, cs, x, y);
  }

  lemma {:induction false} AscendingSame(a: seq<nat>, b: seq<nat>)
    requires forall i, j :: 0 <= i < j < |a| ==> a[i] < a[j]
    requires forall i, j :: 0 <= i < j < |b| ==> b[i] < b[j]
    requires forall k :: k in a <==> k in b
    ensures a == b
  {
    NoneIn(a, b);
    NoneIn(b, a);
    if a != [] {
      assert a[0] in a && b[0] in b;
      assert a[0] == b[0];
      assert a == [a[0]] + a[1..] && b == [b[0]] + b[1..];
      forall k
        ensures k in a[1..] <==> k in b[1..]
      {
        assert k in a[1..] ==> k in a && k > a[0];
        assert k in b[1..] ==> k in b && k > b[0];
      }
      AscendingSame(a[1..], b[1..]);
    }
  }

  lemma UnqueriedUnique(rules: Rules, cs: seq<Component>, a: seq<Unqueried>, b: seq<Unqueried>)
    requires ListsUnqueried(rules, cs, a) && ListsUnqueried(rules, cs, b)
    ensures a == b
  {
    var x :| Turned(rules, cs, a, x) && forall k :: 0 <= k < |cs| && rules.classify(cs[k]).Rejected? ==> k in x;
    var y :| Turned(rules, cs, b, y) && forall k :: 0 <= k < |cs| && rules.classify(cs[k]).Rejected? ==> k in y;
    forall k
      ensures k in x <==> k in y
    {
    }
    AscendingSame(x, y);
  }

  /** What a plan is, without the walk and the sort that make it: every query that some component asks
      for, in the order of the encodings, with the components that ask for it; and the others with
      their reasons. */
  lemma PlanIff(rules: Rules, profile: Profile, plan: PlanReport)
    ensures IsPlan(rules, profile, plan) <==>
      && ListsUnqueried(rules, profile.components, plan.unqueried)
      && (forall q :: q in Asked(plan) <==> exists c :: c in profile.components && rules.classify(c) == Query(q))
      && AscendingBy(rules.queryKey, Asked(plan))
      && forall i :: 0 <= i < |plan.queries| ==> ListsOrigins(rules, profile.components, plan.queries[i].query, plan.queries[i].origins)
  {
    hide ListsUnqueried, ListsOrigins, UnqueriedOf;
    var cs := profile.components;
    if IsPlan(rules, profile, plan) {
      PlanLists(rules, profile, plan);
    }
    if ListsUnqueried(rules, cs, plan.unqueried) {
      UnqueriedIsListed(rules, cs);
      UnqueriedUnique(rules, cs, plan.unqueried, UnqueriedOf(rules, cs));
    }
    forall i | 0 <= i < |plan.queries| && ListsOrigins(rules, cs, plan.queries[i].query, plan.queries[i].origins)
      ensures plan.queries[i].origins == SortOrigins(rules, OriginsOf(rules, cs, plan.queries[i].query))
    {
      SortedIsListed(rules, cs, plan.queries[i].query);
      OriginsUnique(rules, cs, plan.queries[i].query, plan.queries[i].origins, SortOrigins(rules, OriginsOf(rules, cs, plan.queries[i].query)));
    }
  }

  lemma UnqueriedIsListed(rules: Rules, cs: seq<Component>)
    ensures ListsUnqueried(rules, cs, UnqueriedOf(rules, cs))
  {
    assert cs[..|cs|] == cs;
    var from := UnqueriedPlaced(rules, cs, |cs|);
  }

  lemma SortedIsListed(rules: Rules, cs: seq<Component>, q: PackageVersion)
    ensures ListsOrigins(rules, cs, q, SortOrigins(rules, OriginsOf(rules, cs, q)))
  {
    assert cs[..|cs|] == cs;
    var from := SortedPlaced(rules, cs, |cs|, q);
  }

  /** What the walk over the components has collected: origins by query. */
  ghost predicate Collected(rules: Rules, components: seq<Component>, queries: map<PackageVersion, seq<Component>>) {
    && queries.Keys == QueriesOf(rules, components)
    && forall q :: OriginsOf(rules, components, q) == if q in queries then queries[q] else []
  }

  lemma CollectedStep(rules: Rules, cs: seq<Component>, i: nat, queries: map<PackageVersion, seq<Component>>)
    requires i < |cs| && Collected(rules, cs[..i], queries)
    ensures
      match rules.classify(cs[i])
      case Rejected(_) => Collected(rules, cs[..i + 1], queries)
      case Query(q) => Collected(rules, cs[..i + 1], queries[q := (if q in queries then queries[q] else []) + [cs[i]]])
    ensures
      var c := rules.classify(cs[i]);
      UnqueriedOf(rules, cs[..i + 1]) == UnqueriedOf(rules, cs[..i]) + if c.Rejected? then [Unqueried(cs[i], c.reason)] else []
  {
    assert cs[..i + 1][..i] == cs[..i];
  }

  method CollectQueries(rules: Rules, cs: seq<Component>)
    returns (queries: map<PackageVersion, seq<Component>>, unqueried: seq<Unqueried>)
    ensures unqueried == UnqueriedOf(rules, cs) && Collected(rules, cs, queries)
  {
    unqueried, queries := [], map[];
    for i := 0 to |cs|
      invariant unqueried == UnqueriedOf(rules, cs[..i]) && Collected(rules, cs[..i], queries)
    {
      CollectedStep(rules, cs, i, queries);
      match rules.classify(cs[i]) {
        case Rejected(reason) => unqueried := unqueried + [Unqueried(cs[i], reason)];
        case Query(q) => queries := queries[q := (if q in queries then queries[q] else []) + [cs[i]]];
      }
    }
    assert cs[..|cs|] == cs;
  }

  /** The collected queries in the given order, each with its origins sorted. */
  method WriteQueries(rules: Rules, queries: map<PackageVersion, seq<Component>>, order: seq<PackageVersion>)
    returns (planned: seq<PlannedQuery>)
    requires forall q :: q in order ==> q in queries
    ensures |planned| == |order|
    ensures forall i :: 0 <= i < |order| ==> planned[i] == PlannedQuery(order[i], SortOrigins(rules, queries[order[i]]))
  {
    planned := [];
    for i := 0 to |order|
      invariant |planned| == i
      invariant forall j :: 0 <= j < i ==> planned[j] == PlannedQuery(order[j], SortOrigins(rules, queries[order[j]]))
    {
      planned := planned + [PlannedQuery(order[i], SortOrigins(rules, queries[order[i]]))];
    }
  }

  method Plan(rules: Rules, profile: Profile) returns (plan: PlanReport)
    requires rules.Injective()
    ensures IsPlan(rules, profile, plan)
    ensures ListsUnqueried(rules, profile.components, plan.unqueried)
    ensures forall i :: 0 <= i < |plan.queries| ==>
      ListsOrigins(rules, profile.components, plan.queries[i].query, plan.queries[i].origins)
    ensures forall q :: q in Asked(plan) <==> exists c :: c in profile.components && rules.classify(c) == Query(q)
  {
    var queries, unqueried := CollectQueries(rules, profile.components);
    var order := SortBy(rules.queryKey, queries.Keys);
    var planned := WriteQueries(rules, queries, order);
    plan := PlanReport(planned, unqueried);
    assert Asked(plan) == order;
    PlanLists(rules, profile, plan);
  }
}
