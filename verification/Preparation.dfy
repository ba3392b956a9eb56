/** Preparing an alias group for analysis (src/scananalyze/prepare.go): the exact hits of the group's
    queries become targets, components and matches.  Whatever is emitted without an error is confirmed
    by the assessment, for each match and overall. */
module Preparation {
  import opened ScanTypes
  import opened Strings
  import opened ScanReport
  import opened ScanValidate
  import opened HitEvidence
  import VersionRanges
  import SemVer
  import Text
  import A = Assessment

  // ---------- target identifiers ----------

  function DigitChar(d: nat): (c: char)
    requires d < 10
    ensures IsDigit(c) && SemVer.Digit(c) == d
  {
    ('0' as int + d) as char
  }

  function Decimal(n: nat): (s: string)
    ensures SemVer.AllDigits(s) && s != ""
  {
    if n < 10 then [DigitChar(n)] else Decimal(n / 10) + [DigitChar(n % 10)]
  }

  lemma {:induction false} DecimalValue(n: nat)
    ensures SemVer.Value(Decimal(n)) == n
  {
    var s := Decimal(n);
    if n < 10 {
      assert s[..0] == "";
    } else {
      DecimalValue(n / 10);
      assert s[..|s| - 1] == Decimal(n / 10);
    }
  }

  /** %03d. */
  function Padded(s: string): string
    decreases 3 - |s|
  {
    if |s| >= 3 then s else Padded("0" + s)
  }

  lemma {:induction false} LeadingZeroValue(s: string)
    requires SemVer.AllDigits(s)
    ensures SemVer.AllDigits("0" + s) && SemVer.Value("0" + s) == SemVer.Value(s)
  {
    var t := "0" + s;
    if s == "" {
      assert t[..0] == "";
    } else {
      LeadingZeroValue(s[..|s| - 1]);
      assert t[..|t| - 1] == "0" + s[..|s| - 1];
    }
  }

  lemma {:induction false} PaddedValue(s: string)
    requires SemVer.AllDigits(s)
    ensures SemVer.AllDigits(Padded(s)) && SemVer.Value(Padded(s)) == SemVer.Value(s)
    decreases 3 - |s|
  {
    if |s| < 3 {
      LeadingZeroValue(s);
      PaddedValue("0" + s);
    }
  }

  const TARGET := "OSV-TARGET-"

  function TargetId(n: nat): string {
    TARGET + Padded(Decimal(n))
  }

  /** Numbered identifiers never clash, however many there are. */
  lemma TargetIdsDistinct(m: nat, n: nat)
    requires TargetId(m) == TargetId(n)
    ensures m == n
  {
    assert TargetId(m)[|TARGET|..] == Padded(Decimal(m)) && TargetId(n)[|TARGET|..] == Padded(Decimal(n));
    DecimalValue(m);
    DecimalValue(n);
    PaddedValue(Decimal(m));
    PaddedValue(Decimal(n));
  }

  lemma TargetIdIsVisible(n: nat)
    ensures !A.IsBlank(TargetId(n))
  {
    var s := TargetId(n);
    PaddedValue(Decimal(n));
    var last := s[|s| - 1];
    assert last == Padded(Decimal(n))[|Padded(Decimal(n))| - 1];
    assert IsDigit(last) && !IsSpace(last) && !IsSpace(s[0]);
    TrimmedAlready(s);
  }

  // ---------- one hit ----------

  datatype Identity = Identity(purl: string, ecosystem: string, name: string, version: string)

  /** The identity of a component as the profile gives it, not as OSV normalizes it. */
  function IdentityOf(c: Component): Identity {
    Identity(c.purl, c.ecosystem, A.FullName(c), c.version)
  }

  function Sample(version: string): VersionRanges.Constraint {
    VersionRanges.Constraint("osv", version, "", "", "", "")
  }

  function MakeTarget(id: string, x: Identity): A.Target {
    A.Target(id, A.AffectedPackage, x.purl, x.ecosystem, x.name, [Sample(x.version)])
  }

  function ReasonFor(c: Component): A.Reason {
    if c.purl != "" then A.PURLExact else A.PackageExact
  }

  /** The facts about identities, pinning and planning that the scan relies on. */
  ghost predicate Grounded(rules: Rules, pinned: (string, string) -> bool) {
    && (forall c :: rules.classify(c).Query? ==> !A.IsBlank(c.name) && !A.IsBlank(c.ecosystem))
    && forall e, v :: pinned(e, v) ==> !A.IsBlank(v)
  }

  /** A match that the assessment will confirm. */
  predicate Fits(c: Component, t: A.Target, m: A.TargetMatch) {
    && m.item == c.id && m.target == t.id && !A.IsBlank(c.id) && !A.IsBlank(t.id)
    && A.ExactComponent(c, t, m.reason) && !m.reason.Unsupported?
    && m.status.Affected? && m.installed == c.version && !A.IsBlank(c.version) && t.constraints != []
  }

  lemma HitFits(c: Component, n: nat)
    requires !A.IsBlank(c.name) && !A.IsBlank(c.ecosystem) && !A.IsBlank(c.version) && !A.IsBlank(c.id)
    requires c.purl == "" || A.IsPURL(c.purl)
    ensures Fits(c, MakeTarget(TargetId(n), IdentityOf(c)), A.TargetMatch(c.id, TargetId(n), ReasonFor(c), VersionRanges.Status.Affected, c.version))
  {
    TargetIdIsVisible(n);
  }

  /** An OSV sample for exactly the pinned version says affected. */
  lemma SampleSaysAffected(pinned: (string, string) -> bool, c: Component)
    ensures VersionRanges.MixedStatus(pinned, c.ecosystem, c.version, [Sample(c.version)]).Affected? <==> pinned(c.ecosystem, c.version)
  {
    var cs := [Sample(c.version)];
    assert cs[0] == Sample(c.version);
  }

  // ---------- the draft of a candidate ----------

  datatype Draft = Draft(
    targets: map<Identity, nat>, affected: seq<A.Target>, components: map<string, Component>,
    pairs: set<(string, string)>, matches: seq<A.TargetMatch>)

  predicate Numbered(affected: seq<A.Target>) {
    forall n :: 0 <= n < |affected| ==> affected[n].id == TargetId(n + 1)
  }

  /** The numbers given out are those of the targets made. */
  predicate Known(d: Draft, x: Identity)
    requires x in d.targets
  {
    var n := d.targets[x];
    1 <= n <= |d.affected| && d.affected[n - 1] == MakeTarget(TargetId(n), x)
  }

  ghost predicate Backed(components: map<string, Component>, affected: seq<A.Target>, m: A.TargetMatch) {
    && m.item in components
    && exists n :: 0 <= n < |affected| && Fits(components[m.item], affected[n], m)
  }

  predicate PairsApart(matches: seq<A.TargetMatch>) {
    forall i, j :: 0 <= i < j < |matches| ==> (matches[i].item, matches[i].target) != (matches[j].item, matches[j].target)
  }

  ghost predicate TargetsOk(d: Draft) {
    && |d.targets| == |d.affected| && Numbered(d.affected)
    && forall x {:trigger Known(d, x)} :: x in d.targets ==> Known(d, x)
  }

  ghost predicate AllBacked(components: map<string, Component>, affected: seq<A.Target>, ms: seq<A.TargetMatch>) {
    forall i {:trigger ms[i]} :: 0 <= i < |ms| ==> Backed(components, affected, ms[i])
  }

  ghost predicate ComponentsOk(cs: seq<Component>, components: map<string, Component>) {
    forall id :: id in components ==> components[id].id == id && components[id] in cs && A.ComponentCount(cs, id) == 1
  }

  /** Some match is about the component. */
  predicate Matched(ms: seq<A.TargetMatch>, item: string) {
    exists i :: 0 <= i < |ms| && ms[i].item == item
  }

  ghost predicate PairsOk(pairs: set<(string, string)>, ms: seq<A.TargetMatch>) {
    && (forall i :: 0 <= i < |ms| ==> (ms[i].item, ms[i].target) in pairs)
    && (forall p :: p in pairs ==> Matched(ms, p.0))
    && PairsApart(ms)
  }

  /** What holds of a draft at every moment. */
  ghost predicate Drafted(cs: seq<Component>, d: Draft) {
    && TargetsOk(d) && ComponentsOk(cs, d.components)
    && AllBacked(d.components, d.affected, d.matches) && PairsOk(d.pairs, d.matches)
  }

  /** A component that is there once is the only one of its identifier. */
  lemma {:induction false} OnlyOne(cs: seq<Component>, c: Component, e: Component)
    requires c in cs && e in cs && c.id == e.id && A.ComponentCount(cs, c.id) == 1
    ensures c == e
  {
    var n := |cs| - 1;
    assert cs == cs[..n] + [cs[n]];
    if cs[n].id == c.id {
      if c in cs[..n] {
        Present(cs[..n], c);
      }
      if e in cs[..n] {
        Present(cs[..n], e);
      }
    } else {
      OnlyOne(cs[..n], c, e);
    }
  }

  lemma {:induction false} Present(cs: seq<Component>, c: Component)
    requires c in cs
    ensures A.ComponentCount(cs, c.id) >= 1
  {
    var n := |cs| - 1;
    assert cs == cs[..n] + [cs[n]];
    if c != cs[n] {
      Present(cs[..n], c);
    }
  }

  /** One more origin: its target if it is new, the component, and the match if the pair is new. */
  method AddOrigin(cs: seq<Component>, d: Draft, c: Component) returns (next: Draft)
    requires Drafted(cs, d) && c in cs && A.ComponentCount(cs, c.id) == 1
    requires !A.IsBlank(c.name) && !A.IsBlank(c.ecosystem) && !A.IsBlank(c.version) && !A.IsBlank(c.id)
    requires c.purl == "" || A.IsPURL(c.purl)
    ensures Drafted(cs, next) && Matched(next.matches, c.id) && d.matches <= next.matches
    ensures next.components == d.components[c.id := c]
  {
    hide A.IsBlank, A.ExactComponent, A.ComponentCount;
    var x := IdentityOf(c);
    var withTarget := d;
    if x !in d.targets {
      var n := |d.targets| + 1;
      withTarget := d.(targets := d.targets[x := n], affected := d.affected + [MakeTarget(TargetId(n), x)]);
      TargetAdded(cs, d, x);
    }
    assert Known(withTarget, x);
    next := AddMatch(cs, withTarget, c, withTarget.targets[x]);
  }

  lemma BackedStays(components: map<string, Component>, affected: seq<A.Target>, t: A.Target, m: A.TargetMatch)
    requires Backed(components, affected, m)
    ensures Backed(components, affected + [t], m)
  {
    hide Fits;
    var k :| 0 <= k < |affected| && Fits(components[m.item], affected[k], m);
    assert (affected + [t])[k] == affected[k];
  }

  lemma KnownStays(d: Draft, e: Draft, y: Identity)
    requires y in d.targets && Known(d, y) && y in e.targets && e.targets[y] == d.targets[y] && d.affected <= e.affected
    ensures Known(e, y)
  {
  }

  lemma TargetAdded(cs: seq<Component>, d: Draft, x: Identity)
    requires Drafted(cs, d) && x !in d.targets
    ensures
      var n := |d.targets| + 1;
      Drafted(cs, d.(targets := d.targets[x := n], affected := d.affected + [MakeTarget(TargetId(n), x)]))
  {
    hide TargetsOk, ComponentsOk, Backed, PairsOk, TargetId, MakeTarget;
    var n := |d.targets| + 1;
    NewTargetOk(d, x);
    forall i | 0 <= i < |d.matches|
      ensures Backed(d.components, d.affected + [MakeTarget(TargetId(n), x)], d.matches[i])
    {
      BackedStays(d.components, d.affected, MakeTarget(TargetId(n), x), d.matches[i]);
    }
  }

  lemma NewTargetOk(d: Draft, x: Identity)
    requires TargetsOk(d) && x !in d.targets
    ensures
      var n := |d.targets| + 1;
      TargetsOk(d.(targets := d.targets[x := n], affected := d.affected + [MakeTarget(TargetId(n), x)]))
  {
    hide TargetId, Known;
    var n := |d.targets| + 1;
    var t := MakeTarget(TargetId(n), x);
    var e := d.(targets := d.targets[x := n], affected := d.affected + [t]);
    OneMore(d.targets, x, n);
    NumberedMore(d.affected, t);
    forall y | y in e.targets
      ensures Known(e, y)
    {
      if y == x {
        NewIsKnown(e, x, n);
      } else {
        assert Known(d, y);
        KnownStays(d, e, y);
      }
    }
  }

  lemma OneMore(targets: map<Identity, nat>, x: Identity, n: nat)
    requires x !in targets
    ensures |targets[x := n]| == |targets| + 1
  {
  }

  lemma NumberedMore(affected: seq<A.Target>, t: A.Target)
    requires Numbered(affected) && t.id == TargetId(|affected| + 1)
    ensures Numbered(affected + [t])
  {
  }

  lemma NewIsKnown(e: Draft, x: Identity, n: nat)
    requires x in e.targets && e.targets[x] == n && 1 <= n == |e.affected| && e.affected[n - 1] == MakeTarget(TargetId(n), x)
    ensures Known(e, x)
  {
  }

  method AddMatch(cs: seq<Component>, d: Draft, c: Component, n: nat) returns (next: Draft)
    requires Drafted(cs, d) && c in cs && A.ComponentCount(cs, c.id) == 1
    requires 1 <= n <= |d.affected| && d.affected[n - 1] == MakeTarget(TargetId(n), IdentityOf(c))
    requires !A.IsBlank(c.name) && !A.IsBlank(c.ecosystem) && !A.IsBlank(c.version) && !A.IsBlank(c.id)
    requires c.purl == "" || A.IsPURL(c.purl)
    ensures Drafted(cs, next) && Matched(next.matches, c.id) && d.matches <= next.matches
    ensures next.components == d.components[c.id := c]
  {
    hide A.IsBlank, A.ExactComponent, A.ComponentCount, Fits, TargetsOk, AllBacked, TargetId;
    ComponentKept(cs, d, c);
    next := d.(components := d.components[c.id := c]);
    var pair := (c.id, TargetId(n));
    if pair !in d.pairs {
      var m := A.TargetMatch(c.id, TargetId(n), ReasonFor(c), VersionRanges.Status.Affected, c.version);
      HitFits(c, n);
      MatchAdded(cs, next, c, n, m);
      next := next.(pairs := next.pairs + {pair}, matches := next.matches + [m]);
      assert next.matches[|d.matches|].item == c.id;
    }
  }

  lemma ComponentKept(cs: seq<Component>, d: Draft, c: Component)
    requires Drafted(cs, d) && c in cs && A.ComponentCount(cs, c.id) == 1
    ensures Drafted(cs, d.(components := d.components[c.id := c]))
  {
    hide Fits, PairsOk, Known, Numbered, A.ComponentCount;
    var e := d.(components := d.components[c.id := c]);
    if c.id in d.components {
      OnlyOne(cs, c, d.components[c.id]);
    }
    SameTargets(d, e);
    forall i | 0 <= i < |e.matches|
      ensures Backed(e.components, e.affected, e.matches[i])
    {
      assert Backed(d.components, d.affected, d.matches[i]);
    }
  }

  lemma SameTargets(d: Draft, e: Draft)
    requires TargetsOk(d) && e.targets == d.targets && e.affected == d.affected
    ensures TargetsOk(e)
  {
    hide TargetId, MakeTarget;
    forall x | x in e.targets
      ensures Known(e, x)
    {
      assert Known(d, x);
    }
  }

  lemma MatchAdded(cs: seq<Component>, d: Draft, c: Component, n: nat, m: A.TargetMatch)
    requires Drafted(cs, d) && c.id in d.components && d.components[c.id] == c
    requires 1 <= n <= |d.affected| && Fits(c, d.affected[n - 1], m) && m.item == c.id && (m.item, m.target) !in d.pairs
    ensures Drafted(cs, d.(pairs := d.pairs + {(m.item, m.target)}, matches := d.matches + [m]))
  {
    hide Fits, TargetsOk, ComponentsOk;
    var e := d.(pairs := d.pairs + {(m.item, m.target)}, matches := d.matches + [m]);
    SameTargets(d, e);
    assert Backed(d.components, d.affected, m);
    MatchedMore(d.matches, m);
  }

  lemma MatchedMore(ms: seq<A.TargetMatch>, m: A.TargetMatch)
    ensures forall item :: Matched(ms + [m], item) <==> Matched(ms, item) || item == m.item
  {
    forall item
      ensures Matched(ms + [m], item) <==> Matched(ms, item) || item == m.item
    {
      assert (ms + [m])[|ms|] == m;
      if Matched(ms, item) {
        var i :| 0 <= i < |ms| && ms[i].item == item;
        assert (ms + [m])[i].item == item;
      }
    }
  }

  // ---------- a candidate that can be assessed ----------

  ghost predicate DistinctIds(cs: seq<Component>) {
    forall i, j :: 0 <= i < j < |cs| ==> cs[i].id != cs[j].id
  }

  /** What an emitted candidate promises: identifiers that are not repeated, and matches that resolve. */
  ghost predicate WellMade(f: A.Facts, c: A.Candidate) {
    && A.SameSnapshot(f, c) && c.matches != [] && f.others == []
    && DistinctIds(f.components)
    && (forall i, j :: 0 <= i < j < |f.affected| ==> f.affected[i].id != f.affected[j].id)
    && PairsApart(c.matches)
    && forall i {:trigger c.matches[i]} :: 0 <= i < |c.matches| ==> Resolves(f, c.matches[i])
  }

  ghost predicate Resolves(f: A.Facts, m: A.TargetMatch) {
    exists a, b :: 0 <= a < |f.components| && 0 <= b < |f.affected| && Fits(f.components[a], f.affected[b], m)
  }

  lemma {:induction false} CountOne(cs: seq<Component>, a: nat)
    requires DistinctIds(cs) && a < |cs|
    ensures A.ComponentCount(cs, cs[a].id) == 1 && A.FirstComponent(cs, cs[a].id) == Some(cs[a])
  {
    var n := |cs| - 1;
    if a < n {
      CountOne(cs[..n], a);
    } else {
      CountNone(cs[..n], cs[a].id);
    }
    FirstIs(cs, a);
  }

  lemma {:induction false} CountNone(cs: seq<Component>, id: string)
    requires forall i :: 0 <= i < |cs| ==> cs[i].id != id
    ensures A.ComponentCount(cs, id) == 0
  {
    if cs != [] {
      CountNone(cs[..|cs| - 1], id);
    }
  }

  lemma {:induction false} FirstIs(cs: seq<Component>, a: nat)
    requires DistinctIds(cs) && a < |cs|
    ensures A.FirstComponent(cs, cs[a].id) == Some(cs[a])
  {
    if a > 0 {
      FirstIs(cs[1..], a - 1);
    }
  }

  lemma {:induction false} TargetOne(ts: seq<A.Target>, b: nat)
    requires b < |ts| && forall i, j :: 0 <= i < j < |ts| ==> ts[i].id != ts[j].id
    ensures A.TargetCount(ts, ts[b].id) == 1 && A.TargetOf(ts, ts[b].id) == Some(ts[b])
  {
    var n := |ts| - 1;
    if b < n {
      TargetOne(ts[..n], b);
    } else {
      TargetNone(ts[..n], ts[b].id);
    }
  }

  lemma {:induction false} TargetNone(ts: seq<A.Target>, id: string)
    requires forall i :: 0 <= i < |ts| ==> ts[i].id != id
    ensures A.TargetCount(ts, id) == 0
  {
    if ts != [] {
      TargetNone(ts[..|ts| - 1], id);
    }
  }

  lemma {:induction false} PairOne(ms: seq<A.TargetMatch>, i: nat)
    requires PairsApart(ms) && i < |ms|
    ensures A.PairCount(ms, ms[i].item, ms[i].target) == 1
  {
    var n := |ms| - 1;
    if i < n {
      PairOne(ms[..n], i);
    } else {
      PairNone(ms[..n], ms[i].item, ms[i].target);
    }
  }

  lemma {:induction false} PairNone(ms: seq<A.TargetMatch>, item: string, target: string)
    requires forall i :: 0 <= i < |ms| ==> (ms[i].item, ms[i].target) != (item, target)
    ensures A.PairCount(ms, item, target) == 0
  {
    if ms != [] {
      PairNone(ms[..|ms| - 1], item, target);
    }
  }

  /** Each match of a well-made candidate is confirmed, without conditions. */
  lemma MatchIsConfirmed(f: A.Facts, c: A.Candidate, i: nat)
    requires WellMade(f, c) && i < |c.matches|
    ensures A.MatchSpec(f, c, c.matches[i]) == A.MatchReport(A.Confirmed, A.Confirmed, false)
  {
    hide A.ExactComponent, A.IsBlank, PairsApart, A.SameSnapshot;
    var m := c.matches[i];
    var a, b :| 0 <= a < |f.components| && 0 <= b < |f.affected| && Fits(f.components[a], f.affected[b], m);
    CountOne(f.components, a);
    TargetOne(f.affected, b);
    PairOne(c.matches, i);
    assert A.OtherCount(f.others, m.item) == 0;
    assert A.Proven(f, m, f.affected[b]);
  }

  /** The assessment of a well-made candidate: package present and version affected, throughout. */
  lemma PreparedIsConfirmed(f: A.Facts, c: A.Candidate, r: A.Report)
    requires WellMade(f, c) && A.IsReport(f, c, r)
    ensures r.presence.Confirmed? && r.version.Confirmed? && |r.matches| == |c.matches|
    ensures forall i :: 0 <= i < |r.matches| ==> r.matches[i] == A.MatchReport(A.Confirmed, A.Confirmed, false)
  {
    hide A.MatchSpec;
    forall i | 0 <= i < |c.matches|
      ensures r.matches[i] == A.MatchReport(A.Confirmed, A.Confirmed, false)
    {
      MatchIsConfirmed(f, c, i);
    }
    assert r.matches[0].presence.Confirmed?;
  }

  // ---------- the group ----------

  /** An alias group of a saved scan: the queries that hit it, its record keys and advisories, whether
      its records pass their own checks (identities, times, kinds), and what the processor says to an
      input. */
  datatype Group = Group(
    rules: Rules, pinned: (string, string) -> bool, state: State, indices: seq<nat>, dossier: Dossier,
    recordsOk: bool, id: string, modifiedAt: int, accepts: (A.Facts, A.Candidate) -> bool)
  {
    ghost predicate Ready() {
      rules.Injective() && Grounded(rules, pinned) && forall i :: i in indices ==> i < |state.report.queries|
    }

    function Settled(): bool {
      state.report.status.StatusComplete? || state.report.refreshComplete
    }
  }

  /** An origin that gives exact evidence. */
  predicate GoodOrigin(g: Group, q: PackageVersion, c: Component) {
    && A.ComponentCount(g.state.profile.components, c.id) == 1 && !A.IsBlank(c.id) && !A.IsBlank(c.sourcePath)
    && c.version == q.version && (c.purl == "" || A.IsPURL(c.purl)) && g.pinned(c.ecosystem, c.version)
  }

  /** A query whose origins are all those of the plan, and all good. */
  ghost predicate GoodQuery(g: Group, plan: PlanReport, i: nat) {
    && i < |g.state.report.queries| && g.state.report.queries[i].origins != []
    && Coherent(g.Settled(), g.state.report.queries[i]) && Evident(g.dossier, g.state.report.queries[i])
    && PlannedQuery(g.state.report.queries[i].query, g.state.report.queries[i].origins) in plan.queries
    && forall k :: 0 <= k < |g.state.report.queries[i].origins| ==> GoodOrigin(g, g.state.report.queries[i].query, g.state.report.queries[i].origins[k])
  }

  // ---------- origins come from the profile ----------

  lemma {:induction false} InsertedMembers(rules: Rules, origins: seq<Component>, c: Component, x: Component)
    ensures x in InsertOrigin(rules, origins, c) <==> x == c || x in origins
  {
    if origins != [] {
      var last := |origins| - 1;
      assert origins == origins[..last] + [origins[last]];
      InsertedMembers(rules, origins[..last], c, x);
    }
  }

  lemma {:induction false} SortedMembers(rules: Rules, origins: seq<Component>, x: Component)
    ensures x in SortOrigins(rules, origins) <==> x in origins
  {
    if origins != [] {
      var last := |origins| - 1;
      assert origins == origins[..last] + [origins[last]];
      SortedMembers(rules, origins[..last], x);
      InsertedMembers(rules, SortOrigins(rules, origins[..last]), origins[last], x);
    }
  }

  lemma {:induction false} OriginMembers(rules: Rules, cs: seq<Component>, q: PackageVersion, x: Component)
    ensures x in OriginsOf(rules, cs, q) <==> x in cs && rules.classify(x) == Query(q)
  {
    if cs != [] {
      var last := |cs| - 1;
      assert cs == cs[..last] + [cs[last]];
      OriginMembers(rules, cs[..last], q, x);
    }
  }

  lemma PlannedOrigins(rules: Rules, profile: Profile, plan: PlanReport, p: PlannedQuery, c: Component)
    requires IsPlan(rules, profile, plan) && p in plan.queries && c in p.origins
    ensures c in profile.components && rules.classify(c).Query?
  {
    SortedMembers(rules, OriginsOf(rules, profile.components, p.query), c);
    OriginMembers(rules, profile.components, p.query, c);
  }

  /** The draft after some queries: every origin of them is in, with a match, and nothing else. */
  ghost predicate Includes(d: Draft, cs: seq<Component>) {
    && (forall c :: c in cs ==> c.id in d.components && Matched(d.matches, c.id))
    && forall id :: id in d.components ==> d.components[id] in cs
  }

  lemma IncludesMore(d: Draft, e: Draft, cs: seq<Component>, c: Component)
    requires Includes(d, cs) && e.components == d.components[c.id := c] && d.matches <= e.matches
    requires Matched(e.matches, c.id)
    ensures Includes(e, cs + [c])
  {
  }

  function OriginsOfQueries(g: Group, indices: seq<nat>): seq<Component> {
    if indices == [] then []
    else
      var n := |indices| - 1;
      OriginsOfQueries(g, indices[..n]) + if indices[n] < |g.state.report.queries| then g.state.report.queries[indices[n]].origins else []
  }

  method AddOrigins(g: Group, plan: PlanReport, d: Draft, i: nat, ghost earlier: seq<Component>) returns (next: Option<Draft>)
    requires g.Ready() && i < |g.state.report.queries| && IsPlan(g.rules, g.state.profile, plan)
    requires PlannedQuery(g.state.report.queries[i].query, g.state.report.queries[i].origins) in plan.queries
    requires Drafted(g.state.profile.components, d) && Includes(d, earlier)
    ensures next.Some? <==> forall k :: 0 <= k < |g.state.report.queries[i].origins| ==> GoodOrigin(g, g.state.report.queries[i].query, g.state.report.queries[i].origins[k])
    ensures next.Some? ==> Drafted(g.state.profile.components, next.value) && Includes(next.value, earlier + g.state.report.queries[i].origins)
  {
    hide Drafted, Includes, IsPlan, A.IsBlank, A.IsPURL;
    var q := g.state.report.queries[i];
    var draft := d;
    assert earlier + q.origins[..0] == earlier;
    for k := 0 to |q.origins|
      invariant Drafted(g.state.profile.components, draft) && Includes(draft, earlier + q.origins[..k])
      invariant forall j :: 0 <= j < k ==> GoodOrigin(g, q.query, q.origins[j])
    {
      var c := q.origins[k];
      if !GoodOrigin(g, q.query, c) {
        return None;
      }
      PlannedOrigins(g.rules, g.state.profile, plan, PlannedQuery(q.query, q.origins), c);
      var status := VersionRanges.EvaluateMixed(g.pinned, c.ecosystem, c.version, [Sample(c.version)]);
      SampleSaysAffected(g.pinned, c);
      assert status.Affected?;
      ghost var before := draft;
      draft := AddOrigin(g.state.profile.components, draft, c);
      IncludesMore(before, draft, earlier + q.origins[..k], c);
      assert earlier + q.origins[..k + 1] == (earlier + q.origins[..k]) + [c];
    }
    assert q.origins[..|q.origins|] == q.origins;
    next := Some(draft);
  }

  method IsPlanned(plan: PlanReport, p: PlannedQuery) returns (found: bool)
    ensures found <==> p in plan.queries
  {
    found := false;
    for i := 0 to |plan.queries|
      invariant found <==> p in plan.queries[..i]
    {
      assert plan.queries[..i + 1] == plan.queries[..i] + [plan.queries[i]];
      if plan.queries[i] == p {
        found := true;
      }
    }
    assert plan.queries[..|plan.queries|] == plan.queries;
  }

  method AddQueries(g: Group, plan: PlanReport) returns (next: Option<Draft>)
    requires g.Ready() && IsPlan(g.rules, g.state.profile, plan)
    ensures next.Some? <==> forall n :: 0 <= n < |g.indices| ==> GoodQuery(g, plan, g.indices[n])
    ensures next.Some? ==> Drafted(g.state.profile.components, next.value) && Includes(next.value, OriginsOfQueries(g, g.indices))
  {
    hide Drafted, Includes, IsPlan, GoodOrigin, Evident, Coherent;
    var draft := Draft(map[], [], map[], {}, []);
    EmptyDraft(g.state.profile.components);
    for n := 0 to |g.indices|
      invariant Drafted(g.state.profile.components, draft) && Includes(draft, OriginsOfQueries(g, g.indices[..n]))
      invariant forall m :: 0 <= m < n ==> GoodQuery(g, plan, g.indices[m])
    {
      var i := g.indices[n];
      assert i in g.indices;
      assert g.indices[..n + 1][..n] == g.indices[..n];
      var q := g.state.report.queries[i];
      var planned := IsPlanned(plan, PlannedQuery(q.query, q.origins));
      if !planned || |q.origins| == 0 || !Coherent(g.Settled(), q) {
        return None;
      }
      var evident := CheckEvidence(g.dossier, q);
      if !evident {
        return None;
      }
      var more := AddOrigins(g, plan, draft, i, OriginsOfQueries(g, g.indices[..n]));
      if more.None? {
        return None;
      }
      draft := more.value;
    }
    assert g.indices[..|g.indices|] == g.indices;
    next := Some(draft);
  }

  lemma EmptyDraft(cs: seq<Component>)
    ensures Drafted(cs, Draft(map[], [], map[], {}, [])) && Includes(Draft(map[], [], map[], {}, []), [])
  {
  }

  /** preparationSnapshotError. */
  predicate SnapshotOk(s: State) {
    var r := s.profile.repository;
    && s.schemaVersion == SCHEMA_VERSION && s.report.repository == r
    && !A.IsBlank(r.id) && !A.IsBlank(r.commitSHA) && !A.IsBlank(r.canonicalURL)
    && s.report.acquisition.AcquiredComplete? && !s.report.status.StatusOther? && s.report.runtimeImpact == UNKNOWN_IMPACT
  }

  /** What it takes to draft a candidate of a group. */
  ghost predicate Draftable(g: Group) {
    && !A.IsBlank(g.id) && g.recordsOk
    && exists plan :: IsPlan(g.rules, g.state.profile, plan) && AllGood(g, plan)
  }

  ghost predicate AllGood(g: Group, plan: PlanReport) {
    forall n :: 0 <= n < |g.indices| ==> GoodQuery(g, plan, g.indices[n])
  }

  /** A candidate, one that the processor turns down, or none. */
  datatype Prepared = Emitted(facts: A.Facts, candidate: A.Candidate) | TurnedDown(facts: A.Facts, candidate: A.Candidate) | NotDrafted

  /** One group with hits.  A candidate is drafted exactly when the group's records and queries are good,
      and emitted exactly when besides the snapshot is identified and finished and the processor accepts
      it; then it is well made, and leaves no origin out. */
  method PrepareGroup(g: Group) returns (r: Prepared)
    requires g.Ready() && g.indices != []
    ensures !r.NotDrafted? <==> Draftable(g)
    ensures !r.NotDrafted? ==> (r.Emitted? <==> SnapshotOk(g.state) && g.accepts(r.facts, r.candidate))
    ensures !r.NotDrafted? && SnapshotOk(g.state) ==>
      && WellMade(r.facts, r.candidate)
      && (forall c :: c in OriginsOfQueries(g, g.indices) ==> Matched(r.candidate.matches, c.id))
      && forall c :: c in r.facts.components ==> c in OriginsOfQueries(g, g.indices)
  {
    hide IsPlan, Drafted, A.IsBlank, Includes, GoodQuery;
    var repository := g.state.profile.repository;
    if A.IsBlank(g.id) || !g.recordsOk {
      return NotDrafted;
    }
    var plan := Plan(g.rules, g.state.profile);
    var draft := AddQueries(g, plan);
    if draft.None? {
      OnlyPlan(g, plan);
      return NotDrafted;
    }
    assert AllGood(g, plan);
    ComponentsKeyed(g.state.profile.components, draft.value);
    var components := Listed(draft.value.components);
    var facts := A.Facts(repository.id, repository.commitSHA, components, [], g.id, g.modifiedAt, draft.value.affected);
    var candidate := A.Candidate(repository.id, repository.commitSHA, g.id, g.modifiedAt, draft.value.matches);
    r := TurnedDown(facts, candidate);
    if SnapshotOk(g.state) {
      FirstOrigin(g, plan);
      DraftIsWellMade(g.state.profile.components, draft.value, facts, candidate, g.state.report.queries[g.indices[0]].origins[0],
                      OriginsOfQueries(g, g.indices));
      if g.accepts(facts, candidate) {
        r := Emitted(facts, candidate);
      }
    }
  }

  lemma ComponentsKeyed(cs: seq<Component>, d: Draft)
    requires Drafted(cs, d)
    ensures forall id :: id in d.components ==> d.components[id].id == id
  {
  }

  lemma OnlyPlan(g: Group, plan: PlanReport)
    requires IsPlan(g.rules, g.state.profile, plan) && !AllGood(g, plan)
    ensures !exists p :: IsPlan(g.rules, g.state.profile, p) && AllGood(g, p)
  {
    hide IsPlan, AllGood;
    forall p | IsPlan(g.rules, g.state.profile, p)
      ensures p == plan
    {
      PlanUnique(g.rules, g.state.profile, p, plan);
    }
  }

  lemma FirstOrigin(g: Group, plan: PlanReport)
    requires g.Ready() && g.indices != [] && forall n :: 0 <= n < |g.indices| ==> GoodQuery(g, plan, g.indices[n])
    ensures g.indices[0] < |g.state.report.queries| && g.state.report.queries[g.indices[0]].origins != []
    ensures g.state.report.queries[g.indices[0]].origins[0] in OriginsOfQueries(g, g.indices)
  {
    hide IsPlan, GoodOrigin, Evident, Coherent;
    assert GoodQuery(g, plan, g.indices[0]);
    FirstStays(g, g.indices, g.state.report.queries[g.indices[0]].origins[0]);
  }

  lemma {:induction false} FirstStays(g: Group, indices: seq<nat>, c: Component)
    requires indices != [] && indices[0] < |g.state.report.queries| && c in g.state.report.queries[indices[0]].origins
    ensures c in OriginsOfQueries(g, indices)
  {
    var n := |indices| - 1;
    if n > 0 {
      FirstStays(g, indices[..n], c);
    }
  }

  /** The components in the order of their identifiers. */
  method Listed(components: map<string, Component>) returns (r: seq<Component>)
    requires forall id :: id in components ==> components[id].id == id
    ensures DistinctIds(r) && forall c :: c in r <==> c.id in components && components[c.id] == c
  {
    r := Text.SortBy((c: Component) => c.id, set id | id in components :: components[id]);
    forall i, j | 0 <= i < j < |r|
      ensures r[i].id != r[j].id
    {
      Text.LessIrreflexive(r[i].id);
    }
  }

  lemma DraftIsWellMade(cs: seq<Component>, d: Draft, f: A.Facts, c: A.Candidate, first: Component, all: seq<Component>)
    requires Drafted(cs, d) && Includes(d, all) && first in all
    requires A.SameSnapshot(f, c) && f.others == [] && DistinctIds(f.components)
    requires forall x :: x in f.components <==> x.id in d.components && d.components[x.id] == x
    requires f.affected == d.affected && c.matches == d.matches
    ensures WellMade(f, c)
    ensures forall x :: x in all ==> Matched(c.matches, x.id)
    ensures forall x :: x in f.components ==> x in all
  {
    hide Fits, A.SameSnapshot, TargetId, MakeTarget, Known;
    forall i, j | 0 <= i < j < |f.affected|
      ensures f.affected[i].id != f.affected[j].id
    {
      if f.affected[i].id == f.affected[j].id {
        TargetIdsDistinct(i + 1, j + 1);
      }
    }
    forall i | 0 <= i < |c.matches|
      ensures Resolves(f, c.matches[i])
    {
      var m := c.matches[i];
      assert Backed(d.components, d.affected, d.matches[i]);
      ComponentOf(d, f, m);
    }
    assert Matched(d.matches, first.id);
  }

  lemma ComponentOf(d: Draft, f: A.Facts, m: A.TargetMatch)
    requires Backed(d.components, d.affected, m) && f.affected == d.affected
    requires d.components[m.item].id == m.item
    requires forall x :: x in f.components <==> x.id in d.components && d.components[x.id] == x
    ensures Resolves(f, m)
  {
    hide Fits;
    var b :| 0 <= b < |d.affected| && Fits(d.components[m.item], d.affected[b], m);
    assert d.components[m.item] in f.components;
    var a :| 0 <= a < |f.components| && f.components[a] == d.components[m.item];
    assert Fits(f.components[a], f.affected[b], m);
  }

  // ---------- scans that pass validateState ----------

  /** A query with a hit in the group. */
  ghost predicate Hits(g: Group, i: nat) {
    i < |g.state.report.queries|
    && exists k :: 0 <= k < |g.state.report.queries[i].matches| && IsHit(g.dossier, g.state.report.queries[i].matches[k])
  }

  ghost predicate GoodOrigins(g: Group, i: nat) {
    i < |g.state.report.queries| && forall k :: 0 <= k < |g.state.report.queries[i].origins| ==>
      GoodOrigin(g, g.state.report.queries[i].query, g.state.report.queries[i].origins[k])
  }

  /** For a scan that passes `validateState`, the checks on queries, matches and documents are met: only
      the origins of a hit can keep it from being prepared. */
  lemma ValidScanPrepares(g: Group, plan: PlanReport, i: nat)
    requires ValidState(g.rules, g.state) && IsPlan(g.rules, g.state.profile, plan)
    requires IsDossier(g.dossier, g.state.report.records) && Hits(g, i)
    ensures GoodQuery(g, plan, i) <==> GoodOrigins(g, i)
  {
    hide ValidState, IsPlan, Evident, Coherent, GoodOrigin, IsDossier;
    var q := g.state.report.queries[i];
    assert q in g.state.report.queries;
    ValidIsEvident(g.rules, g.state, g.dossier, q);
    ValidIsPlanned(g.rules, g.state, plan);
    assert plan.queries[i] == PlannedQuery(q.query, q.origins);
    PlannedHasOrigin(g.rules, g.state.profile, plan, i);
  }

  lemma ValidIsPlanned(rules: Rules, s: State, plan: PlanReport)
    requires ValidState(rules, s) && IsPlan(rules, s.profile, plan)
    ensures plan == ReportPlan(s.report)
  {
    ValidStateIff(rules, s);
    hide ValidHeader, ValidRecords, ValidEnrichments, ValidRetained, ValidClosing, IsPlan;
    PlanUnique(rules, s.profile, plan, ReportPlan(s.report));
  }

  lemma PlannedHasOrigin(rules: Rules, profile: Profile, plan: PlanReport, i: nat)
    requires IsPlan(rules, profile, plan) && i < |plan.queries|
    ensures plan.queries[i].origins != []
  {
    var q := plan.queries[i].query;
    assert Asked(plan)[i] in Asked(plan) && q in QueriesOf(rules, profile.components);
    var c :| c in profile.components && rules.classify(c) == Query(q);
    OriginMembers(rules, profile.components, q, c);
    SortedMembers(rules, OriginsOf(rules, profile.components, q), c);
  }
}
