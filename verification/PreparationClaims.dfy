/** What preparing a group asks of the scan, said from the saved state alone: of the snapshot, of each
    query with a hit, of the advisories behind the hits and of the components that asked. */
module PreparationClaims {
  import opened ScanTypes
  import opened Strings
  import opened ScanReport
  import opened ScanValidate
  import opened HitEvidence
  import opened Preparation
  import Text
  import A = Assessment
  import AC = AssessmentClaims

  // ---------- the components ----------

  /** A component that can be pointed at: it is once in the profile, it says where it was found, it has
      the version that was asked about, and that version is pinned. */
  ghost predicate Pointable(g: Preparation.Group, q: PackageVersion, c: Component) {
    && |AC.ComponentsAt(g.state.profile.components, c.id)| == 1
    && Trim(c.id) != "" && Trim(c.sourcePath) != ""
    && c.version == q.version && g.pinned(c.ecosystem, c.version)
    && (c.purl == "" || exists rest :: rest != "" && c.purl == "pkg:" + rest)
  }

  lemma GoodIsPointable(g: Preparation.Group, q: PackageVersion, c: Component)
    ensures GoodOrigin(g, q, c) <==> Pointable(g, q, c)
  {
    hide Trim;
    AC.ComponentsCounted(g.state.profile.components, c.id);
    AC.PURLIff(c.purl);
  }

  lemma {:induction false} OriginsAre(g: Preparation.Group, indices: seq<nat>, c: Component)
    ensures c in OriginsOfQueries(g, indices) <==>
      exists i :: i in indices && i < |g.state.report.queries| && c in g.state.report.queries[i].origins
  {
    if indices != [] {
      var n := |indices| - 1;
      assert indices == indices[..n] + [indices[n]];
      OriginsAre(g, indices[..n], c);
    }
  }

  // ---------- the evidence ----------

  /** The advisory on record for a match stands, is one that the query found, names the package, and
      gives the fixed versions that the match gives. */
  ghost predicate Supported(d: Dossier, q: PackageResult, m: Match) {
    && m.reason == "" && m.recordKey in d.documents
    && d.documents[m.recordKey].withdrawn == "" && d.documents[m.recordKey].id in q.ids
    && (exists x :: x in d.documents[m.recordKey].affected && x.ecosystem == q.query.ecosystem && x.name == q.query.name)
    && forall f :: f != "" ==> (f in m.fixedVersions <==> GivesFix(d.documents[m.recordKey], q.query, f))
  }

  /** The advisory lists a version as fixed for exactly this package. */
  ghost predicate GivesFix(a: Advisory, q: PackageVersion, fixed: string) {
    exists x, range :: x in a.affected && x.ecosystem == q.ecosystem && x.name == q.name && range in x.ranges && fixed in range
  }

  lemma ProvesIsSupported(d: Dossier, q: PackageResult, m: Match)
    ensures Proves(d, q, m) <==> Supported(d, q, m)
  {
    if m.recordKey in d.documents {
      var a := d.documents[m.recordKey];
      NamesAre(a, q.query);
      FixesAre(a, q.query, m.fixedVersions);
    }
  }

  lemma NamesAre(a: Advisory, q: PackageVersion)
    ensures NamesPackage(a, q) <==> exists x :: x in a.affected && x.ecosystem == q.ecosystem && x.name == q.name
  {
    if NamesPackage(a, q) {
      var x :| x in a.affected && Concerns(x, q);
    }
    if x :| x in a.affected && x.ecosystem == q.ecosystem && x.name == q.name {
      assert Concerns(x, q);
    }
  }

  lemma FixesAre(a: Advisory, q: PackageVersion, given: seq<string>)
    ensures Text.Uniq(given) == Text.Arrange(FixSet(a, q)) <==> forall f :: f != "" ==> (f in given <==> GivesFix(a, q, f))
  {
    var fixes := FixSet(a, q);
    forall f
      ensures f in fixes <==> f != "" && GivesFix(a, q, f)
    {
      if f in fixes {
        var x, range :| x in a.affected && Concerns(x, q) && range in x.ranges && f in range;
      }
    }
    SameArranged(Text.NonEmpty(given), fixes);
    assert Text.NonEmpty(given) == fixes <==> forall f :: f != "" ==> (f in given <==> f in fixes);
  }

  lemma SameArranged(a: set<string>, b: set<string>)
    ensures Text.Arrange(a) == Text.Arrange(b) <==> a == b
  {
    if Text.Arrange(a) == Text.Arrange(b) {
      assert forall x :: x in a <==> x in Text.Arrange(a);
      assert forall x :: x in b <==> x in Text.Arrange(b);
    }
  }

  /** A match that affects, of a record of the group. */
  ghost predicate IsPositive(d: Dossier, m: Match) {
    m.recordKey in d.keys && m.outcome == AffectedVersionMatch
  }

  /** Two matches that say the same, whatever the order and repetition of their fixed versions. */
  ghost predicate SayTheSame(m: Match, n: Match) {
    && m.recordKey == n.recordKey && m.outcome == n.outcome && m.reason == n.reason
    && forall f :: f != "" ==> (f in m.fixedVersions <==> f in n.fixedVersions)
  }

  lemma SameNonEmpty(a: seq<string>, b: seq<string>)
    ensures Text.NonEmpty(a) == Text.NonEmpty(b) <==> forall f :: f != "" ==> (f in a <==> f in b)
  {
    forall f
      ensures f in Text.NonEmpty(a) <==> f != "" && f in a
      ensures f in Text.NonEmpty(b) <==> f != "" && f in b
    {
    }
    if Text.NonEmpty(a) == Text.NonEmpty(b) {
      forall f | f != ""
        ensures f in a <==> f in b
      {
        assert f in Text.NonEmpty(a) <==> f in Text.NonEmpty(b);
      }
    }
  }

  lemma NormalsAgree(m: Match, n: Match)
    ensures Normal(m) == Normal(n) <==> SayTheSame(m, n)
  {
    SameArranged(Text.NonEmpty(m.fixedVersions), Text.NonEmpty(n.fixedVersions));
    SameNonEmpty(m.fixedVersions, n.fixedVersions);
  }

  /** The matches of a query are evidence for a group: none contradicts another of the same record,
      every positive one is supported, and there is one. */
  ghost predicate EvidenceFor(d: Dossier, q: PackageResult) {
    && (forall m, n :: m in q.matches && n in q.matches && m.recordKey == n.recordKey && m.recordKey in d.keys ==> SayTheSame(m, n))
    && (forall m :: m in q.matches && IsPositive(d, m) ==> Supported(d, q, m))
    && exists m :: m in q.matches && IsPositive(d, m)
  }

  lemma EvidentIff(d: Dossier, q: PackageResult)
    ensures Evident(d, q) <==> EvidenceFor(d, q)
  {
    hide Normal, Proves, Supported, SayTheSame;
    forall m
      ensures Proves(d, q, m) <==> Supported(d, q, m)
      ensures IsHit(d, m) <==> IsPositive(d, m)
    {
      ProvesIsSupported(d, q, m);
    }
    forall m, n
      ensures Normal(m) == Normal(n) <==> SayTheSame(m, n)
    {
      NormalsAgree(m, n);
    }
    if EvidenceFor(d, q) {
      var m :| m in q.matches && IsPositive(d, m);
      var k :| 0 <= k < |q.matches| && q.matches[k] == m;
      assert IsHit(d, q.matches[k]);
    }
    if Evident(d, q) {
      EvidentPairs(d, q);
      forall m | m in q.matches && IsPositive(d, m)
        ensures Supported(d, q, m)
      {
        var k :| 0 <= k < |q.matches| && q.matches[k] == m;
        assert IsHit(d, q.matches[k]);
      }
    }
  }

  lemma EvidentPairs(d: Dossier, q: PackageResult)
    requires Evident(d, q)
    ensures forall m, n :: m in q.matches && n in q.matches && m.recordKey == n.recordKey && m.recordKey in d.keys ==> Normal(m) == Normal(n)
  {
    hide Normal, Proves;
    forall m, n | m in q.matches && n in q.matches && m.recordKey == n.recordKey && m.recordKey in d.keys
      ensures Normal(m) == Normal(n)
    {
      var i :| 0 <= i < |q.matches| && q.matches[i] == m;
      var j :| 0 <= j < |q.matches| && q.matches[j] == n;
      if i < j {
        assert Normal(q.matches[i]) == Normal(q.matches[j]);
      } else if j < i {
        assert Normal(q.matches[j]) == Normal(q.matches[i]);
      }
    }
  }

  // ---------- the query and the group ----------

  /** What preparation asks of a query with a hit. */
  ghost predicate Convincing(g: Preparation.Group, plan: PlanReport, i: nat) {
    && i < |g.state.report.queries|
    && var q := g.state.report.queries[i];
       && PlannedQuery(q.query, q.origins) in plan.queries && q.origins != []
       && q.outcome == AffectedVersionMatch && q.runtimeImpact == "unknown"
       && (if q.complete then q.error == "" else g.state.report.status != StatusComplete && !g.state.report.refreshComplete)
       && EvidenceFor(g.dossier, q)
       && forall c :: c in q.origins ==> Pointable(g, q.query, c)
  }

  lemma GoodIsConvincing(g: Preparation.Group, plan: PlanReport, i: nat)
    ensures GoodQuery(g, plan, i) <==> Convincing(g, plan, i)
  {
    hide GoodOrigin, Pointable, Evident, EvidenceFor;
    if i < |g.state.report.queries| {
      var q := g.state.report.queries[i];
      EvidentIff(g.dossier, q);
      forall c
        ensures GoodOrigin(g, q.query, c) <==> Pointable(g, q.query, c)
      {
        GoodIsPointable(g, q.query, c);
      }
    }
  }

  /** A group is drafted exactly when it has a name, its records are good, and every query that hits it
      convinces. */
  lemma DraftableIff(g: Preparation.Group, plan: PlanReport)
    requires IsPlan(g.rules, g.state.profile, plan)
    ensures Draftable(g) <==> Trim(g.id) != "" && g.recordsOk && forall i :: i in g.indices ==> Convincing(g, plan, i)
  {
    hide IsPlan, GoodQuery, Convincing, Trim;
    forall i
      ensures GoodQuery(g, plan, i) <==> Convincing(g, plan, i)
    {
      GoodIsConvincing(g, plan, i);
    }
    forall p | IsPlan(g.rules, g.state.profile, p)
      ensures p == plan
    {
      PlanUnique(g.rules, g.state.profile, p, plan);
    }
    assert AllGood(g, plan) <==> forall i :: i in g.indices ==> GoodQuery(g, plan, i);
  }

  /** The snapshot that a candidate is emitted for is identified, finished and one scan. */
  lemma SnapshotIff(s: State)
    ensures SnapshotOk(s) <==>
      && s.schemaVersion == 1 && s.report.repository == s.profile.repository
      && Trim(s.profile.repository.id) != "" && Trim(s.profile.repository.commitSHA) != "" && Trim(s.profile.repository.canonicalURL) != ""
      && s.report.acquisition == AcquiredComplete && s.report.status in {StatusComplete, StatusIncomplete}
      && s.report.runtimeImpact == "unknown"
  {
    hide Trim;
  }

  /** For a scan that passes validateState only a missing URL is left to object to. */
  lemma ValidSnapshot(rules: Rules, s: State)
    requires ValidState(rules, s)
    ensures SnapshotOk(s) <==> Trim(s.profile.repository.canonicalURL) != ""
  {
    ValidStateIff(rules, s);
    ValidTextIff(s.profile.repository.id);
    ValidTextIff(s.profile.repository.commitSHA);
  }
}
