module ScanRun {
  // Producing a scan report: `Run` (src/reposcan/run.go), against any behaviour of the OSV and NVD
  // clients and any cancellation.  The main result says when the report is one that
  // `validateState` accepts.

  import opened ScanTypes
  import opened Text
  import opened AdvisoryGroups
  import opened ScanReport
  import opened ScanValidate
  import ScanSummary
  import opened ScanDiscovery
  import opened ScanEnrichment

  // ---------- the whole run ----------

  /** The CVEs that the advisories served for a plan go by. */
  ghost function CVEsServed(w: World, plan: PlanReport): set<string> {
    ServedCVEs(w, LoadedBy(w, plan, |plan.queries|))
  }

  predicate OrderlyClock(w: World) {
    w.startedAt != 0 && w.finishedAt != 0 && w.startedAt <= w.finishedAt
  }

  /** A finished report stands up to every check; only an empty failure text can spoil it. */
  lemma RunIsValid(rules: Rules, w: World, profile: Profile, plan: PlanReport, d: Discovery, cves: seq<string>, failed: bool, r: Report)
    requires OrderlyClock(w) && ValidProfile(profile) && IsPlan(rules, profile, plan) && d.For(plan, |plan.queries|)
    requires profile.warnings <= d.warnings <= r.warnings
    requires cves == Arrange(ExpectedCVEs(d.book.records)) && Enriched(w, d.book.records, cves, r.records)
    requires |r.enrichment| == |cves| && forall j :: 0 <= j < |cves| ==> r.enrichment[j] == EnrichmentOf(w, cves[j])
    requires failed <==> exists j :: 0 <= j < |cves| && EnrichmentOf(w, cves[j]).status.Failed?
    requires r.repository == profile.repository && r.startedAt == w.startedAt && r.finishedAt == w.finishedAt
    requires r.acquisition.AcquiredComplete? && r.runtimeImpact == UNKNOWN_IMPACT && !r.status.StatusOther?
    requires r.queries == d.queries && r.unqueried == plan.unqueried && r.retained == map[]
    requires r.status.StatusComplete? ==> plan.unqueried == [] && profile.warnings == []
    requires d.incomplete || failed ==> !r.status.StatusComplete? && !r.refreshComplete
    requires IsGrouping(r.records, r.groups) && ScanSummary.IsSummary(rules.canonical, profile, r, r.ecosystems)
    ensures ValidState(rules, State(SCHEMA_VERSION, profile, r)) <==> FailuresHaveText(w, ExpectedCVEs(r.records))
  {
    hide ValidState, ValidCoverage, ValidEnrichments, ValidClosing, ValidRecords;
    ValidStateIff(rules, State(SCHEMA_VERSION, profile, r));
    CVEsAreCVEs(d.book.records, cves);
    EnrichedIsValid(w, d.book, cves, r.records);
    EnrichedSameCVEs(w, d.book, cves, r.records);
    EnrichmentsValidIff(w, d.book, cves, r);
    CoverageIsValid(rules, w, profile, plan, d, cves, r);
    ClosingIsValid(rules, profile, d, r);
  }

  lemma CoverageIsValid(rules: Rules, w: World, profile: Profile, plan: PlanReport, d: Discovery, cves: seq<string>, r: Report)
    requires IsPlan(rules, profile, plan) && d.For(plan, |plan.queries|)
    requires Enriched(w, d.book.records, cves, r.records)
    requires r.queries == d.queries && r.unqueried == plan.unqueried
    requires r.status.StatusComplete? ==> plan.unqueried == [] && profile.warnings == []
    requires d.incomplete ==> !r.status.StatusComplete? && !r.refreshComplete
    ensures ValidCoverage(rules, State(SCHEMA_VERSION, profile, r))
  {
    forall i | 0 <= i < |r.queries|
      ensures ValidQuery(r, r.queries[i])
    {
      DoneIsValid(w, d.book, cves, r, d.queries[i]);
    }
    assert ReportPlan(r) == plan;
  }

  lemma ClosingIsValid(rules: Rules, profile: Profile, d: Discovery, r: Report)
    requires profile.warnings <= d.warnings <= r.warnings
    requires ScanSummary.IsSummary(rules.canonical, profile, r, r.ecosystems)
    ensures ValidClosing(rules, State(SCHEMA_VERSION, profile, r))
  {
  }

  lemma RunIsBuilt(rules: Rules, w: World, profile: Profile, plan: PlanReport, d: Discovery, cves: seq<string>, failed: bool, r: Report)
    requires IsPlan(rules, profile, plan) && d.For(plan, |plan.queries|) && d.From(w, plan, |plan.queries|)
    requires cves == Arrange(ExpectedCVEs(d.book.records)) && Enriched(w, d.book.records, cves, r.records)
    requires LookedUp(w, r.enrichment, cves)
    requires failed <==> exists j :: 0 <= j < |cves| && EnrichmentOf(w, cves[j]).status.Failed?
    requires r.queries == d.queries && r.unqueried == plan.unqueried
    requires r.repository == profile.repository && r.acquisition.AcquiredComplete? && r.retained == map[]
    requires IsGrouping(r.records, r.groups) && ScanSummary.IsSummary(rules.canonical, profile, r, r.ecosystems)
    requires r.refreshComplete <==> !w.missingContext && !w.negativeInterval && !w.cancelledEnd && !d.incomplete && !failed
    requires r.status.StatusComplete? <==> r.refreshComplete && r.unqueried == [] && profile.warnings == []
    ensures Built(rules, w, profile, r) && ExpectedCVEs(r.records) == CVEsServed(w, plan)
  {
    hide IsPlan, ExpectedCVEs, Enriched, LoadedBy, CompleteBy, AnsweredIds, EnrichmentOf, Done, Book.Ok, Agrees, Documents, ServedCVEs, Judged, ErrorOf;
    assert ReportPlan(r) == plan;
    RunIsJudged(w, plan, d, cves, r);
    EnrichedSameCVEs(w, d.book, cves, r.records);
    RecordedCVEs(w, d.book);
    EnrichedDocuments(w, d.book, cves, ExpectedCVEs(d.book.records), r.records);
    assert failed <==> AnyFailed(r);
  }

  lemma RunIsJudged(w: World, plan: PlanReport, d: Discovery, cves: seq<string>, r: Report)
    requires d.For(plan, |plan.queries|) && Enriched(w, d.book.records, cves, r.records) && r.queries == d.queries
    ensures forall i :: 0 <= i < |r.queries| ==> Judged(r, r.queries[i])
  {
    hide Enriched, Book.Ok, ExpectedMatches, ExpectedOutcome;
    forall i | 0 <= i < |r.queries|
      ensures Judged(r, r.queries[i])
    {
      assert Done(d.book, d.queries[i]);
      MatchesEnriched(w, d.book, cves, r.records, r.queries[i].query, r.queries[i].ids);
    }
  }

  /** A lookup that fails without saying why spoils the report: it is recorded as a failure with an
      empty text, which `validateState` does not accept. */
  lemma SilentFailureRejected(rules: Rules, w: World, profile: Profile, r: Report, id: string)
    requires Built(rules, w, profile, r) && id in CVEsServed(w, ReportPlan(r))
    requires w.nvd && !w.negativeInterval && w.lookup(id) == LookupFailed("")
    ensures !ValidState(rules, State(SCHEMA_VERSION, profile, r))
  {
    hide IsPlan, Documents, LoadedBy, ServedCVEs, IsGrouping, ValidRecords, ValidCoverage, ValidClosing;
    SilentLookupInvalid(w, r, Arrange(CVEsServed(w, ReportPlan(r))), id);
    ValidStateIff(rules, State(SCHEMA_VERSION, profile, r));
  }

  lemma SilentLookupInvalid(w: World, r: Report, cves: seq<string>, id: string)
    requires LookedUp(w, r.enrichment, cves) && id in cves
    requires w.nvd && !w.negativeInterval && w.lookup(id) == LookupFailed("")
    ensures !AllLookups(r, r.enrichment)
  {
  }

  const CVE := "CVE-2024-0001"
  const LEFT_PAD := Component("c1", "pkg:npm/left-pad@1.3.0", "npm", "", "left-pad", "1.3.0", "", "package-lock.json")
  const ASKED := PackageVersion("npm", "left-pad", "1.3.0")
  const PROFILE := Profile(Repository("r1", "https://example.org/r1", "main", "c0ffee"), ["npm"], [LEFT_PAD], [])
  const ADVISORY := Advisory(CVE, [], "", [Affected("npm", "left-pad", [])])

  /** One package with one advisory, whose lookup in NVD fails without a text. */
  function Silent(): World {
    World(true, true, false, false, true, [Answer(ASKED, [CVE], true, "")], n => false,
          id => Fetched(Decoded(ADVISORY, "")), id => LookupFailed(""), false, 1, 2)
  }

  /** So there is an input for which `Run` makes a report that cannot be saved. */
  lemma SilentRunRejected(rules: Rules, r: Report)
    requires rules.classify(LEFT_PAD) == Query(ASKED) && Built(rules, Silent(), PROFILE, r)
    ensures ValidProfile(PROFILE) && OrderlyClock(Silent())
    ensures !ValidState(rules, State(SCHEMA_VERSION, PROFILE, r))
  {
    hide ValidState, Built, IsPlan, LoadedBy, LoadedAmong, IsCVE;
    var plan := ReportPlan(r);
    BuiltOnPlan(rules, Silent(), PROFILE, r);
    SilentAsks(rules, plan);
    SilentLoads(plan);
    CVEIsCVE();
    assert NamesOf(Silent(), CVE)[0] == CVE && CVE in CVEsServed(Silent(), plan);
    SilentFailureRejected(rules, Silent(), PROFILE, r, CVE);
  }

  lemma BuiltOnPlan(rules: Rules, w: World, profile: Profile, r: Report)
    requires Built(rules, w, profile, r)
    ensures IsPlan(rules, profile, ReportPlan(r))
  {
    hide IsPlan, Judged, Documents, LookedUp, IsGrouping, LoadedBy, ErrorOf;
  }

  lemma SilentAsks(rules: Rules, plan: PlanReport)
    requires rules.classify(LEFT_PAD) == Query(ASKED) && IsPlan(rules, PROFILE, plan)
    ensures |plan.queries| == 1 && plan.queries[0].query == ASKED
  {
    assert [LEFT_PAD][0] == LEFT_PAD && [LEFT_PAD][..0] == [];
    assert QueriesOf(rules, PROFILE.components) == {ASKED};
    OneQuery(rules, plan);
  }

  lemma SilentLoads(plan: PlanReport)
    requires |plan.queries| == 1 && plan.queries[0].query == ASKED
    ensures CVE in LoadedBy(Silent(), plan, 1)
  {
    CVEIsCVE();
    assert CVE in AnsweredIds(Silent(), plan, 0) by {
      assert CVE in [CVE] && CVE in NonEmpty([CVE]);
    }
    assert CVE in LoadedAmong(Silent(), AnsweredIds(Silent(), plan, 0));
  }

  lemma CVEIsCVE()
    ensures IsCVE(CVE) && ValidText(CVE)
  {
  }

  lemma OneQuery(rules: Rules, plan: PlanReport)
    requires AscendingBy(rules.queryKey, Asked(plan)) && forall q :: q in Asked(plan) <==> q == ASKED
    ensures |plan.queries| == 1 && plan.queries[0].query == ASKED
  {
    assert ASKED in Asked(plan);
    if |plan.queries| > 1 {
      assert Asked(plan)[0] in Asked(plan) && Asked(plan)[1] in Asked(plan);
      LessIrreflexive(rules.queryKey(ASKED));
    }
    assert Asked(plan)[0] in Asked(plan);
  }

  /** The warnings a report starts with. */
  method OpeningWarnings(w: World, profile: Profile) returns (warnings: seq<string>)
    ensures profile.warnings <= warnings
  {
    warnings := profile.warnings + ["OS and deployment environment unevaluated; runtime impact unknown",
                                    "Workspace and dependency path unavailable in repository profile"];
    if !w.nvd {
      warnings := warnings + ["NVD metadata not checked"];
    }
  }

  method ConfigWarnings(w: World, before: seq<string>) returns (warnings: seq<string>)
    ensures before <= warnings
  {
    warnings := before;
    if w.missingContext {
      warnings := warnings + ["Missing context"];
    }
    if w.negativeInterval {
      warnings := warnings + ["NVD interval must not be negative"];
    }
  }

  ghost predicate AllComplete(r: Report) {
    forall i :: 0 <= i < |r.queries| ==> r.queries[i].complete
  }

  ghost predicate AnyFailed(r: Report) {
    exists j :: 0 <= j < |r.enrichment| && r.enrichment[j].status.Failed?
  }

  /** The evidence and the outcome of a package follow from the documents on record, and an incomplete
      package has an error. */
  ghost predicate Judged(r: Report, q: PackageResult) {
    && q.matches == ExpectedMatches(r.records, q.query, q.ids)
    && q.outcome == ExpectedOutcome(q)
    && (q.complete <==> q.error == "")
  }

  /** What the report says comes from the clients, and only from them: the identifiers and the
      completeness of every package, the documents on record, the lookups, and the two claims of
      completeness, neither of which is made or withheld without reason. */
  ghost predicate Built(rules: Rules, w: World, profile: Profile, r: Report) {
    var plan := ReportPlan(r);
    var loaded := LoadedBy(w, plan, |plan.queries|);
    && r.repository == profile.repository && r.acquisition.AcquiredComplete? && r.retained == map[]
    && IsPlan(rules, profile, plan)
    && (forall i :: 0 <= i < |r.queries| ==> Judged(r, r.queries[i]))
    && IsGrouping(r.records, r.groups) && ScanSummary.IsSummary(rules.canonical, profile, r, r.ecosystems)
    && (forall i :: 0 <= i < |r.queries| ==> r.queries[i].error == ErrorOf(w, plan, i))
    && (forall i :: 0 <= i < |r.queries| ==> r.queries[i].ids == AnsweredIds(w, plan, i) && (r.queries[i].complete <==> CompleteBy(w, plan, i)))
    && Documents(w, loaded, CVEsServed(w, plan), r.records)
    && LookedUp(w, r.enrichment, Arrange(CVEsServed(w, plan)))
    && (r.refreshComplete <==> !w.missingContext && !w.negativeInterval && !w.cancelledEnd && AllComplete(r) && !AnyFailed(r))
    && (r.status.StatusComplete? <==> r.refreshComplete && r.unqueried == [] && profile.warnings == [])
  }

  ghost predicate LookedUp(w: World, es: seq<Enrichment>, cves: seq<string>) {
    |es| == |cves| && forall j :: 0 <= j < |cves| ==> es[j] == EnrichmentOf(w, cves[j])
  }

  method Run(rules: Rules, w: World, profile: Profile) returns (r: Report)
    requires rules.Injective()
    ensures r.repository == profile.repository && r.retained == map[]
    ensures ValidText(profile.repository.id) && ValidText(profile.repository.commitSHA) ==> Built(rules, w, profile, r)
    ensures OrderlyClock(w) && ValidProfile(profile) ==> forall plan :: IsPlan(rules, profile, plan) ==>
      (ValidState(rules, State(SCHEMA_VERSION, profile, r)) <==> FailuresHaveText(w, CVEsServed(w, plan)))
    ensures !(ValidText(profile.repository.id) && ValidText(profile.repository.commitSHA)) ==> NothingDone(profile, r)
    ensures !ValidProfile(profile) ==> !ValidState(rules, State(SCHEMA_VERSION, profile, r))
  {
    var warnings := OpeningWarnings(w, profile);
    if ValidProfile(profile) {
      r := RunValid(rules, w, profile, warnings);
    } else {
      r := Refuse(rules, w, profile, warnings);
      ValidStateIff(rules, State(SCHEMA_VERSION, profile, r));
    }
  }

  method RunValid(rules: Rules, w: World, profile: Profile, opening: seq<string>) returns (r: Report)
    requires rules.Injective() && ValidProfile(profile) && profile.warnings <= opening
    ensures r.repository == profile.repository && r.retained == map[] && Built(rules, w, profile, r)
    ensures OrderlyClock(w) ==> forall plan :: IsPlan(rules, profile, plan) ==>
      (ValidState(rules, State(SCHEMA_VERSION, profile, r)) <==> FailuresHaveText(w, CVEsServed(w, plan)))
  {
    hide ValidState, IsPlan, IsGrouping, ExpectedCVEs, Built, Enriched, LoadedBy;
    var plan := Plan(rules, profile);
    var warnings := ConfigWarnings(w, opening);
    var d := RunQueries(w, plan, warnings);
    var cves := CVEsToLookUp(d.book.records);
    NoNvdKeys(d.book);
    var records, enrichment, failed := Enrich(w, d.book.records, cves);
    var groups := GroupRecords(records);
    var cancelled := w.cancelledEnd && !w.missingContext;
    var refreshed := !w.missingContext && !w.negativeInterval && !d.incomplete && !failed && !cancelled;
    var complete := refreshed && |plan.unqueried| == 0 && |profile.warnings| == 0;
    warnings := d.warnings;
    if cancelled {
      warnings := warnings + ["context canceled"];
    }
    r := Report(profile.repository, w.startedAt, w.finishedAt, AcquiredComplete,
                if complete then StatusComplete else StatusIncomplete, refreshed,
                d.queries, plan.unqueried, records, map[], groups, warnings, [], enrichment, UNKNOWN_IMPACT);
    r := Summarized(rules, profile, r);
    RunIsBuilt(rules, w, profile, plan, d, cves, failed, r);
    if OrderlyClock(w) {
      RunIsValid(rules, w, profile, plan, d, cves, failed, r);
    }
    forall other | IsPlan(rules, profile, other)
      ensures other == plan
    {
      PlanUnique(rules, profile, other, plan);
    }
  }

  /** The summaries, written when everything else of the report is final. */
  method Summarized(rules: Rules, profile: Profile, start: Report) returns (r: Report)
    ensures r == start.(ecosystems := r.ecosystems)
    ensures ScanSummary.IsSummary(rules.canonical, profile, r, r.ecosystems)
  {
    var ecosystems := ScanSummary.Summarize(rules.canonical, profile, start);
    r := start.(ecosystems := ecosystems);
  }

  /** A scan that has asked nobody: every component is left unqueried, and no claim is made. */
  ghost predicate NothingDone(profile: Profile, r: Report) {
    && r.queries == [] && r.records == map[] && r.enrichment == [] && r.groups == []
    && !r.refreshComplete && r.status == StatusIncomplete
    && |r.unqueried| == |profile.components|
    && forall i :: 0 <= i < |r.unqueried| ==>
         r.unqueried[i] == Unqueried(profile.components[i], "invalid repository profile")
  }

  /** An invalid profile is reported without looking at anything. */
  method Refuse(rules: Rules, w: World, profile: Profile, opening: seq<string>) returns (r: Report)
    ensures r.repository == profile.repository && r.retained == map[] && r.acquisition.AcquiredUnknown?
    ensures NothingDone(profile, r)
  {
    var warnings := opening + ["Invalid profile: repository ID and commit SHA are required"];
    var unqueried: seq<Unqueried> := [];
    for i := 0 to |profile.components|
      invariant |unqueried| == i
      invariant forall j :: 0 <= j < i ==> unqueried[j] == Unqueried(profile.components[j], "invalid repository profile")
    {
      unqueried := unqueried + [Unqueried(profile.components[i], "invalid repository profile")];
    }
    r := Report(profile.repository, w.startedAt, w.finishedAt, AcquiredUnknown, StatusIncomplete, false,
                [], unqueried, map[], map[], [], warnings, [], [], UNKNOWN_IMPACT);
    r := Summarized(rules, profile, r);
  }
}
