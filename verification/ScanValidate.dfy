module ScanValidate {
  // Acceptance of a saved scan: `validateState` and `validateSourceRecord` (src/reposcan/state.go).
  // `ValidState` says what an acceptable state is; the methods below are the checks as the code
  // makes them, and accept exactly those states.

  import opened ScanTypes
  import opened Text
  import opened AdvisoryGroups
  import opened GroupOrder
  import opened ScanReport
  import ScanSummary

  const MISMATCH := "advisory affected packages do not match queried ecosystem/name"

  function OsvKey(id: string): string { "osv:" + id }

  function NvdKey(id: string): string { "nvd:" + id }

  lemma KeysApart(a: string, b: string)
    ensures OsvKey(a) == OsvKey(b) <==> a == b
    ensures NvdKey(a) == NvdKey(b) <==> a == b
    ensures OsvKey(a) != NvdKey(b)
  {
    assert OsvKey(a)[4..] == a && OsvKey(b)[4..] == b && NvdKey(a)[4..] == a && NvdKey(b)[4..] == b;
    assert OsvKey(a)[0] == 'o' && NvdKey(b)[0] == 'n';
  }

  // ---------- matches ----------

  predicate Concerns(x: Affected, q: PackageVersion) {
    x.ecosystem == q.ecosystem && x.name == q.name
  }

  /** The fixed versions an advisory gives for exactly this package. */
  ghost function FixSet(a: Advisory, q: PackageVersion): set<string> {
    set x, r, f | x in a.affected && Concerns(x, q) && r in x.ranges && f in r && f != "" :: f
  }

  ghost predicate NamesPackage(a: Advisory, q: PackageVersion) {
    exists x :: x in a.affected && Concerns(x, q)
  }

  /** The evidence an advisory gives about a queried package. */
  ghost function MatchOf(q: PackageVersion, a: Advisory): Match {
    if a.withdrawn != "" then Match(OsvKey(a.id), Withdrawn, "", [])
    else if NamesPackage(a, q) then Match(OsvKey(a.id), AffectedVersionMatch, "", Arrange(FixSet(a, q)))
    else Match(OsvKey(a.id), Unknown, MISMATCH, [])
  }

  /** The evidence of all current records with the given identifiers. */
  ghost function ExpectedMatches(records: Records, q: PackageVersion, ids: seq<string>): seq<Match> {
    if ids == [] then []
    else
      var last := |ids| - 1;
      var before := ExpectedMatches(records, q, ids[..last]);
      var key := OsvKey(ids[last]);
      if key in records && records[key].raw.Decoded? then before + [MatchOf(q, records[key].raw.advisory)] else before
  }

  ghost predicate HasAffected(matches: seq<Match>) {
    exists m :: m in matches && m.outcome == AffectedVersionMatch
  }

  ghost function ExpectedOutcome(q: PackageResult): Outcome {
    if HasAffected(q.matches) then AffectedVersionMatch
    else if q.complete && q.ids == [] then NoAdvisoryFound
    else Unknown
  }

  // ---------- valid parts ----------

  function ReportPlan(r: Report): (p: PlanReport)
    ensures |p.queries| == |r.queries| && p.unqueried == r.unqueried
    ensures forall i :: 0 <= i < |r.queries| ==> p.queries[i] == PlannedQuery(r.queries[i].query, r.queries[i].origins)
  {
    PlanReport(seq(|r.queries|, i requires 0 <= i < |r.queries| => PlannedQuery(r.queries[i].query, r.queries[i].origins)), r.unqueried)
  }

  ghost predicate HasEvidence(r: Report, q: PackageResult, id: string) {
    if OsvKey(id) in r.records then r.records[OsvKey(id)].raw.Decoded? else !q.complete
  }

  ghost predicate ValidQuery(r: Report, q: PackageResult) {
    && q.runtimeImpact == UNKNOWN_IMPACT && q.workspace == UNAVAILABLE && q.dependencyPath == UNAVAILABLE
    && (q.complete ==> q.error == "")
    && (r.status.StatusComplete? || r.refreshComplete ==> q.complete)
    && (forall i :: 0 <= i < |q.ids| ==> HasEvidence(r, q, q.ids[i]))
    && q.matches == ExpectedMatches(r.records, q.query, q.ids)
    && (forall i :: 0 <= i < |q.matches| && q.matches[i].reason != "" ==> !q.complete && q.error != "")
    && q.outcome == ExpectedOutcome(q)
  }

  ghost predicate ValidRecord(key: string, rec: SourceRecord) {
    && ValidText(rec.id)
    && rec.raw.Identity() == Some(rec.id)
    && match rec.source
       case Osv =>
         && key == OsvKey(rec.id)
         && rec.raw.Decoded?
         && rec.aliases == Uniq(rec.raw.advisory.aliases)
         && rec.withdrawn == (rec.raw.advisory.withdrawn != "")
       case Nvd => key == NvdKey(rec.id) && IsCVE(rec.id) && rec.aliases == [] && !rec.withdrawn
       case Other(_) => false
  }

  /** The CVEs the current OSV records mention. */
  ghost function ExpectedCVEs(records: Records): set<string> {
    (set k | k in records && records[k].source.Osv? && IsCVE(records[k].id) :: records[k].id) +
    (set k, a | k in records && records[k].source.Osv? && a in records[k].aliases && IsCVE(a) :: a)
  }

  ghost predicate ValidLookup(r: Report, e: Enrichment) {
    && e.source.Nvd?
    && e.id in ExpectedCVEs(r.records)
    && (NvdKey(e.id) in r.records <==> e.status.Found?)
    && match e.status
       case Failed => e.error != "" && !r.status.StatusComplete? && !r.refreshComplete
       case Found => e.error == ""
       case NotFound => e.error == ""
       case NotChecked => e.error == ""
       case EnrichmentOther(_) => false
  }

  ghost predicate DistinctIds(es: seq<Enrichment>) {
    forall i, j :: 0 <= i < j < |es| ==> es[i].id != es[j].id
  }

  /** Every current NVD record is one that its lookup found. */
  ghost predicate RecordsLookedUp(r: Report) {
    forall k :: k in r.records && r.records[k].source.Nvd? ==> FoundFor(r, r.records[k].id)
  }

  ghost predicate FoundFor(r: Report, id: string) {
    exists i :: 0 <= i < |r.enrichment| && r.enrichment[i].id == id && r.enrichment[i].status.Found?
  }

  ghost predicate ValidEnrichments(r: Report) {
    && AllLookups(r, r.enrichment)
    && DistinctIds(r.enrichment)
    && |r.enrichment| == |ExpectedCVEs(r.records)|
    && RecordsLookedUp(r)
  }

  predicate OptedOut(r: Report) {
    exists i :: 0 <= i < |r.enrichment| && r.enrichment[i].source.Nvd? && r.enrichment[i].status.NotChecked?
  }

  /** The CVEs whose absence a complete refresh has established. */
  ghost function Absences(r: Report): set<string> {
    if !r.refreshComplete || !r.acquisition.AcquiredComplete? || OptedOut(r) then {}
    else set i | 0 <= i < |r.enrichment| && r.enrichment[i].source.Nvd? && r.enrichment[i].status.NotFound?
                 && r.enrichment[i].error == "" :: r.enrichment[i].id
  }

  ghost predicate ValidRetention(r: Report, key: string, rec: SourceRecord) {
    && rec.source.Nvd?
    && ValidRecord(key, rec)
    && key !in r.records
    && rec.id !in Absences(r)
  }

  ghost predicate ValidRetained(r: Report) {
    forall k :: k in r.retained ==> ValidRetention(r, k, r.retained[k])
  }

  predicate ValidProfile(p: Profile) {
    ValidText(p.repository.id) && ValidText(p.repository.commitSHA)
  }

  /** Whether the header, the timestamps and the coverage claim agree with the profile. */
  ghost predicate ValidHeader(s: State) {
    var r := s.report;
    && s.schemaVersion == SCHEMA_VERSION
    && ValidProfile(s.profile)
    && r.repository == s.profile.repository
    && r.acquisition.AcquiredComplete? && (r.status.StatusComplete? || r.status.StatusIncomplete?)
    && r.runtimeImpact == UNKNOWN_IMPACT
    && r.startedAt != 0 && r.finishedAt != 0 && r.startedAt <= r.finishedAt
  }

  /** The queries are those of the profile, and each agrees with the raw records. */
  ghost predicate ValidCoverage(rules: Rules, s: State) {
    && IsPlan(rules, s.profile, ReportPlan(s.report))
    && (forall i :: 0 <= i < |s.report.queries| ==> ValidQuery(s.report, s.report.queries[i]))
    && (s.report.status.StatusComplete? ==> s.report.unqueried == [] && s.profile.warnings == [])
  }

  ghost predicate ValidRecords(records: Records) {
    forall k :: k in records ==> ValidRecord(k, records[k])
  }

  /** The summaries are those of the report, and no warning of the profile is dropped. */
  ghost predicate ValidClosing(rules: Rules, s: State) {
    && ScanSummary.IsSummary(rules.canonical, s.profile, s.report, s.report.ecosystems)
    && forall i :: 0 <= i < |s.profile.warnings| ==> s.profile.warnings[i] in s.report.warnings
  }

  /** What an acceptable state has to meet, check by check. */
  datatype Check = OfHeader | OfCoverage | OfRecords | OfGroups | OfEnrichments | OfRetained | OfClosing

  ghost predicate Passes(rules: Rules, s: State, check: Check) {
    match check
    case OfHeader => ValidHeader(s)
    case OfCoverage => ValidCoverage(rules, s)
    case OfRecords => ValidRecords(s.report.records)
    case OfGroups => IsGrouping(s.report.records, s.report.groups)
    case OfEnrichments => ValidEnrichments(s.report)
    case OfRetained => ValidRetained(s.report)
    case OfClosing => ValidClosing(rules, s)
  }

  ghost predicate ValidState(rules: Rules, s: State) {
    forall check :: Passes(rules, s, check)
  }

  /** Acceptable is what passes all seven. */
  lemma ValidStateIff(rules: Rules, s: State)
    ensures ValidState(rules, s) <==>
      && ValidHeader(s) && ValidCoverage(rules, s) && ValidRecords(s.report.records)
      && IsGrouping(s.report.records, s.report.groups)
      && ValidEnrichments(s.report) && ValidRetained(s.report) && ValidClosing(rules, s)
  {
    hide ValidHeader, ValidCoverage, ValidRecords, IsGrouping, ValidEnrichments, ValidRetained, ValidClosing;
    assert Passes(rules, s, OfHeader) <==> ValidHeader(s);
    assert Passes(rules, s, OfCoverage) <==> ValidCoverage(rules, s);
    assert Passes(rules, s, OfRecords) <==> ValidRecords(s.report.records);
    assert Passes(rules, s, OfGroups) <==> IsGrouping(s.report.records, s.report.groups);
    assert Passes(rules, s, OfEnrichments) <==> ValidEnrichments(s.report);
    assert Passes(rules, s, OfRetained) <==> ValidRetained(s.report);
    assert Passes(rules, s, OfClosing) <==> ValidClosing(rules, s);
  }

  // ---------- the checks ----------

  method MatchAdvisory(q: PackageVersion, a: Advisory) returns (m: Match)
    ensures m == MatchOf(q, a)
  {
    m := Match(OsvKey(a.id), Unknown, "", []);
    if a.withdrawn != "" {
      return m.(outcome := Withdrawn);
    }
    var fixed: seq<string> := [];
    for i := 0 to |a.affected|
      invariant m.recordKey == OsvKey(a.id) && m.reason == "" && (m.outcome.Unknown? || m.outcome.AffectedVersionMatch?)
      invariant m.outcome.AffectedVersionMatch? <==> exists j :: 0 <= j < i && Concerns(a.affected[j], q)
      invariant NonEmpty(fixed) == FixSet(a.(affected := a.affected[..i]), q)
    {
      FixSetStep(a, q, i);
      if Concerns(a.affected[i], q) {
        m := m.(outcome := AffectedVersionMatch);
        fixed := AppendFixes(a.affected[i], fixed);
      }
    }
    assert a.affected[..|a.affected|] == a.affected;
    var distinct := Unique(fixed);
    m := m.(fixedVersions := distinct);
    if m.outcome.Unknown? {
      NoFixes(a, q);
      m := m.(reason := MISMATCH);
    }
  }

  ghost function FixesIn(x: Affected): set<string> {
    set r, f | r in x.ranges && f in r && f != "" :: f
  }

  lemma FixSetStep(a: Advisory, q: PackageVersion, i: nat)
    requires i < |a.affected|
    ensures FixSet(a.(affected := a.affected[..i + 1]), q) ==
            FixSet(a.(affected := a.affected[..i]), q) + if Concerns(a.affected[i], q) then FixesIn(a.affected[i]) else {}
  {
  }

  lemma FixesInStep(x: Affected, i: nat)
    requires i < |x.ranges|
    ensures FixesIn(x.(ranges := x.ranges[..i + 1])) == FixesIn(x.(ranges := x.ranges[..i])) + NonEmpty(x.ranges[i])
  {
  }

  lemma NonEmptyMore(values: seq<string>, v: string)
    ensures NonEmpty(values + [v]) == NonEmpty(values) + if v != "" then {v} else {}
  {
  }

  lemma NoFixes(a: Advisory, q: PackageVersion)
    requires !NamesPackage(a, q)
    ensures FixSet(a, q) == {} && Arrange({}) == []
  {
  }

  method AppendFixes(x: Affected, before: seq<string>) returns (fixed: seq<string>)
    ensures NonEmpty(fixed) == NonEmpty(before) + FixesIn(x)
  {
    fixed := before;
    for i := 0 to |x.ranges|
      invariant NonEmpty(fixed) == NonEmpty(before) + FixesIn(x.(ranges := x.ranges[..i]))
    {
      FixesInStep(x, i);
      ghost var earlier := fixed;
      for j := 0 to |x.ranges[i]|
        invariant NonEmpty(fixed) == NonEmpty(earlier) + NonEmpty(x.ranges[i][..j])
      {
        assert x.ranges[i][..j + 1] == x.ranges[i][..j] + [x.ranges[i][j]];
        NonEmptyMore(x.ranges[i][..j], x.ranges[i][j]);
        NonEmptyMore(fixed, x.ranges[i][j]);
        if x.ranges[i][j] != "" {
          fixed := fixed + [x.ranges[i][j]];
        }
      }
      assert x.ranges[i][..|x.ranges[i]|] == x.ranges[i];
      assert NonEmpty(fixed) == NonEmpty(before) + FixesIn(x.(ranges := x.ranges[..i + 1]));
    }
    assert x.ranges[..|x.ranges|] == x.ranges;
  }

  /** One saved query against the planned one and the raw records. */
  method CheckQuery(r: Report, q: PackageResult) returns (ok: bool)
    ensures ok <==> ValidQuery(r, q)
  {
    if q.runtimeImpact != UNKNOWN_IMPACT || q.workspace != UNAVAILABLE || q.dependencyPath != UNAVAILABLE {
      return false;
    }
    if q.complete && q.error != "" {
      return false;
    }
    if (r.status.StatusComplete? || r.refreshComplete) && !q.complete {
      return false;
    }
    var expected: seq<Match> := [];
    for i := 0 to |q.ids|
      invariant expected == ExpectedMatches(r.records, q.query, q.ids[..i])
      invariant forall j :: 0 <= j < i ==> HasEvidence(r, q, q.ids[j])
    {
      assert q.ids[..i + 1][..i] == q.ids[..i];
      var key := OsvKey(q.ids[i]);
      if key !in r.records {
        if q.complete {
          assert !HasEvidence(r, q, q.ids[i]);
          return false;
        }
      } else if !r.records[key].raw.Decoded? {
        assert !HasEvidence(r, q, q.ids[i]);
        return false;
      } else {
        var m := MatchAdvisory(q.query, r.records[key].raw.advisory);
        expected := expected + [m];
      }
    }
    assert q.ids[..|q.ids|] == q.ids;
    if expected != q.matches {
      return false;
    }
    ok := CheckOutcome(q);
  }

  method CheckOutcome(q: PackageResult) returns (ok: bool)
    ensures ok <==>
      && (forall i :: 0 <= i < |q.matches| && q.matches[i].reason != "" ==> !q.complete && q.error != "")
      && q.outcome == ExpectedOutcome(q)
  {
    var outcome := Unknown;
    if q.complete && |q.ids| == 0 {
      outcome := NoAdvisoryFound;
    }
    for i := 0 to |q.matches|
      invariant forall j :: 0 <= j < i && q.matches[j].reason != "" ==> !q.complete && q.error != ""
      invariant outcome == if HasAffected(q.matches[..i]) then AffectedVersionMatch
                           else if q.complete && q.ids == [] then NoAdvisoryFound else Unknown
    {
      assert q.matches[..i + 1] == q.matches[..i] + [q.matches[i]];
      if q.matches[i].reason != "" && (q.complete || q.error == "") {
        return false;
      }
      if q.matches[i].outcome == AffectedVersionMatch {
        outcome := AffectedVersionMatch;
      }
    }
    assert q.matches[..|q.matches|] == q.matches;
    ok := q.outcome == outcome;
  }

  method CheckRecord(key: string, rec: SourceRecord) returns (ok: bool)
    ensures ok <==> ValidRecord(key, rec)
  {
    if rec.source.Other? || !ValidText(rec.id) || key != rec.source.Prefix() + rec.id {
      return false;
    }
    if rec.raw.Identity() != Some(rec.id) {
      return false;
    }
    if rec.source.Osv? {
      if !rec.raw.Decoded? {
        return false;
      }
      var aliases := Unique(rec.raw.advisory.aliases);
      return aliases == rec.aliases && (rec.raw.advisory.withdrawn != "") == rec.withdrawn;
    }
    ok := IsCVE(rec.id) && |rec.aliases| == 0 && !rec.withdrawn;
  }

  /** The records, walked in any order: each one valid, and the CVEs the OSV ones mention. */
  method CheckRecords(records: Records) returns (ok: bool, cves: set<string>)
    ensures ok <==> ValidRecords(records)
    ensures ok ==> cves == ExpectedCVEs(records)
  {
    cves := {};
    var left := records.Keys;
    ghost var done: set<string> := {};
    while left != {}
      invariant left <= records.Keys && done == records.Keys - left
      invariant forall k :: k in done ==> ValidRecord(k, records[k])
      invariant cves == CVEsOf(records, done)
      decreases left
    {
      var key :| key in left;
      var valid := CheckRecord(key, records[key]);
      if !valid {
        return false, {};
      }
      var mentioned := CollectCVEs(records[key]);
      CVEsOfMore(records, done, key);
      cves := cves + mentioned;
      done := done + {key};
      left := left - {key};
    }
    CVEsOfAll(records);
    assert done == records.Keys;
    ok := true;
  }

  method CollectCVEs(rec: SourceRecord) returns (cves: set<string>)
    ensures cves == CVEsMentioned(rec)
  {
    cves := {};
    if rec.source.Osv? {
      if IsCVE(rec.id) {
        cves := cves + {rec.id};
      }
      ghost var first := cves;
      assert first == CVEsIn([rec.id]);
      for i := 0 to |rec.aliases|
        invariant cves == first + CVEsIn(rec.aliases[..i])
      {
        assert rec.aliases[..i + 1] == rec.aliases[..i] + [rec.aliases[i]];
        if IsCVE(rec.aliases[i]) {
          cves := cves + {rec.aliases[i]};
        }
      }
      assert rec.aliases[..|rec.aliases|] == rec.aliases;
    }
  }

  ghost function CVEsMentioned(rec: SourceRecord): set<string> {
    if rec.source.Osv? then CVEsIn([rec.id]) + CVEsIn(rec.aliases) else {}
  }

  ghost function CVEsIn(ids: seq<string>): set<string> {
    set x | x in ids && IsCVE(x)
  }

  ghost predicate MentionsCVE(rec: SourceRecord, x: string) {
    rec.source.Osv? && IsCVE(x) && (x == rec.id || x in rec.aliases)
  }

  ghost function CVEsOf(records: Records, keys: set<string>): set<string> {
    (set k | k in keys && k in records && records[k].source.Osv? && IsCVE(records[k].id) :: records[k].id) +
    (set k, a | k in keys && k in records && records[k].source.Osv? && a in records[k].aliases && IsCVE(a) :: a)
  }

  lemma CVEsOfIs(records: Records, keys: set<string>, x: string)
    ensures x in CVEsOf(records, keys) <==> exists k :: k in keys && k in records && MentionsCVE(records[k], x)
  {
  }

  lemma CVEsOfMore(records: Records, keys: set<string>, key: string)
    requires key in records
    ensures CVEsOf(records, keys + {key}) ==
            CVEsOf(records, keys) + CVEsMentioned(records[key])
  {
  }

  lemma CVEsOfAll(records: Records)
    ensures CVEsOf(records, records.Keys) == ExpectedCVEs(records)
  {
  }

  method CheckLookup(r: Report, e: Enrichment, cves: set<string>) returns (ok: bool)
    requires cves == ExpectedCVEs(r.records)
    ensures ok <==> ValidLookup(r, e)
  {
    if !e.source.Nvd? || e.id !in cves {
      return false;
    }
    if (NvdKey(e.id) in r.records) != e.status.Found? {
      return false;
    }
    match e.status {
      case Failed => ok := !(e.error == "" || r.status.StatusComplete? || r.refreshComplete);
      case Found => ok := e.error == "";
      case NotFound => ok := e.error == "";
      case NotChecked => ok := e.error == "";
      case EnrichmentOther(_) => ok := false;
    }
  }

  /** The statuses collected by identifier, none of them twice. */
  ghost predicate Indexed(es: seq<Enrichment>, statuses: map<string, EnrichmentStatus>) {
    && DistinctIds(es)
    && |statuses| == |es|
    && (forall j :: 0 <= j < |es| ==> es[j].id in statuses && statuses[es[j].id] == es[j].status)
    && forall id :: id in statuses ==> HasId(es, id)
  }

  ghost predicate HasId(es: seq<Enrichment>, id: string) {
    exists j :: 0 <= j < |es| && es[j].id == id
  }

  lemma IndexedMore(es: seq<Enrichment>, i: nat, statuses: map<string, EnrichmentStatus>)
    requires i < |es| && Indexed(es[..i], statuses)
    ensures es[i].id !in statuses ==> Indexed(es[..i + 1], statuses[es[i].id := es[i].status])
    ensures es[i].id in statuses ==> !DistinctIds(es)
  {
    if es[i].id in statuses {
      assert HasId(es[..i], es[i].id);
    } else {
      var more := statuses[es[i].id := es[i].status];
      assert es[..i + 1] == es[..i] + [es[i]];
      forall id | id in more
        ensures HasId(es[..i + 1], id)
      {
        if id in statuses {
          assert HasId(es[..i], id);
          var j :| 0 <= j < i && es[..i][j].id == id;
          assert es[..i + 1][j].id == id;
        } else {
          assert es[..i + 1][i].id == id;
        }
      }
    }
  }

  ghost predicate AllLookups(r: Report, es: seq<Enrichment>) {
    forall j :: 0 <= j < |es| ==> ValidLookup(r, es[j])
  }

  lemma AllLookupsMore(r: Report, es: seq<Enrichment>, i: nat)
    requires i < |es|
    ensures AllLookups(r, es[..i + 1]) <==> AllLookups(r, es[..i]) && ValidLookup(r, es[i])
    ensures !ValidLookup(r, es[i]) ==> !AllLookups(r, es)
  {
  }

  method IndexEnrichments(r: Report, es: seq<Enrichment>, cves: set<string>) returns (ok: bool, statuses: map<string, EnrichmentStatus>)
    requires cves == ExpectedCVEs(r.records)
    ensures ok <==> AllLookups(r, es) && DistinctIds(es)
    ensures ok ==> Indexed(es, statuses)
  {
    hide ValidLookup, ExpectedCVEs, HasId;
    statuses := map[];
    for i := 0 to |es|
      invariant AllLookups(r, es[..i]) && Indexed(es[..i], statuses)
    {
      AllLookupsMore(r, es, i);
      IndexedMore(es, i, statuses);
      var valid := CheckLookup(r, es[i], cves);
      if !valid {
        return false, statuses;
      }
      if es[i].id in statuses {
        return false, statuses;
      }
      statuses := statuses[es[i].id := es[i].status];
    }
    assert es[..|es|] == es;
    ok := true;
  }

  method CheckEnrichments(r: Report, cves: set<string>) returns (ok: bool)
    requires cves == ExpectedCVEs(r.records)
    ensures ok <==> ValidEnrichments(r)
  {
    var indexed, statuses := IndexEnrichments(r, r.enrichment, cves);
    if !indexed || |statuses| != |cves| {
      return false;
    }
    ok := CheckObserved(r, statuses);
  }

  method CheckObserved(r: Report, statuses: map<string, EnrichmentStatus>) returns (ok: bool)
    requires Indexed(r.enrichment, statuses)
    ensures ok <==> RecordsLookedUp(r)
  {
    var left := r.records.Keys;
    while left != {}
      invariant left <= r.records.Keys
      invariant forall k :: k in r.records && k !in left && r.records[k].source.Nvd? ==> FoundFor(r, r.records[k].id)
      decreases left
    {
      var key :| key in left;
      var rec := r.records[key];
      FoundIsIndexed(r, statuses, rec.id);
      if rec.source.Nvd? && (rec.id !in statuses || !statuses[rec.id].Found?) {
        assert !FoundFor(r, r.records[key].id);
        return false;
      }
      left := left - {key};
    }
    ok := true;
  }

  lemma FoundIsIndexed(r: Report, statuses: map<string, EnrichmentStatus>, id: string)
    requires Indexed(r.enrichment, statuses)
    ensures FoundFor(r, id) <==> id in statuses && statuses[id].Found?
  {
  }

  /** `nvdAbsences`: nothing unless the refresh is complete and no NVD lookup was left out. */
  method NvdAbsences(r: Report) returns (absent: set<string>)
    ensures absent == Absences(r)
  {
    if !r.refreshComplete || !r.acquisition.AcquiredComplete? {
      return {};
    }
    absent := {};
    for i := 0 to |r.enrichment|
      invariant forall j :: 0 <= j < i ==> !(r.enrichment[j].source.Nvd? && r.enrichment[j].status.NotChecked?)
      invariant absent == set j | 0 <= j < i && r.enrichment[j].source.Nvd? && r.enrichment[j].status.NotFound?
                                 && r.enrichment[j].error == "" :: r.enrichment[j].id
    {
      var e := r.enrichment[i];
      if e.source.Nvd? {
        if e.status.NotChecked? {
          return {};
        }
        if e.status.NotFound? && e.error == "" {
          absent := absent + {e.id};
        }
      }
    }
  }

  method CheckRetained(r: Report) returns (ok: bool)
    ensures ok <==> ValidRetained(r)
  {
    var absent := NvdAbsences(r);
    var left := r.retained.Keys;
    while left != {}
      invariant left <= r.retained.Keys
      invariant forall k :: k in r.retained && k !in left ==> ValidRetention(r, k, r.retained[k])
      decreases left
    {
      var key :| key in left;
      var rec := r.retained[key];
      var valid := CheckRecord(key, rec);
      if !rec.source.Nvd? || !valid || key in r.records || rec.id in absent {
        assert !ValidRetention(r, key, r.retained[key]);
        return false;
      }
      left := left - {key};
    }
    ok := true;
  }

  /** All seven checks of a saved scan. */
  method ValidateState(rules: Rules, s: State) returns (ok: bool)
    requires rules.Injective()
    ensures ok <==> ValidState(rules, s)
  {
    ValidStateIff(rules, s);
    hide ValidState, IsPlan, ValidQuery, ValidRecords, IsGrouping, ValidEnrichments, ValidRetained, ValidClosing;
    var r := s.report;
    if s.schemaVersion != SCHEMA_VERSION || !ValidProfile(s.profile) || r.repository != s.profile.repository {
      return false;
    }
    if !r.acquisition.AcquiredComplete? || r.status.StatusOther? || r.runtimeImpact != UNKNOWN_IMPACT {
      return false;
    }
    if r.startedAt == 0 || r.finishedAt == 0 || r.finishedAt < r.startedAt {
      return false;
    }
    var covered := CheckQueries(rules, s.profile, r);
    if !covered {
      return false;
    }
    if r.status.StatusComplete? && (|r.unqueried| > 0 || |s.profile.warnings| > 0) {
      return false;
    }
    var valid, cves := CheckRecords(r.records);
    if !valid {
      return false;
    }
    var grouped := CheckGroups(r);
    if !grouped {
      return false;
    }
    var enriched := CheckEnrichments(r, cves);
    if !enriched {
      return false;
    }
    var retained := CheckRetained(r);
    if !retained {
      return false;
    }
    ok := CheckClosing(rules, s);
  }

  method CheckQueries(rules: Rules, profile: Profile, r: Report) returns (ok: bool)
    requires rules.Injective()
    ensures ok <==> IsPlan(rules, profile, ReportPlan(r)) && forall i :: 0 <= i < |r.queries| ==> ValidQuery(r, r.queries[i])
  {
    hide IsPlan, ValidQuery, Rules.Injective;
    var plan := Plan(rules, profile);
    if plan != ReportPlan(r) {
      NotThePlan(rules, profile, plan, r);
      return false;
    }
    for i := 0 to |r.queries|
      invariant forall j :: 0 <= j < i ==> ValidQuery(r, r.queries[j])
    {
      var valid := CheckQuery(r, r.queries[i]);
      if !valid {
        return false;
      }
    }
    ok := true;
  }

  lemma NotThePlan(rules: Rules, profile: Profile, plan: PlanReport, r: Report)
    requires IsPlan(rules, profile, plan) && plan != ReportPlan(r)
    ensures !IsPlan(rules, profile, ReportPlan(r))
  {
    if IsPlan(rules, profile, ReportPlan(r)) {
      PlanUnique(rules, profile, plan, ReportPlan(r));
    }
  }

  method CheckGroups(r: Report) returns (ok: bool)
    requires ValidRecords(r.records)
    ensures ok <==> IsGrouping(r.records, r.groups)
  {
    var groups := GroupRecords(r.records);
    ValidRecordsTellApart(r.records);
    ok := groups == r.groups;
    if IsGrouping(r.records, r.groups) {
      GroupingUnique(r.records, groups, r.groups);
    }
  }

  /** Validated identifiers contain no NUL, so validated records have one grouping. */
  lemma ValidRecordsTellApart(records: Records)
    requires ValidRecords(records)
    ensures KeysTellApart(records)
  {
    forall k | k in records
      ensures NulFree(records[k].id)
    {
      assert ValidText(records[k].id);
      assert forall i :: 0 <= i < |records[k].id| ==> !IsControl(records[k].id[i]);
    }
    NulFreeTellsApart(records);
  }

  method CheckClosing(rules: Rules, s: State) returns (ok: bool)
    ensures ok <==> ValidClosing(rules, s)
  {
    var summary := ScanSummary.Summarize(rules.canonical, s.profile, s.report);
    if summary != s.report.ecosystems {
      if ScanSummary.IsSummary(rules.canonical, s.profile, s.report, s.report.ecosystems) {
        ScanSummary.SummaryUnique(rules.canonical, s.profile, s.report, summary, s.report.ecosystems);
      }
      return false;
    }
    for i := 0 to |s.profile.warnings|
      invariant forall j :: 0 <= j < i ==> s.profile.warnings[j] in s.report.warnings
    {
      if s.profile.warnings[i] !in s.report.warnings {
        return false;
      }
    }
    ok := true;
  }
}
