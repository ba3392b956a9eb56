/** What a saved scan has to be to be accepted, said of the state itself and without any function that
    the checks compute with: which queries it holds and what it makes of their advisories, what its
    records are, which CVEs were looked up and what was found, what is remembered, and what the
    summaries add up to. */
module ScanAccepted {
  import opened ScanTypes
  import opened Text
  import opened ScanReport
  import opened ScanValidate
  import opened AdvisoryGroups
  import ScanSummary
  import GroupClaims

  // ---------- records ----------

  /** A source record stands under its own name and says what its raw document says. */
  ghost predicate RecordStands(key: string, rec: SourceRecord) {
    && ValidText(rec.id) && rec.raw.Identity() == Some(rec.id)
    && ((rec.source == Osv && key == "osv:" + rec.id && rec.raw.Decoded?
         && Ascending(rec.aliases) && (forall x :: x in rec.aliases <==> x != "" && x in rec.raw.advisory.aliases)
         && (rec.withdrawn <==> rec.raw.advisory.withdrawn != ""))
        || (rec.source == Nvd && key == "nvd:" + rec.id && IsCVE(rec.id) && rec.aliases == [] && !rec.withdrawn))
  }

  lemma UniqIs(given: seq<string>, aliases: seq<string>)
    ensures given == Uniq(aliases) <==> Ascending(given) && forall x :: x in given <==> x != "" && x in aliases
  {
    if Ascending(given) && forall x :: x in given <==> x != "" && x in aliases {
      ArrangeIs(given, NonEmpty(aliases));
    }
  }

  lemma RecordIff(key: string, rec: SourceRecord)
    ensures ValidRecord(key, rec) <==> RecordStands(key, rec)
  {
    hide ValidText, IsCVE, Ascending;
    if rec.raw.Decoded? {
      UniqIs(rec.aliases, rec.raw.advisory.aliases);
    }
  }

  // ---------- queries ----------

  /** An advisory, as far as it is about a package, and what a match says of it. */
  ghost predicate Testifies(a: Advisory, q: PackageVersion, m: Match) {
    var about := exists x :: x in a.affected && x.ecosystem == q.ecosystem && x.name == q.name;
    && m.recordKey == "osv:" + a.id
    && m.outcome == (if a.withdrawn != "" then Withdrawn else if about then AffectedVersionMatch else Unknown)
    && m.reason == (if a.withdrawn == "" && !about then "advisory affected packages do not match queried ecosystem/name" else "")
    && Ascending(m.fixedVersions)
    && forall f :: f in m.fixedVersions <==> a.withdrawn == "" && f != "" && Lists(a, q, f)
  }

  /** The advisory lists a version as fixed for exactly this package. */
  ghost predicate Lists(a: Advisory, q: PackageVersion, fixed: string) {
    exists x, range :: x in a.affected && x.ecosystem == q.ecosystem && x.name == q.name && range in x.ranges && fixed in range
  }

  lemma FixesAre(a: Advisory, q: PackageVersion, f: string)
    ensures f in FixSet(a, q) <==> f != "" && Lists(a, q, f)
  {
    if f in FixSet(a, q) {
      var x, range :| x in a.affected && Concerns(x, q) && range in x.ranges && f in range;
    }
  }

  lemma AboutIs(a: Advisory, q: PackageVersion)
    ensures NamesPackage(a, q) <==> exists x :: x in a.affected && x.ecosystem == q.ecosystem && x.name == q.name
    ensures !NamesPackage(a, q) ==> forall f :: !Lists(a, q, f)
  {
    if x :| x in a.affected && x.ecosystem == q.ecosystem && x.name == q.name {
      assert Concerns(x, q);
    }
  }

  lemma MatchIff(a: Advisory, q: PackageVersion, m: Match)
    ensures m == MatchOf(q, a) <==> Testifies(a, q, m)
  {
    hide NamesPackage, FixSet, Lists;
    AboutIs(a, q);
    forall f
      ensures f in FixSet(a, q) <==> f != "" && Lists(a, q, f)
    {
      FixesAre(a, q, f);
    }
    if Testifies(a, q, m) {
      ArrangeIs(m.fixedVersions, if a.withdrawn == "" && NamesPackage(a, q) then FixSet(a, q) else {});
    }
  }

  /** An identifier has an advisory on record. */
  ghost predicate OnRecord(records: Records, id: string) {
    "osv:" + id in records && records["osv:" + id].raw.Decoded?
  }

  /** A match is what the advisory on record for an identifier says. */
  ghost predicate Quotes(records: Records, q: PackageVersion, id: string, m: Match) {
    OnRecord(records, id) && Testifies(records["osv:" + id].raw.advisory, q, m)
  }

  /** The matches are what the advisories on record say, in the order of the identifiers, each once. */
  ghost predicate Hears(records: Records, q: PackageVersion, ids: seq<string>, matches: seq<Match>, from: seq<nat>) {
    && |from| == |matches|
    && (forall i, j :: 0 <= i < j < |from| ==> from[i] < from[j])
    && (forall k :: k in from <==> 0 <= k < |ids| && OnRecord(records, ids[k]))
    && forall i :: 0 <= i < |from| ==> from[i] < |ids| && Quotes(records, q, ids[from[i]], matches[i])
  }

  lemma HearsMore(records: Records, q: PackageVersion, ids: seq<string>, n: nat, matches: seq<Match>, from: seq<nat>)
    requires n < |ids| && Hears(records, q, ids[..n], matches, from)
    ensures !OnRecord(records, ids[n]) ==> Hears(records, q, ids[..n + 1], matches, from)
    ensures forall m :: Quotes(records, q, ids[n], m) ==> Hears(records, q, ids[..n + 1], matches + [m], from + [n])
  {
    hide OnRecord, Testifies;
    var more := ids[..n + 1];
    assert forall k :: 0 <= k < n ==> more[k] == ids[..n][k];
    assert more[n] == ids[n];
    forall i | 0 <= i < |from|
      ensures from[i] < n
    {
      assert from[i] in from;
    }
    assert forall k :: k in from + [n] <==> k in from || k == n;
  }

  lemma {:induction false} ExpectedHears(records: Records, q: PackageVersion, ids: seq<string>, n: nat) returns (from: seq<nat>)
    requires n <= |ids|
    ensures Hears(records, q, ids[..n], ExpectedMatches(records, q, ids[..n]), from)
  {
    hide MatchOf, Testifies, Hears;
    if n == 0 {
      from := [];
      HearsNothing(records, q);
    } else {
      from := ExpectedHears(records, q, ids, n - 1);
      assert ids[..n][..n - 1] == ids[..n - 1] && OsvKey(ids[n - 1]) == "osv:" + ids[n - 1];
      HearsMore(records, q, ids, n - 1, ExpectedMatches(records, q, ids[..n - 1]), from);
      if OnRecord(records, ids[n - 1]) {
        var a := records["osv:" + ids[n - 1]].raw.advisory;
        MatchIff(a, q, MatchOf(q, a));
        assert Quotes(records, q, ids[n - 1], MatchOf(q, a));
        from := from + [n - 1];
      }
    }
  }

  lemma HearsNothing(records: Records, q: PackageVersion)
    ensures Hears(records, q, [], ExpectedMatches(records, q, []), [])
  {
  }

  lemma HearsOnce(records: Records, q: PackageVersion, ids: seq<string>, a: seq<Match>, b: seq<Match>, x: seq<nat>, y: seq<nat>)
    requires Hears(records, q, ids, a, x) && Hears(records, q, ids, b, y)
    ensures a == b
  {
    hide Testifies;
    AscendingSame(x, y);
    forall i | 0 <= i < |a|
      ensures a[i] == b[i]
    {
      assert Quotes(records, q, ids[x[i]], a[i]) && Quotes(records, q, ids[y[i]], b[i]);
      var doc := records["osv:" + ids[x[i]]].raw.advisory;
      MatchIff(doc, q, a[i]);
      MatchIff(doc, q, b[i]);
    }
  }

  lemma MatchesIff(records: Records, q: PackageVersion, ids: seq<string>, matches: seq<Match>)
    ensures matches == ExpectedMatches(records, q, ids) <==> exists from :: Hears(records, q, ids, matches, from)
  {
    hide Hears;
    assert ids[..|ids|] == ids;
    var from := ExpectedHears(records, q, ids, |ids|);
    if other :| Hears(records, q, ids, matches, other) {
      HearsOnce(records, q, ids, matches, ExpectedMatches(records, q, ids), other, from);
    }
  }

  /** A saved query agrees with the records: it is complete only without an error and with every
      advisory on record, its matches are theirs, and its outcome is the strongest they support. */
  ghost predicate QueryStands(r: Report, q: PackageResult) {
    && q.runtimeImpact == "unknown" && q.workspace == "unavailable" && q.dependencyPath == "unavailable"
    && (q.complete ==> q.error == "") && (r.status == StatusComplete || r.refreshComplete ==> q.complete)
    && (forall id :: id in q.ids ==> if "osv:" + id in r.records then r.records["osv:" + id].raw.Decoded? else !q.complete)
    && (exists from :: Hears(r.records, q.query, q.ids, q.matches, from))
    && (forall m :: m in q.matches && m.reason != "" ==> !q.complete && q.error != "")
    && (q.outcome == AffectedVersionMatch <==> exists m :: m in q.matches && m.outcome == AffectedVersionMatch)
    && (q.outcome == NoAdvisoryFound <==> q.complete && q.ids == [])
    && q.outcome in {AffectedVersionMatch, NoAdvisoryFound, Unknown}
  }

  lemma QueryIff(r: Report, q: PackageResult)
    ensures ValidQuery(r, q) <==> QueryStands(r, q)
  {
    hide Hears, ExpectedMatches;
    MatchesIff(r.records, q.query, q.ids, q.matches);
    assert forall id :: OsvKey(id) == "osv:" + id;
    if q.matches == ExpectedMatches(r.records, q.query, q.ids) && q.ids == [] {
      NoIdsNoMatches(r.records, q.query);
    }
    EvidenceAsMembers(r, q);
    ReasonsAsMembers(q);
  }

  lemma NoIdsNoMatches(records: Records, q: PackageVersion)
    ensures ExpectedMatches(records, q, []) == []
  {
  }

  lemma EvidenceAsMembers(r: Report, q: PackageResult)
    ensures (forall i :: 0 <= i < |q.ids| ==> HasEvidence(r, q, q.ids[i])) <==>
      forall id :: id in q.ids ==> if "osv:" + id in r.records then r.records["osv:" + id].raw.Decoded? else !q.complete
  {
    assert forall id :: OsvKey(id) == "osv:" + id;
  }

  lemma ReasonsAsMembers(q: PackageResult)
    ensures (forall i :: 0 <= i < |q.matches| && q.matches[i].reason != "" ==> !q.complete && q.error != "") <==>
      forall m :: m in q.matches && m.reason != "" ==> !q.complete && q.error != ""
  {
  }

  // ---------- lookups ----------

  /** An OSV record goes by this CVE. */
  ghost predicate Mentions(records: Records, cve: string) {
    IsCVE(cve) && exists k :: k in records && records[k].source == Osv && (cve == records[k].id || cve in records[k].aliases)
  }

  lemma MentionsIff(records: Records, cve: string)
    ensures cve in ExpectedCVEs(records) <==> Mentions(records, cve)
  {
    hide IsCVE;
  }

  /** The result of one lookup: of a CVE that is mentioned; found exactly when its record is there; and
      with an error exactly when it failed, which makes the scan incomplete. */
  ghost predicate LookupStands(r: Report, e: Enrichment) {
    && e.source == Nvd && Mentions(r.records, e.id)
    && ("nvd:" + e.id in r.records <==> e.status == Found)
    && e.status in {NotChecked, Found, NotFound, Failed}
    && (e.error != "" <==> e.status == Failed)
    && (e.status == Failed ==> r.status != StatusComplete && !r.refreshComplete)
  }

  lemma LookupIff(r: Report, e: Enrichment)
    ensures ValidLookup(r, e) <==> LookupStands(r, e)
  {
    hide ExpectedCVEs, Mentions;
    MentionsIff(r.records, e.id);
    assert NvdKey(e.id) == "nvd:" + e.id;
  }

  /** Every mentioned CVE was looked up once, and every NVD record was found by its lookup. */
  ghost predicate LookupsStand(r: Report) {
    && (forall e :: e in r.enrichment ==> LookupStands(r, e))
    && (forall i, j :: 0 <= i < j < |r.enrichment| ==> r.enrichment[i].id != r.enrichment[j].id)
    && (forall cve :: Mentions(r.records, cve) ==> exists e :: e in r.enrichment && e.id == cve)
    && forall k :: k in r.records && r.records[k].source == Nvd ==>
         exists e :: e in r.enrichment && e.id == r.records[k].id && e.status == Found
  }

  ghost function IdsOf(es: seq<Enrichment>): set<string> {
    set e | e in es :: e.id
  }

  lemma {:induction false} DistinctCounted(es: seq<Enrichment>)
    requires DistinctIds(es)
    ensures |IdsOf(es)| == |es|
  {
    if es != [] {
      var n := |es| - 1;
      DistinctCounted(es[..n]);
      assert es == es[..n] + [es[n]];
      forall e | e in es[..n]
        ensures e.id != es[n].id
      {
        var i :| 0 <= i < n && es[..n][i] == e;
        assert es[i] == e;
      }
      assert IdsOf(es) == IdsOf(es[..n]) + {es[n].id};
    }
  }

  lemma {:induction false} SubsetSize(a: set<string>, b: set<string>)
    requires a <= b
    ensures |a| <= |b| && (|a| == |b| ==> a == b)
  {
    if a != {} {
      var x :| x in a;
      SubsetSize(a - {x}, b - {x});
      if |a| == |b| {
        assert a == (a - {x}) + {x} && b == (b - {x}) + {x};
      }
    } else if |b| == 0 {
      assert b == {};
    }
  }

  lemma LookupsIff(r: Report)
    ensures ValidEnrichments(r) <==> LookupsStand(r)
  {
    hide LookupStands, ValidLookup, Mentions, ExpectedCVEs;
    var es, expected := r.enrichment, ExpectedCVEs(r.records);
    forall e
      ensures ValidLookup(r, e) <==> LookupStands(r, e)
    {
      LookupIff(r, e);
    }
    forall cve
      ensures cve in expected <==> Mentions(r.records, cve)
    {
      MentionsIff(r.records, cve);
    }
    FoundAsMembers(r);
    if AllLookups(r, es) && DistinctIds(es) {
      DistinctCounted(es);
      IdsExpected(r, es);
      SubsetSize(IdsOf(es), expected);
      if |es| == |expected| {
        assert forall cve :: cve in expected ==> cve in IdsOf(es);
      }
      if forall cve :: cve in expected ==> exists e :: e in es && e.id == cve {
        assert expected <= IdsOf(es);
        SubsetSize(expected, IdsOf(es));
      }
    }
    LookupsAsMembers(r);
  }

  lemma IdsExpected(r: Report, es: seq<Enrichment>)
    requires AllLookups(r, es)
    ensures IdsOf(es) <= ExpectedCVEs(r.records)
  {
    hide ExpectedCVEs;
    forall e | e in es
      ensures e.id in ExpectedCVEs(r.records)
    {
      var j :| 0 <= j < |es| && es[j] == e;
      assert ValidLookup(r, es[j]);
    }
  }

  lemma FoundAsMembers(r: Report)
    ensures RecordsLookedUp(r) <==>
      forall k :: k in r.records && r.records[k].source == Nvd ==>
        exists e :: e in r.enrichment && e.id == r.records[k].id && e.status == Found
  {
    forall id
      ensures FoundFor(r, id) <==> exists e :: e in r.enrichment && e.id == id && e.status == Found
    {
      if FoundFor(r, id) {
        var i :| 0 <= i < |r.enrichment| && r.enrichment[i].id == id && r.enrichment[i].status.Found?;
        assert r.enrichment[i] in r.enrichment;
      }
    }
  }

  lemma LookupsAsMembers(r: Report)
    ensures AllLookups(r, r.enrichment) <==> forall e :: e in r.enrichment ==> ValidLookup(r, e)
  {
    hide ValidLookup;
  }

  // ---------- memory ----------

  /** A complete refresh, with no CVE left unchecked, was told that there is no such CVE. */
  ghost predicate ShownAbsent(r: Report, cve: string) {
    && r.refreshComplete && r.acquisition == AcquiredComplete
    && (forall e :: e in r.enrichment && e.source == Nvd ==> e.status != NotChecked)
    && exists e :: e in r.enrichment && e.id == cve && e.source == Nvd && e.status == NotFound && e.error == ""
  }

  lemma AbsentIff(r: Report, cve: string)
    ensures cve in Absences(r) <==> ShownAbsent(r, cve)
  {
    OptedOutAsMembers(r);
    if cve in Absences(r) {
      var i :| 0 <= i < |r.enrichment| && r.enrichment[i].source.Nvd? && r.enrichment[i].status.NotFound?
               && r.enrichment[i].error == "" && r.enrichment[i].id == cve;
      assert r.enrichment[i] in r.enrichment;
    }
    if ShownAbsent(r, cve) {
      var e :| e in r.enrichment && e.id == cve && e.source == Nvd && e.status == NotFound && e.error == "";
      var i :| 0 <= i < |r.enrichment| && r.enrichment[i] == e;
    }
  }

  lemma OptedOutAsMembers(r: Report)
    ensures OptedOut(r) <==> !forall e :: e in r.enrichment && e.source == Nvd ==> e.status != NotChecked
  {
    if OptedOut(r) {
      var i :| 0 <= i < |r.enrichment| && r.enrichment[i].source.Nvd? && r.enrichment[i].status.NotChecked?;
      assert r.enrichment[i] in r.enrichment;
    }
  }

  /** What is remembered are NVD records that are neither current nor shown to be absent. */
  ghost predicate MemoryStands(r: Report) {
    forall k :: k in r.retained ==>
      r.retained[k].source == Nvd && RecordStands(k, r.retained[k]) && k !in r.records && !ShownAbsent(r, r.retained[k].id)
  }

  lemma MemoryIff(r: Report)
    ensures ValidRetained(r) <==> MemoryStands(r)
  {
    hide RecordStands, ValidRecord, Absences, ShownAbsent;
    forall k | k in r.retained
      ensures ValidRetention(r, k, r.retained[k]) <==>
        (r.retained[k].source == Nvd && RecordStands(k, r.retained[k]) && k !in r.records && !ShownAbsent(r, r.retained[k].id))
    {
      RecordIff(k, r.retained[k]);
      AbsentIff(r, r.retained[k].id);
    }
  }

  // ---------- the state ----------

  /** Whose scan it is, when it was made, and that it was finished. */
  ghost predicate HeaderStands(s: State) {
    && s.schemaVersion == 1 && s.report.repository == s.profile.repository
    && ValidText(s.profile.repository.id) && ValidText(s.profile.repository.commitSHA)
    && s.report.acquisition == AcquiredComplete && s.report.status in {StatusComplete, StatusIncomplete}
    && s.report.runtimeImpact == "unknown"
    && s.report.startedAt != 0 && s.report.finishedAt != 0 && s.report.startedAt <= s.report.finishedAt
  }

  /** The queries and the unqueried components are those of the profile; and a scan is complete only if
      nothing was left out. */
  ghost predicate CoverageStands(rules: Rules, s: State) {
    && ListsUnqueried(rules, s.profile.components, s.report.unqueried)
    && (forall q :: (exists i :: 0 <= i < |s.report.queries| && s.report.queries[i].query == q)
                    <==> exists c :: c in s.profile.components && rules.classify(c) == Query(q))
    && (forall i, j :: 0 <= i < j < |s.report.queries| ==>
          Less(rules.queryKey(s.report.queries[i].query), rules.queryKey(s.report.queries[j].query)))
    && (forall i :: 0 <= i < |s.report.queries| ==>
          ListsOrigins(rules, s.profile.components, s.report.queries[i].query, s.report.queries[i].origins))
    && (forall i :: 0 <= i < |s.report.queries| ==> QueryStands(s.report, s.report.queries[i]))
    && (s.report.status == StatusComplete ==> s.report.unqueried == [] && s.profile.warnings == [])
  }

  lemma CoverageIff(rules: Rules, s: State)
    ensures ValidCoverage(rules, s) <==> CoverageStands(rules, s)
  {
    hide ValidQuery, QueryStands, IsPlan, ListsUnqueried, ListsOrigins;
    var plan, cs := ReportPlan(s.report), s.profile.components;
    PlanIff(rules, s.profile, plan);
    AskedAre(rules, s.report);
    assert (forall q :: q in Asked(plan) <==> exists c :: c in cs && rules.classify(c) == Query(q)) <==>
      forall q :: (exists i :: 0 <= i < |s.report.queries| && s.report.queries[i].query == q) <==> exists c :: c in cs && rules.classify(c) == Query(q);
    assert (forall i :: 0 <= i < |plan.queries| ==> ListsOrigins(rules, cs, plan.queries[i].query, plan.queries[i].origins)) <==>
      forall i :: 0 <= i < |s.report.queries| ==> ListsOrigins(rules, cs, s.report.queries[i].query, s.report.queries[i].origins);
    forall i | 0 <= i < |s.report.queries|
      ensures ValidQuery(s.report, s.report.queries[i]) <==> QueryStands(s.report, s.report.queries[i])
    {
      QueryIff(s.report, s.report.queries[i]);
    }
  }

  lemma AskedAre(rules: Rules, r: Report)
    ensures forall q :: q in Asked(ReportPlan(r)) <==> exists i :: 0 <= i < |r.queries| && r.queries[i].query == q
    ensures AscendingBy(rules.queryKey, Asked(ReportPlan(r))) <==>
      forall i, j :: 0 <= i < j < |r.queries| ==> Less(rules.queryKey(r.queries[i].query), rules.queryKey(r.queries[j].query))
  {
    var asked := Asked(ReportPlan(r));
    assert |asked| == |r.queries| && forall i :: 0 <= i < |r.queries| ==> asked[i] == r.queries[i].query;
  }

  /** An acceptable scan, in plain terms. */
  ghost predicate Accepted(rules: Rules, s: State) {
    && HeaderStands(s) && CoverageStands(rules, s)
    && (forall k :: k in s.report.records ==> RecordStands(k, s.report.records[k]))
    && GroupClaims.Groups(s.report.records, s.report.groups)
    && LookupsStand(s.report) && MemoryStands(s.report)
    && ScanSummary.Summarizes(rules.canonical, s.profile, s.report, s.report.ecosystems)
    && forall text :: text in s.profile.warnings ==> text in s.report.warnings
  }

  /** The checks accept exactly these scans. */
  lemma AcceptedIff(rules: Rules, s: State)
    ensures ValidState(rules, s) <==> Accepted(rules, s)
  {
    hide ValidCoverage, CoverageStands, ValidEnrichments, LookupsStand, ValidRetained, MemoryStands, IsGrouping, RecordStands, ValidRecord;
    hide ScanSummary.IsSummary, ScanSummary.Summarizes, ValidText, GroupClaims.Groups;
    GroupClaims.GroupingIff(s.report.records, s.report.groups);
    ValidStateIff(rules, s);
    CoverageIff(rules, s);
    LookupsIff(s.report);
    MemoryIff(s.report);
    ScanSummary.SummaryIff(rules.canonical, s.profile, s.report, s.report.ecosystems);
    forall k | k in s.report.records
      ensures ValidRecord(k, s.report.records[k]) <==> RecordStands(k, s.report.records[k])
    {
      RecordIff(k, s.report.records[k]);
    }
    WarningsAsMembers(s);
  }

  lemma WarningsAsMembers(s: State)
    ensures (forall i :: 0 <= i < |s.profile.warnings| ==> s.profile.warnings[i] in s.report.warnings) <==>
      forall text :: text in s.profile.warnings ==> text in s.report.warnings
  {
  }
}
