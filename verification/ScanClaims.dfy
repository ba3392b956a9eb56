/** What the report of a run claims, said from the answers of the clients alone: no definition that
    the run is computed with is used to say it.  For each CVE the one result of looking it up, for
    each package what is known and what it comes to, when the refresh counts as complete, which
    documents are on record, and what is remembered of the previous scan afterwards. */
module ScanClaims {
  import opened ScanTypes
  import opened Text
  import opened ScanReport
  import opened ScanValidate
  import opened ScanDiscovery
  import opened ScanEnrichment
  import opened ScanRun
  import opened ScanHistory

  // ---------- what the clients answered ----------

  /** The batch query gave one answer for each package, and the i-th is for the i-th package. */
  ghost predicate Answered(w: World, r: Report, i: nat)
    requires i < |r.queries|
  {
    w.osv && w.reached && |w.answers| == |r.queries| && w.answers[i].query == r.queries[i].query
  }

  /** Asking for the advisory gave a document that decodes and is about this identifier. */
  ghost predicate Served(w: World, id: string) {
    && w.advisory(id).Fetched? && w.advisory(id).raw.Decoded?
    && w.advisory(id).raw.advisory.id == id && ValidText(id)
  }

  ghost function Document(w: World, id: string): Advisory
    requires Served(w, id)
  {
    w.advisory(id).raw.advisory
  }

  /** A served advisory that some package was answered with. */
  ghost predicate Known(w: World, r: Report, id: string) {
    Served(w, id) && exists i :: 0 <= i < |r.queries| && Answered(w, r, i) && id in w.answers[i].ids
  }

  /** A CVE that a served advisory is about: its identifier or one of its aliases. */
  ghost predicate Concerned(w: World, r: Report, cve: string) {
    IsCVE(cve) && exists id :: Known(w, r, id) && (cve == id || cve in Document(w, id).aliases)
  }

  /** NVD is asked at all. */
  ghost predicate Asks(w: World) {
    w.nvd && !w.negativeInterval
  }

  /** NVD answered with a document about this CVE. */
  ghost predicate Documented(w: World, cve: string) {
    w.lookup(cve).LookupFound? && w.lookup(cve).raw.Identity() == Some(cve)
  }

  /** What the lookup of a CVE is reported as, for each answer there is. */
  ghost predicate Tells(w: World, e: Enrichment) {
    var answer := w.lookup(e.id);
    && e.source == Nvd
    && (e.status == NotChecked <==> !w.nvd)
    && (e.status == NotFound <==> Asks(w) && answer == LookupMissing)
    && (e.status == Found <==> Asks(w) && Documented(w, e.id))
    && (e.status == Failed <==> w.nvd && (w.negativeInterval || (answer != LookupMissing && !Documented(w, e.id))))
    && (e.status != Failed ==> e.error == "")
    && (w.nvd && w.negativeInterval ==> e.error == "NVD interval must not be negative")
    && (Asks(w) && answer.LookupFailed? ==> e.error == answer.text)
    && (Asks(w) && answer.LookupFound? && !Documented(w, e.id) ==>
          e.error == if answer.raw.Malformed? then "decode NVD record" else "NVD identity mismatch")
  }

  /** The advisory is in force and names the package. */
  ghost predicate Affects(w: World, id: string, q: PackageVersion) {
    && Served(w, id) && Document(w, id).withdrawn == ""
    && exists x :: x in Document(w, id).affected && x.ecosystem == q.ecosystem && x.name == q.name
  }

  ghost predicate TakenBack(w: World, id: string) {
    Served(w, id) && Document(w, id).withdrawn != ""
  }

  /** Everything about the i-th package is known: its answer is complete, and every advisory it names
      was served and is about it, or is withdrawn. */
  ghost predicate WhollyKnown(w: World, r: Report, i: nat)
    requires i < |r.queries|
  {
    && Answered(w, r, i) && w.answers[i].complete && w.answers[i].error == ""
    && forall id :: id in w.answers[i].ids ==> TakenBack(w, id) || Affects(w, id, r.queries[i].query)
  }

  // ---------- lookups ----------

  lemma ServedIff(w: World, id: string)
    ensures DetailOf(w, id).Loaded? <==> Served(w, id)
    ensures Served(w, id) ==> DetailOf(w, id).advisory == Document(w, id)
  {
  }

  lemma LoadedIff(w: World, r: Report, i: nat, id: string)
    requires i < |r.queries|
    ensures id in LoadedAmong(w, AnsweredIds(w, ReportPlan(r), i)) <==>
      Served(w, id) && Answered(w, r, i) && id in w.answers[i].ids
  {
    hide DetailOf, ValidText;
    ServedIff(w, id);
    ServedIsText(w, id);
  }

  lemma ServedIsText(w: World, id: string)
    ensures Served(w, id) ==> id != "" && ValidText(id)
  {
  }

  lemma {:induction false} KnownIff(w: World, r: Report, n: nat, id: string)
    requires n <= |r.queries|
    ensures id in LoadedBy(w, ReportPlan(r), n) <==>
      Served(w, id) && exists i :: 0 <= i < n && Answered(w, r, i) && id in w.answers[i].ids
  {
    hide LoadedAmong, AnsweredIds, Served, Answered;
    if n > 0 {
      KnownIff(w, r, n - 1, id);
      LoadedIff(w, r, n - 1, id);
    }
  }

  lemma ConcernedIff(w: World, r: Report, cve: string)
    ensures cve in CVEsServed(w, ReportPlan(r)) <==> Concerned(w, r, cve)
  {
    hide DetailOf, IsCVE, Served, LoadedBy, Answered;
    var loaded := LoadedBy(w, ReportPlan(r), |r.queries|);
    forall id
      ensures id in loaded <==> Known(w, r, id)
      ensures Known(w, r, id) ==> (cve in NamesOf(w, id) <==> cve == id || cve in Document(w, id).aliases)
    {
      KnownIff(w, r, |r.queries|, id);
      ServedIff(w, id);
      ServedIsText(w, id);
    }
    assert cve in ServedCVEs(w, loaded) <==> exists id :: id in loaded && cve in NamesOf(w, id) && IsCVE(cve);
  }

  lemma LookupTells(w: World, cve: string)
    ensures EnrichmentOf(w, cve).id == cve && Tells(w, EnrichmentOf(w, cve))
  {
  }

  /** Every CVE that a served advisory is about is looked up, once and in order, and nothing else is;
      each result is what the answer of the client tells. */
  lemma LookupsAreAnswers(rules: Rules, w: World, profile: Profile, r: Report)
    requires Built(rules, w, profile, r)
    ensures forall i, j :: 0 <= i < j < |r.enrichment| ==> Less(r.enrichment[i].id, r.enrichment[j].id)
    ensures forall cve :: Concerned(w, r, cve) <==> exists j :: 0 <= j < |r.enrichment| && r.enrichment[j].id == cve
    ensures forall j :: 0 <= j < |r.enrichment| ==> Tells(w, r.enrichment[j])
  {
    hide Tells, EnrichmentOf, Concerned, CVEsServed, LookedUp;
    BuiltLooksUp(rules, w, profile, r);
    var cves := Arrange(CVEsServed(w, ReportPlan(r)));
    AllTell(w, r, cves);
    forall cve
      ensures Concerned(w, r, cve) <==> exists j :: 0 <= j < |r.enrichment| && r.enrichment[j].id == cve
    {
      ConcernedIff(w, r, cve);
      if cve in cves {
        var j :| 0 <= j < |cves| && cves[j] == cve;
        assert r.enrichment[j].id == cve;
      }
    }
  }

  lemma BuiltLooksUp(rules: Rules, w: World, profile: Profile, r: Report)
    requires Built(rules, w, profile, r)
    ensures LookedUp(w, r.enrichment, Arrange(CVEsServed(w, ReportPlan(r))))
  {
    hide LookedUp, CVEsServed, IsPlan, Judged, Documents, LoadedBy;
  }

  lemma AllTell(w: World, r: Report, cves: seq<string>)
    requires LookedUp(w, r.enrichment, cves)
    ensures |r.enrichment| == |cves|
    ensures forall j :: 0 <= j < |cves| ==> r.enrichment[j].id == cves[j] && Tells(w, r.enrichment[j])
  {
    hide Tells, EnrichmentOf;
    forall j | 0 <= j < |cves|
      ensures r.enrichment[j].id == cves[j] && Tells(w, r.enrichment[j])
    {
      LookupTells(w, cves[j]);
    }
  }

  // ---------- completeness ----------

  lemma CleanIff(w: World, query: PackageVersion, id: string)
    ensures Clean(w, query, id) <==> TakenBack(w, id) || Affects(w, id, query)
  {
    ServedIff(w, id);
    ServedIsText(w, id);
    if Served(w, id) {
      NamesIff(w, id, query);
    }
  }

  lemma NamesIff(w: World, id: string, query: PackageVersion)
    requires Served(w, id)
    ensures NamesPackage(Document(w, id), query) <==>
      exists x :: x in Document(w, id).affected && x.ecosystem == query.ecosystem && x.name == query.name
    ensures MatchOf(query, Document(w, id)).reason == "" <==> TakenBack(w, id) || Affects(w, id, query)
  {
    hide ValidText;
  }

  lemma CompleteIff(w: World, r: Report, i: nat)
    requires i < |r.queries|
    ensures CompleteBy(w, ReportPlan(r), i) <==> WhollyKnown(w, r, i)
  {
    hide Clean, TakenBack, Affects;
    var query := r.queries[i].query;
    forall id
      ensures Clean(w, query, id) <==> TakenBack(w, id) || Affects(w, id, query)
    {
      CleanIff(w, query, id);
    }
    if Answered(w, r, i) {
      assert AllClean(w, query, w.answers[i].ids) <==> forall id :: id in w.answers[i].ids ==> Clean(w, query, id);
    }
  }

  /** Every lookup was made or left out on purpose, and none of those made failed. */
  ghost predicate NoLookupFailed(w: World, r: Report) {
    w.nvd ==> forall cve :: Concerned(w, r, cve) ==> w.lookup(cve) == LookupMissing || Documented(w, cve)
  }

  lemma FailedIff(w: World, r: Report)
    requires forall cve :: Concerned(w, r, cve) <==> exists j :: 0 <= j < |r.enrichment| && r.enrichment[j].id == cve
    requires forall j :: 0 <= j < |r.enrichment| ==> Tells(w, r.enrichment[j])
    requires !w.negativeInterval
    ensures AnyFailed(r) <==> !NoLookupFailed(w, r)
  {
    hide Concerned, Documented;
    if AnyFailed(r) {
      var j :| 0 <= j < |r.enrichment| && r.enrichment[j].status.Failed?;
      assert Concerned(w, r, r.enrichment[j].id);
    }
    if !NoLookupFailed(w, r) {
      var cve :| Concerned(w, r, cve) && w.lookup(cve) != LookupMissing && !Documented(w, cve);
      var j :| 0 <= j < |r.enrichment| && r.enrichment[j].id == cve;
      assert r.enrichment[j].status.Failed?;
    }
  }

  /** The refresh counts as complete exactly when nothing stood in its way: each package is wholly
      known and no lookup failed.  The scan counts as complete when, besides, every component was
      queried and the profile came without warnings. */
  lemma RefreshCompleteIff(rules: Rules, w: World, profile: Profile, r: Report)
    requires Built(rules, w, profile, r)
    ensures r.refreshComplete <==>
      && !w.missingContext && !w.negativeInterval && !w.cancelledEnd
      && (forall i :: 0 <= i < |r.queries| ==> WhollyKnown(w, r, i))
      && NoLookupFailed(w, r)
    ensures r.status.StatusComplete? <==>
      r.refreshComplete && profile.warnings == [] && forall c :: c in profile.components ==> rules.classify(c).Query?
    ensures forall i :: 0 <= i < |r.queries| ==>
      (r.queries[i].complete <==> WhollyKnown(w, r, i)) && (r.queries[i].error == "" <==> WhollyKnown(w, r, i))
  {
    hide Tells, Concerned, WhollyKnown, NoLookupFailed, AnyFailed, IsPlan, CompleteBy;
    LookupsAreAnswers(rules, w, profile, r);
    BuiltClaims(rules, w, profile, r);
    forall i | 0 <= i < |r.queries|
      ensures r.queries[i].complete <==> WhollyKnown(w, r, i)
    {
      CompleteIff(w, r, i);
    }
    if !w.negativeInterval {
      FailedIff(w, r);
    }
    NoneRejected(rules, profile, r);
  }

  lemma BuiltClaims(rules: Rules, w: World, profile: Profile, r: Report)
    requires Built(rules, w, profile, r)
    ensures IsPlan(rules, profile, ReportPlan(r))
    ensures forall i :: 0 <= i < |r.queries| ==>
      (r.queries[i].complete <==> CompleteBy(w, ReportPlan(r), i)) && (r.queries[i].complete <==> r.queries[i].error == "")
    ensures r.refreshComplete <==> !w.missingContext && !w.negativeInterval && !w.cancelledEnd && AllComplete(r) && !AnyFailed(r)
    ensures r.status.StatusComplete? <==> r.refreshComplete && r.unqueried == [] && profile.warnings == []
  {
    hide IsPlan, LookedUp, CVEsServed, Documents, LoadedBy, CompleteBy, AnyFailed, AllComplete;
  }

  lemma NoneRejected(rules: Rules, profile: Profile, r: Report)
    requires IsPlan(rules, profile, ReportPlan(r))
    ensures r.unqueried == [] <==> forall c :: c in profile.components ==> rules.classify(c).Query?
  {
    var cs := profile.components;
    PlanLists(rules, profile, ReportPlan(r));
    var from :| Turned(rules, cs, r.unqueried, from) && forall k :: 0 <= k < |cs| && rules.classify(cs[k]).Rejected? ==> k in from;
    if r.unqueried != [] {
      assert cs[from[0]] in cs;
    }
  }

  // ---------- documents ----------

  /** The record of a served advisory: the document as served, and what it says of itself. */
  ghost predicate Files(w: World, id: string, rec: SourceRecord) {
    && Served(w, id) && rec.source == Osv && rec.id == id && rec.raw == w.advisory(id).raw
    && Ascending(rec.aliases) && (forall x :: x in rec.aliases <==> x != "" && x in Document(w, id).aliases)
    && (rec.withdrawn <==> Document(w, id).withdrawn != "")
  }

  /** The record of an advisory is there exactly when the advisory is known, with its document. */
  ghost predicate OsvStands(w: World, r: Report, id: string) {
    && ("osv:" + id in r.records <==> Known(w, r, id))
    && ("osv:" + id in r.records ==> Files(w, id, r.records["osv:" + id]))
  }

  /** The NVD record of a CVE is there exactly when NVD was asked and has it, with its document. */
  ghost predicate NvdStands(w: World, r: Report, cve: string) {
    && ("nvd:" + cve in r.records <==> Concerned(w, r, cve) && Asks(w) && Documented(w, cve))
    && ("nvd:" + cve in r.records ==> r.records["nvd:" + cve] == SourceRecord(Nvd, cve, [], false, w.lookup(cve).raw))
  }

  /** On record are the served advisories and the CVEs that NVD has a document for, each under the
      name of its source, as it was served, and nothing else. */
  lemma RecordsAreDocuments(rules: Rules, w: World, profile: Profile, r: Report)
    requires Built(rules, w, profile, r)
    ensures forall id :: OsvStands(w, r, id)
    ensures forall cve :: NvdStands(w, r, cve)
    ensures forall k :: k in r.records ==> |k| >= 4 && (k[..4] == "osv:" || k[..4] == "nvd:")
  {
    hide OsvStands, NvdStands, Documents, CVEsServed, LoadedBy;
    BuiltDocuments(rules, w, profile, r);
    var loaded, cves := LoadedBy(w, ReportPlan(r), |r.queries|), CVEsServed(w, ReportPlan(r));
    forall id
      ensures OsvStands(w, r, id)
    {
      OsvIsKnown(w, r, loaded, cves, id);
    }
    forall cve
      ensures NvdStands(w, r, cve)
    {
      NvdIsFound(w, r, loaded, cves, cve);
    }
    KeysNamed(w, loaded, cves, r.records);
  }

  lemma BuiltDocuments(rules: Rules, w: World, profile: Profile, r: Report)
    requires Built(rules, w, profile, r)
    ensures Documents(w, LoadedBy(w, ReportPlan(r), |r.queries|), CVEsServed(w, ReportPlan(r)), r.records)
  {
    hide IsPlan, LookedUp, CVEsServed, Documents, LoadedBy, Judged;
  }

  lemma OsvIsKnown(w: World, r: Report, loaded: set<string>, cves: set<string>, id: string)
    requires loaded == LoadedBy(w, ReportPlan(r), |r.queries|) && Documents(w, loaded, cves, r.records)
    ensures OsvStands(w, r, id)
  {
    hide Served, LoadedBy, DetailOf, ValidText;
    KnownIff(w, r, |r.queries|, id);
    assert OsvKey(id) == "osv:" + id;
    assert OsvOnRecord(w, loaded, r.records, id);
    if Known(w, r, id) {
      OsvFiles(w, id);
    }
  }

  lemma OsvFiles(w: World, id: string)
    requires Served(w, id)
    ensures DetailOf(w, id).Loaded? && Files(w, id, OsvRecord(w, id))
  {
  }

  lemma NvdIsFound(w: World, r: Report, loaded: set<string>, cves: set<string>, cve: string)
    requires cves == CVEsServed(w, ReportPlan(r)) && Documents(w, loaded, cves, r.records)
    ensures NvdStands(w, r, cve)
  {
    hide Concerned, CVEsServed;
    ConcernedIff(w, r, cve);
    assert NvdKey(cve) == "nvd:" + cve;
    assert NvdOnRecord(w, cves, r.records, cve);
  }

  lemma KeysNamed(w: World, loaded: set<string>, cves: set<string>, records: Records)
    requires Documents(w, loaded, cves, records)
    ensures forall k :: k in records ==> |k| >= 4 && (k[..4] == "osv:" || k[..4] == "nvd:")
  {
    hide OsvOnRecord, NvdOnRecord;
    forall k | k in records
      ensures |k| >= 4 && (k[..4] == "osv:" || k[..4] == "nvd:")
    {
      assert HasIdentifier(k);
    }
  }

  // ---------- packages ----------

  /** The evidence that a served advisory gives about a package. */
  ghost predicate Evidence(w: World, id: string, q: PackageVersion, m: Match) {
    && Served(w, id) && m.recordKey == "osv:" + id
    && (m.outcome == AffectedVersionMatch <==> Affects(w, id, q))
    && (m.outcome == Withdrawn <==> TakenBack(w, id))
    && (m.outcome == Unknown <==> !Affects(w, id, q) && !TakenBack(w, id))
    && (m.reason == "" <==> m.outcome != Unknown)
    && Ascending(m.fixedVersions)
    && forall f :: f in m.fixedVersions <==> Fixes(w, id, q, f)
  }

  /** A version that the advisory gives as fixed for exactly this package. */
  ghost predicate Fixes(w: World, id: string, q: PackageVersion, fixed: string) {
    && Affects(w, id, q) && fixed != ""
    && exists x, range :: x in Document(w, id).affected && x.ecosystem == q.ecosystem && x.name == q.name
         && range in x.ranges && fixed in range
  }

  lemma MatchIsEvidence(w: World, id: string, q: PackageVersion)
    requires Served(w, id)
    ensures Evidence(w, id, q, MatchOf(q, Document(w, id)))
  {
    hide ValidText;
    NamesIff(w, id, q);
    var a, m := Document(w, id), MatchOf(q, Document(w, id));
    assert a.id == id;
    forall f
      ensures f in FixSet(a, q) <==> f != "" && exists x, range :: x in a.affected && x.ecosystem == q.ecosystem && x.name == q.name && range in x.ranges && f in range
    {
      if f in FixSet(a, q) {
        var x, range :| x in a.affected && Concerns(x, q) && range in x.ranges && f in range;
      }
    }
  }

  /** The evidence of the i-th package: one piece from each of its served advisories, in order. */
  ghost predicate Weighs(w: World, r: Report, ids: seq<string>, q: PackageVersion, matches: seq<Match>, from: seq<string>) {
    && |from| == |matches| && Ascending(from)
    && (forall id :: id in from <==> id in ids && Served(w, id))
    && forall k :: 0 <= k < |from| ==> Evidence(w, from[k], q, matches[k])
  }

  lemma StandsMatch(w: World, r: Report, q: PackageVersion, id: string)
    requires OsvStands(w, r, id) && (Served(w, id) ==> Known(w, r, id))
    ensures OsvKey(id) in r.records && r.records[OsvKey(id)].raw.Decoded? <==> Served(w, id)
    ensures OsvKey(id) in r.records && r.records[OsvKey(id)].raw.Decoded? ==> Evidence(w, id, q, MatchOf(q, r.records[OsvKey(id)].raw.advisory))
  {
    hide MatchOf, Evidence, ValidText;
    assert OsvKey(id) == "osv:" + id;
    if Served(w, id) {
      MatchIsEvidence(w, id, q);
    }
  }

  lemma {:induction false} MatchesWeigh(w: World, r: Report, ids: seq<string>, q: PackageVersion) returns (from: seq<string>)
    requires Ascending(ids) && forall id :: OsvStands(w, r, id)
    requires forall id :: id in ids && Served(w, id) ==> Known(w, r, id)
    ensures Weighs(w, r, ids, q, ExpectedMatches(r.records, q, ids), from)
  {
    hide OsvStands, Known, Served, Evidence, MatchOf;
    if ids == [] {
      from := [];
    } else {
      var last := |ids| - 1;
      assert ids == ids[..last] + [ids[last]];
      from := MatchesWeigh(w, r, ids[..last], q);
      assert OsvStands(w, r, ids[last]);
      StandsMatch(w, r, q, ids[last]);
      if Served(w, ids[last]) {
        forall i | 0 <= i < |from|
          ensures Less(from[i], ids[last])
        {
          assert from[i] in from;
          assert from[i] in ids[..last];
        }
        from := from + [ids[last]];
      }
    }
  }

  /** What the report says of a package: its identifiers are those of its answer, its evidence is one
      piece from each of the served ones, and its outcome is the strongest that those support. */
  ghost predicate Describes(w: World, r: Report, i: nat)
    requires i < |r.queries|
  {
    var q := r.queries[i];
    && Ascending(q.ids) && (forall id :: id in q.ids <==> Answered(w, r, i) && id != "" && id in w.answers[i].ids)
    && (exists from :: Weighs(w, r, q.ids, q.query, q.matches, from))
    && (q.outcome == AffectedVersionMatch <==> exists id :: id in q.ids && Affects(w, id, q.query))
    && (q.outcome == NoAdvisoryFound <==> q.ids == [] && WhollyKnown(w, r, i))
    && (q.outcome == Unknown <==> q.outcome != AffectedVersionMatch && q.outcome != NoAdvisoryFound)
  }

  lemma PackagesAreAnswers(rules: Rules, w: World, profile: Profile, r: Report)
    requires Built(rules, w, profile, r)
    ensures forall i :: 0 <= i < |r.queries| ==> Describes(w, r, i)
  {
    hide Built, Describes, OsvStands, NvdStands, CompleteBy, AnsweredIds, ExpectedMatches, ExpectedOutcome, WhollyKnown;
    RecordsAreDocuments(rules, w, profile, r);
    RefreshCompleteIff(rules, w, profile, r);
    forall i | 0 <= i < |r.queries|
      ensures Describes(w, r, i)
    {
      BuiltJudges(rules, w, profile, r, i);
      PackageDescribed(w, r, i);
    }
  }

  lemma BuiltJudges(rules: Rules, w: World, profile: Profile, r: Report, i: nat)
    requires Built(rules, w, profile, r) && i < |r.queries|
    ensures r.queries[i].ids == AnsweredIds(w, ReportPlan(r), i) && Judged(r, r.queries[i])
  {
    hide IsPlan, LookedUp, CVEsServed, Documents, LoadedBy, Judged, CompleteBy, AnsweredIds;
  }

  lemma PackageDescribed(w: World, r: Report, i: nat)
    requires i < |r.queries| && forall id :: OsvStands(w, r, id)
    requires r.queries[i].ids == AnsweredIds(w, ReportPlan(r), i) && Judged(r, r.queries[i])
    requires r.queries[i].complete <==> WhollyKnown(w, r, i)
    ensures Describes(w, r, i)
  {
    hide OsvStands, WhollyKnown, Served, Affects, Evidence, ExpectedMatches;
    var q := r.queries[i];
    forall id
      ensures id in q.ids <==> Answered(w, r, i) && id != "" && id in w.answers[i].ids
    {
    }
    assert forall id :: id in q.ids && Served(w, id) ==> Known(w, r, id);
    var from := MatchesWeigh(w, r, q.ids, q.query);
    AffectedIff(w, r, q.ids, q.query, q.matches, from);
  }

  lemma AffectedIff(w: World, r: Report, ids: seq<string>, q: PackageVersion, matches: seq<Match>, from: seq<string>)
    requires Weighs(w, r, ids, q, matches, from)
    ensures HasAffected(matches) <==> exists id :: id in ids && Affects(w, id, q)
  {
    hide Fixes, ValidText;
    if HasAffected(matches) {
      var k :| 0 <= k < |matches| && matches[k].outcome == AffectedVersionMatch;
      assert Evidence(w, from[k], q, matches[k]);
      assert from[k] in from;
    }
    if id :| id in ids && Affects(w, id, q) {
      assert id in from;
      var k :| 0 <= k < |from| && from[k] == id;
      assert matches[k] in matches;
    }
  }

  // ---------- errors ----------

  ghost predicate Occurs(part: string, whole: string) {
    exists before, behind :: whole == before + part + behind
  }

  lemma OccursInJoined(part: string, a: string, b: string)
    ensures Occurs(part, a) ==> Occurs(part, JoinError(a, b))
    ensures part == b ==> Occurs(part, JoinError(a, b))
  {
    var r := JoinError(a, b);
    if Occurs(part, a) {
      var before, behind :| a == before + part + behind;
      assert r == a + r[|a|..];
      assert r == before + part + (behind + r[|a|..]);
    }
    if part == b {
      assert r == r[..|r| - |b|] + b + "";
    }
  }

  lemma {:induction false} NothingLost(w: World, query: PackageVersion, error: string, ids: seq<string>, part: string)
    requires Occurs(part, error) || exists id :: id in ids && Complaint(w, query, id) == part && part != ""
    ensures Occurs(part, Noted(w, query, error, ids))
  {
    hide Complaint, JoinError, Occurs;
    if ids == [] {
    } else {
      var n := |ids| - 1;
      assert ids == ids[..n] + [ids[n]];
      var before := Noted(w, query, error, ids[..n]);
      OccursInJoined(part, before, Complaint(w, query, ids[n]));
      if Occurs(part, error) || exists id :: id in ids[..n] && Complaint(w, query, id) == part {
        NothingLost(w, query, error, ids[..n], part);
      }
    }
  }

  /** An answered package whose advisory could not be had says so, with the client's own text, whatever
      else went wrong with it. */
  lemma FailuresAreReported(rules: Rules, w: World, profile: Profile, r: Report, i: nat, id: string)
    requires Built(rules, w, profile, r) && i < |r.queries| && Answered(w, r, i)
    requires id in w.answers[i].ids && ValidText(id) && w.advisory(id).FetchFailed?
    ensures Occurs("OSV " + id + ": " + w.advisory(id).text, r.queries[i].error)
  {
    hide Built, ValidText, Occurs;
    BuiltErrors(rules, w, profile, r, i);
    ComplaintIs(w, r.queries[i].query, id);
    assert id != "" by {
      TextIsSomething(id);
    }
    assert id in Uniq(w.answers[i].ids);
    NothingLost(w, r.queries[i].query, AcceptedError(w.answers[i]), Uniq(w.answers[i].ids), "OSV " + id + ": " + w.advisory(id).text);
  }

  /** An answer's own error is in the result too, an identifier that is not valid text is complained about, and
      an incomplete answer with nothing else wrong is called incomplete. */
  lemma AnswersAreReported(rules: Rules, w: World, profile: Profile, r: Report, i: nat)
    requires Built(rules, w, profile, r) && i < |r.queries| && Answered(w, r, i)
    ensures Occurs(w.answers[i].error, r.queries[i].error)
    ensures (exists id :: id in w.answers[i].ids && !ValidText(id)) ==> Occurs("OSV returned invalid advisory ID", r.queries[i].error)
    ensures !w.answers[i].complete && w.answers[i].error == "" && (forall id :: id in w.answers[i].ids ==> ValidText(id)) ==>
      Occurs("OSV discovery incomplete", r.queries[i].error)
  {
    hide Built, ValidText, Occurs, AcceptedError, Noted;
    BuiltErrors(rules, w, profile, r, i);
    AnswerSays(w.answers[i]);
    var query, error, ids := r.queries[i].query, AcceptedError(w.answers[i]), Uniq(w.answers[i].ids);
    if Occurs(w.answers[i].error, error) {
      NothingLost(w, query, error, ids, w.answers[i].error);
    }
    if Occurs("OSV returned invalid advisory ID", error) {
      NothingLost(w, query, error, ids, "OSV returned invalid advisory ID");
    }
    if Occurs("OSV discovery incomplete", error) {
      NothingLost(w, query, error, ids, "OSV discovery incomplete");
    }
  }

  lemma AnswerSays(answer: Answer)
    ensures Occurs(answer.error, AcceptedError(answer))
    ensures (exists id :: id in answer.ids && !ValidText(id)) ==> Occurs("OSV returned invalid advisory ID", AcceptedError(answer))
    ensures !answer.complete && answer.error == "" && (forall id :: id in answer.ids ==> ValidText(id)) ==>
      AcceptedError(answer) == "OSV discovery incomplete" && Occurs("OSV discovery incomplete", AcceptedError(answer))
  {
    hide ValidText, Occurs, InvalidIds;
    NoInvalidIds(answer.error, answer.ids);
    OccursAlone(answer.error, "");
    OccursAlone("OSV discovery incomplete", "");
    InvalidSay(answer.error, answer.ids);
    if InvalidIds(answer.error, answer.ids) == "" {
      OccursAlone(answer.error, "OSV discovery incomplete");
    }
  }

  lemma OccursAlone(a: string, b: string)
    ensures Occurs(a, a) && Occurs("", b)
  {
    assert a == "" + a + "";
    assert b == "" + "" + b;
  }

  lemma {:induction false} InvalidSay(error: string, ids: seq<string>)
    ensures Occurs(error, InvalidIds(error, ids))
    ensures (exists id :: id in ids && !ValidText(id)) ==> Occurs("OSV returned invalid advisory ID", InvalidIds(error, ids))
  {
    hide ValidText, Occurs, JoinError;
    if ids == [] {
      OccursAlone(error, "");
    } else {
      var n := |ids| - 1;
      assert ids == ids[..n] + [ids[n]];
      InvalidSay(error, ids[..n]);
      var before := InvalidIds(error, ids[..n]);
      OccursInJoined(error, before, "OSV returned invalid advisory ID");
      OccursInJoined("OSV returned invalid advisory ID", before, "OSV returned invalid advisory ID");
    }
  }

  lemma TextIsSomething(id: string)
    requires ValidText(id)
    ensures id != ""
  {
  }

  lemma ComplaintIs(w: World, query: PackageVersion, id: string)
    requires ValidText(id) && w.advisory(id).FetchFailed?
    ensures Complaint(w, query, id) == "OSV " + id + ": " + w.advisory(id).text != ""
  {
  }

  lemma BuiltErrors(rules: Rules, w: World, profile: Profile, r: Report, i: nat)
    requires Built(rules, w, profile, r) && i < |r.queries| && Answered(w, r, i)
    ensures r.queries[i].error == Noted(w, r.queries[i].query, AcceptedError(w.answers[i]), Uniq(w.answers[i].ids))
  {
    hide IsPlan, LookedUp, CVEsServed, Documents, LoadedBy, Judged, CompleteBy, AnsweredIds, Noted, AcceptedError;
  }

  // ---------- what is remembered ----------

  /** The record that a report has of a CVE, observed or remembered. */
  ghost predicate Holds(r: Report, cve: string, rec: SourceRecord) {
    if "nvd:" + cve in r.records then r.records["nvd:" + cve] == rec
    else "nvd:" + cve in r.retained && r.retained["nvd:" + cve] == rec
  }

  /** NVD answered, in a complete refresh, that it has no such CVE. */
  ghost predicate KnownAbsent(w: World, r: Report, cve: string) {
    r.refreshComplete && w.nvd && Concerned(w, r, cve) && w.lookup(cve) == LookupMissing
  }

  lemma AbsencesAre(rules: Rules, w: World, profile: Profile, r: Report, cve: string)
    requires Built(rules, w, profile, r)
    ensures cve in Absences(r) <==> KnownAbsent(w, r, cve)
  {
    hide Concerned, Tells, Documented, Built;
    LookupsAreAnswers(rules, w, profile, r);
    RefreshCompleteIff(rules, w, profile, r);
    AcquiredIs(rules, w, profile, r);
    AbsenceTold(w, r, cve);
  }

  lemma AcquiredIs(rules: Rules, w: World, profile: Profile, r: Report)
    requires Built(rules, w, profile, r)
    ensures r.acquisition.AcquiredComplete? && r.repository == profile.repository && r.retained == map[]
  {
    hide IsPlan, LookedUp, CVEsServed, Documents, LoadedBy, Judged, CompleteBy, AnsweredIds;
  }

  lemma AbsenceTold(w: World, r: Report, cve: string)
    requires r.acquisition.AcquiredComplete? && (r.refreshComplete ==> !w.negativeInterval)
    requires Concerned(w, r, cve) <==> exists j :: 0 <= j < |r.enrichment| && r.enrichment[j].id == cve
    requires forall j :: 0 <= j < |r.enrichment| ==> Tells(w, r.enrichment[j])
    ensures cve in Absences(r) <==> KnownAbsent(w, r, cve)
  {
    hide Concerned, Documented;
  }

  /** What the next report remembers after a run, said from the clients' answers: of the NVD records
      the previous report had, observed or remembered, exactly those are kept that were not found
      again and were not said to be absent by a complete refresh.  So a lookup that failed, or was
      not made, or was for a CVE no longer mentioned, loses nothing. */
  lemma RememberedIff(rules: Rules, w: World, profile: Profile, r: Report, before: Report, cve: string, rec: SourceRecord)
    requires Built(rules, w, profile, r) && before.repository == profile.repository
    requires ValidRecords(before.records) && ValidRecords(before.retained)
    ensures
      var after := Retained(before, r).retained;
      "nvd:" + cve in after && after["nvd:" + cve] == rec <==>
        && Holds(before, cve, rec)
        && !(Concerned(w, r, cve) && Asks(w) && Documented(w, cve))
        && !KnownAbsent(w, r, cve)
  {
    hide Built, Concerned, Documented, KnownAbsent, Absences, OsvStands;
    RecordsAreDocuments(rules, w, profile, r);
    assert NvdStands(w, r, cve);
    AbsencesAre(rules, w, profile, r, cve);
    AcquiredIs(rules, w, profile, r);
    HeldIsNvd(before.records, cve);
    HeldIsNvd(before.retained, cve);
  }

  lemma HeldIsNvd(records: Records, cve: string)
    requires ValidRecords(records)
    ensures "nvd:" + cve in records ==> records["nvd:" + cve].source == Nvd && records["nvd:" + cve].id == cve
  {
    if "nvd:" + cve in records {
      var rec := records["nvd:" + cve];
      assert ValidRecord("nvd:" + cve, rec);
      assert NvdKey(cve) == "nvd:" + cve;
      KeysApart(rec.id, cve);
      KeysApart(cve, rec.id);
    }
  }

  /** A CVE said to be absent by a complete refresh is forgotten, even if it was remembered. */
  lemma AbsentIsForgotten(rules: Rules, w: World, profile: Profile, r: Report, before: Report, cve: string)
    requires Built(rules, w, profile, r) && before.repository == profile.repository
    requires ValidRecords(before.records) && ValidRecords(before.retained)
    requires r.refreshComplete && w.nvd && Concerned(w, r, cve) && w.lookup(cve) == LookupMissing
    ensures "nvd:" + cve !in Retained(before, r).retained && "nvd:" + cve !in r.records
  {
    hide Built, Concerned, Retained, OsvStands;
    RecordsAreDocuments(rules, w, profile, r);
    assert NvdStands(w, r, cve);
    if "nvd:" + cve in Retained(before, r).retained {
      RememberedIff(rules, w, profile, r, before, cve, Retained(before, r).retained["nvd:" + cve]);
    }
  }

  /** A CVE whose lookup failed keeps the record it had. */
  lemma FailedIsRemembered(rules: Rules, w: World, profile: Profile, r: Report, before: Report, cve: string, rec: SourceRecord)
    requires Built(rules, w, profile, r) && before.repository == profile.repository
    requires ValidRecords(before.records) && ValidRecords(before.retained)
    requires w.lookup(cve).LookupFailed? && Holds(before, cve, rec)
    ensures "nvd:" + cve in Retained(before, r).retained && Retained(before, r).retained["nvd:" + cve] == rec
  {
    hide Built, Concerned, Retained, Holds;
    RememberedIff(rules, w, profile, r, before, cve, rec);
  }
}
