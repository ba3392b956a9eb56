/** What outlives a refresh and which changes are reported, said of the two reports alone. */
module HistoryClaims {
  import opened ScanTypes
  import opened Text
  import opened ScanReport
  import opened ScanValidate
  import opened ScanHistory

  /** A report knows what it observed and, under other keys, what it remembers. */
  ghost predicate Knows(r: Report, k: string, rec: SourceRecord) {
    || (k in r.records && rec == r.records[k])
    || (k !in r.records && k in r.retained && rec == r.retained[k])
  }

  ghost predicate IsKnown(r: Report, k: string) {
    k in r.records || k in r.retained
  }

  /** A refresh with nothing missing and every NVD lookup made has been told that there is no such CVE. */
  ghost predicate ShownAbsent(r: Report, id: string) {
    && r.refreshComplete && r.acquisition == AcquiredComplete
    && (forall e :: e in r.enrichment && e.source == Nvd ==> e.status != NotChecked)
    && exists e :: e in r.enrichment && e.source == Nvd && e.status == NotFound && e.error == "" && e.id == id
  }

  lemma AbsentIff(r: Report, id: string)
    ensures id in Absences(r) <==> ShownAbsent(r, id)
  {
    if ShownAbsent(r, id) {
      var e :| e in r.enrichment && e.source == Nvd && e.status == NotFound && e.error == "" && e.id == id;
      assert id in Absences(r);
    }
  }

  /** A record is remembered after a refresh exactly when it is an NVD record that was known before, what was
      observed last going first, that is not observed now and has not been shown to be absent. */
  lemma KeptIff(previous: Report, current: Report, k: string, rec: SourceRecord)
    ensures previous.repository != current.repository ==> Kept(previous, current) == current.retained
    ensures previous.repository == current.repository ==>
      (k in Kept(previous, current) && Kept(previous, current)[k] == rec <==>
        && rec.source == Nvd && k !in current.records && !ShownAbsent(current, rec.id)
        && (Knows(previous, k, rec) || (!IsKnown(previous, k) && k in current.retained && rec == current.retained[k])))
  {
    hide ShownAbsent, Absences;
    AbsentIff(current, rec.id);
  }

  /** A refresh that proves removals: complete, on complete sources, of the same repository. */
  ghost predicate Conclusive(previous: Report, current: Report) {
    current.refreshComplete && current.acquisition == AcquiredComplete && current.repository == previous.repository
  }

  ghost predicate LeftOut(r: Report, source: Source) {
    exists e :: e in r.enrichment && e.source == source && e.status == NotChecked
  }

  lemma LeftOutIff(r: Report, source: Source)
    ensures Unchecked(r, source) <==> LeftOut(r, source)
  {
    if e :| e in r.enrichment && e.source == source && e.status == NotChecked {
      var i :| 0 <= i < |r.enrichment| && r.enrichment[i] == e;
      assert r.enrichment[i].source == source && r.enrichment[i].status.NotChecked?;
    }
  }

  /** Which records a list of changes reports as added, modified or no longer observed. */
  lemma RecordEventsAre(c: Comparison, previous: Report, current: Report, out: seq<Change>, k: string, source: Source, id: string)
    requires IsChangeList(c, previous, current, out)
    ensures Added(k, source, id) in out <==>
      k in current.records && !IsKnown(previous, k) && source == current.records[k].source && id == current.records[k].id
    ensures Modified(k, source, id) in out <==>
      && k in current.records && source == current.records[k].source && id == current.records[k].id
      && exists rec :: Knows(previous, k, rec) && !c.same(rec.raw, current.records[k].raw)
    ensures Gone(k, source, id) in out <==>
      && Conclusive(previous, current) && k !in current.records && !LeftOut(current, source)
      && (exists rec :: Knows(previous, k, rec) && source == rec.source && id == rec.id)
      && (source == Nvd ==> ShownAbsent(current, id))
  {
    hide ShownAbsent, Absences, LeftOut, Unchecked;
    AbsentIff(current, id);
    LeftOutIff(current, source);
    if k in History(previous) {
      assert Knows(previous, k, History(previous)[k]);
    }
  }

  ghost predicate Asked(queries: seq<PackageResult>, query: PackageVersion) {
    exists q :: q in queries && q.query == query
  }

  lemma AskedIff(queries: seq<PackageResult>, query: PackageVersion)
    ensures Reports(queries, query) <==> Asked(queries, query)
  {
    if q :| q in queries && q.query == query {
      var i :| 0 <= i < |queries| && queries[i] == q;
      assert queries[i].query == query;
    }
  }

  /** Which queries it reports: those with a result that was not there before, and those that a refresh
      with every OSV lookup made asks no more. */
  lemma QueryEventsAre(c: Comparison, previous: Report, current: Report, out: seq<Change>, text: string, query: PackageVersion)
    requires IsChangeList(c, previous, current, out)
    ensures QueryChanged(text, query) in out <==>
      && text == c.rules.queryKey(query)
      && ((exists q :: q in current.queries && q.query == query && q !in previous.queries) ||
          (Conclusive(previous, current) && !LeftOut(current, Osv) && Asked(previous.queries, query) && !Asked(current.queries, query)))
  {
    hide LeftOut, Unchecked, Asked, Reports, History;
    LeftOutIff(current, Osv);
    AskedIff(previous.queries, query);
    AskedIff(current.queries, query);
    if q :| q in current.queries && q.query == query && q !in previous.queries {
      var i :| 0 <= i < |current.queries| && current.queries[i] == q;
      assert current.queries[i].query == query && current.queries[i] !in previous.queries;
    }
  }

  /** A refresh that finds what is already on record reports nothing. */
  lemma SameAgainIsSilent(c: Comparison, r: Report, out: seq<Change>)
    requires ValidRetained(r) && (forall raw :: c.same(raw, raw))
    requires IsChangeList(c, r, r, out)
    ensures out == []
  {
    hide Absences, Unchecked;
    if out != [] {
      assert out[0] in out;
      NothingToReport(c, r, out[0]);
    }
  }

  lemma NothingToReport(c: Comparison, r: Report, e: Change)
    requires ValidRetained(r) && (forall raw :: c.same(raw, raw))
    ensures !IsChange(c, r, r, e)
  {
    hide Absences, Unchecked;
    forall k | k in r.retained
      ensures r.retained[k].source.Nvd? && r.retained[k].id !in Absences(r)
    {
      assert ValidRetention(r, k, r.retained[k]);
    }
  }
}
