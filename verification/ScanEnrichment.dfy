module ScanEnrichment {
  // Looking up the CVEs of a scan in NVD: `enrich` (src/reposcan/run.go), against any behaviour of
  // the NVD client, and what `validateState` makes of the result.

  import opened ScanTypes
  import opened Text
  import opened ScanReport
  import opened ScanValidate
  import opened ScanDiscovery

  // ---------- NVD lookups ----------

  /** What looking up one CVE comes to. */
  function EnrichmentOf(w: World, id: string): Enrichment {
    if !w.nvd then Enrichment(Nvd, id, NotChecked, "")
    else if w.negativeInterval then Enrichment(Nvd, id, Failed, "NVD interval must not be negative")
    else
      match w.lookup(id)
      case LookupMissing => Enrichment(Nvd, id, NotFound, "")
      case LookupFailed(text) => Enrichment(Nvd, id, Failed, text)
      case LookupFound(raw) =>
        match raw.Identity()
        case None => Enrichment(Nvd, id, Failed, "decode NVD record")
        case Some(actual) =>
          if actual != id then Enrichment(Nvd, id, Failed, "NVD identity mismatch") else Enrichment(Nvd, id, Found, "")
  }

  ghost predicate NvdRecordFor(w: World, id: string, rec: SourceRecord) {
    EnrichmentOf(w, id).status.Found? && rec == NvdRecord(w, id)
  }

  /** The record of a CVE: the document as it was looked up. */
  ghost function NvdRecord(w: World, id: string): SourceRecord
    requires EnrichmentOf(w, id).status.Found?
  {
    SourceRecord(Nvd, id, [], false, w.lookup(id).raw)
  }

  /** A record that lookups of these CVEs have added. */
  ghost predicate Added(w: World, cves: seq<string>, key: string, rec: SourceRecord) {
    exists j :: 0 <= j < |cves| && key == NvdKey(cves[j]) && NvdRecordFor(w, cves[j], rec)
  }

  ghost predicate Enriched(w: World, base: Records, cves: seq<string>, records: Records) {
    && (forall k :: k in base ==> k in records && records[k] == base[k])
    && (forall j :: 0 <= j < |cves| && EnrichmentOf(w, cves[j]).status.Found? ==> NvdKey(cves[j]) in records)
    && forall k :: k in records && k !in base ==> Added(w, cves, k, records[k])
  }

  lemma EnrichedMore(w: World, base: Records, cves: seq<string>, n: nat, records: Records)
    requires n < |cves| && Enriched(w, base, cves[..n], records) && NvdKey(cves[n]) !in base
    ensures !EnrichmentOf(w, cves[n]).status.Found? ==> Enriched(w, base, cves[..n + 1], records)
    ensures forall rec :: NvdRecordFor(w, cves[n], rec) ==> Enriched(w, base, cves[..n + 1], records[NvdKey(cves[n]) := rec])
  {
    hide EnrichmentOf;
    var more := cves[..n + 1];
    assert more == cves[..n] + [cves[n]];
    forall k, rec | Added(w, cves[..n], k, rec)
      ensures Added(w, more, k, rec)
    {
      var j :| 0 <= j < n && k == NvdKey(cves[..n][j]) && NvdRecordFor(w, cves[..n][j], rec);
      assert more[j] == cves[..n][j];
    }
    forall rec | NvdRecordFor(w, cves[n], rec)
      ensures Enriched(w, base, more, records[NvdKey(cves[n]) := rec])
    {
      assert more[n] == cves[n];
      assert Added(w, more, NvdKey(cves[n]), rec);
    }
  }

  lemma FoundIsRecord(w: World, id: string)
    requires EnrichmentOf(w, id).status.Found?
    ensures w.lookup(id).LookupFound? && NvdRecordFor(w, id, SourceRecord(Nvd, id, [], false, w.lookup(id).raw))
  {
  }

  method Enrich(w: World, base: Records, cves: seq<string>) returns (records: Records, enrichment: seq<Enrichment>, failed: bool)
    requires forall j :: 0 <= j < |cves| ==> NvdKey(cves[j]) !in base
    ensures Enriched(w, base, cves, records)
    ensures |enrichment| == |cves| && forall j :: 0 <= j < |cves| ==> enrichment[j] == EnrichmentOf(w, cves[j])
    ensures failed <==> exists j :: 0 <= j < |cves| && EnrichmentOf(w, cves[j]).status.Failed?
  {
    hide Added, EnrichmentOf, NvdRecordFor;
    records, enrichment, failed := base, [], false;
    for n := 0 to |cves|
      invariant Enriched(w, base, cves[..n], records)
      invariant |enrichment| == n && forall j :: 0 <= j < n ==> enrichment[j] == EnrichmentOf(w, cves[j])
      invariant failed <==> exists j :: 0 <= j < n && EnrichmentOf(w, cves[j]).status.Failed?
    {
      var id := cves[n];
      EnrichedMore(w, base, cves, n, records);
      var result := EnrichmentOf(w, id);
      if result.status.Failed? {
        failed := true;
      } else if result.status.Found? {
        FoundIsRecord(w, id);
        var rec := SourceRecord(Nvd, id, [], false, w.lookup(id).raw);
        records := records[NvdKey(id) := rec];
      }
      enrichment := enrichment + [result];
    }
    assert cves[..|cves|] == cves;
  }

  /** The CVEs of all records, walked in any order, listed in order. */
  method CVEsToLookUp(records: Records) returns (cves: seq<string>)
    ensures cves == Arrange(ExpectedCVEs(records))
  {
    var found: set<string> := {};
    var left := records.Keys;
    ghost var done: set<string> := {};
    while left != {}
      invariant left <= records.Keys && done == records.Keys - left
      invariant found == CVEsOf(records, done)
      decreases left
    {
      var key :| key in left;
      var mentioned := CollectCVEs(records[key]);
      CVEsOfMore(records, done, key);
      found := found + mentioned;
      done := done + {key};
      left := left - {key};
    }
    CVEsOfAll(records);
    assert done == records.Keys;
    cves := SortKeys(found);
  }

  lemma NoNvdKeys(book: Book)
    requires book.Ok()
    ensures forall id :: NvdKey(id) !in book.records
  {
    forall id
      ensures NvdKey(id) !in book.records
    {
      if NvdKey(id) in book.records {
        var j :| j in book.details && NvdKey(id) == OsvKey(j);
        KeysApart(j, id);
      }
    }
  }

  // ---------- what the lookups leave behind ----------

  /** The text a failed lookup leaves is what `validateState` insists on; the clients' own errors
      all have one. */
  ghost predicate FailuresHaveText(w: World, cves: set<string>) {
    w.nvd && !w.negativeInterval ==> forall id :: id in cves ==> w.lookup(id) != LookupFailed("")
  }

  /** Lookups leave the OSV records alone. */
  lemma EnrichedKeepsOsv(w: World, book: Book, cves: seq<string>, records: Records, id: string)
    requires book.Ok() && Enriched(w, book.records, cves, records)
    ensures OsvKey(id) in records <==> OsvKey(id) in book.records
    ensures OsvKey(id) in book.records ==> records[OsvKey(id)] == book.records[OsvKey(id)]
  {
    if OsvKey(id) in records && OsvKey(id) !in book.records {
      var j :| 0 <= j < |cves| && OsvKey(id) == NvdKey(cves[j]) && NvdRecordFor(w, cves[j], records[OsvKey(id)]);
      KeysApart(id, cves[j]);
    }
  }

  lemma {:induction false} MatchesEnriched(w: World, book: Book, cves: seq<string>, records: Records, query: PackageVersion, ids: seq<string>)
    requires book.Ok() && Enriched(w, book.records, cves, records)
    ensures ExpectedMatches(records, query, ids) == ExpectedMatches(book.records, query, ids)
  {
    if ids != [] {
      MatchesEnriched(w, book, cves, records, query, ids[..|ids| - 1]);
      EnrichedKeepsOsv(w, book, cves, records, ids[|ids| - 1]);
    }
  }

  lemma DoneIsValid(w: World, book: Book, cves: seq<string>, r: Report, q: PackageResult)
    requires book.Ok() && Enriched(w, book.records, cves, r.records) && Done(book, q)
    requires r.status.StatusComplete? || r.refreshComplete ==> q.complete
    ensures ValidQuery(r, q)
  {
    MatchesEnriched(w, book, cves, r.records, q.query, q.ids);
    forall i | 0 <= i < |q.ids|
      ensures HasEvidence(r, q, q.ids[i])
    {
      EnrichedKeepsOsv(w, book, cves, r.records, q.ids[i]);
      BackedKeys(book, q.ids[i]);
      assert book.Backed(q.ids[i]);
    }
  }

  lemma EnrichedIsValid(w: World, book: Book, cves: seq<string>, records: Records)
    requires book.Ok() && Enriched(w, book.records, cves, records)
    requires forall j :: 0 <= j < |cves| ==> IsCVE(cves[j])
    ensures ValidRecords(records)
  {
    forall k | k in records
      ensures ValidRecord(k, records[k])
    {
      if k in book.records {
        var id :| id in book.details && k == OsvKey(id);
        assert book.Backed(id);
      } else {
        var j :| 0 <= j < |cves| && k == NvdKey(cves[j]) && NvdRecordFor(w, cves[j], records[k]);
        CVEIsValidText(cves[j]);
      }
    }
  }

  lemma NewIsNvd(w: World, book: Book, cves: seq<string>, records: Records, k: string)
    requires Enriched(w, book.records, cves, records) && k in records && k !in book.records
    ensures records[k].source.Nvd?
    ensures exists j :: 0 <= j < |cves| && k == NvdKey(cves[j]) && EnrichmentOf(w, cves[j]).status.Found? && records[k].id == cves[j]
  {
  }

  lemma OldIsOsv(book: Book, k: string)
    requires book.Ok() && k in book.records
    ensures book.records[k].source.Osv?
  {
    var id :| id in book.details && k == OsvKey(id);
    assert book.Backed(id);
  }

  /** Looking up CVEs mentions no further CVE. */
  lemma EnrichedSameCVEs(w: World, book: Book, cves: seq<string>, records: Records)
    requires book.Ok() && Enriched(w, book.records, cves, records)
    ensures ExpectedCVEs(records) == ExpectedCVEs(book.records)
  {
    CVEsOfAll(records);
    CVEsOfAll(book.records);
    forall x
      ensures x in CVEsOf(records, records.Keys) <==> x in CVEsOf(book.records, book.records.Keys)
    {
      CVEsOfIs(records, records.Keys, x);
      CVEsOfIs(book.records, book.records.Keys, x);
      if k :| k in records && MentionsCVE(records[k], x) {
        if k !in book.records {
          NewIsNvd(w, book, cves, records, k);
        }
      }
    }
  }

  predicate Textless(e: Enrichment) {
    e.status.Failed? && e.error == ""
  }

  lemma LookupIsValid(w: World, book: Book, cves: seq<string>, r: Report, j: nat)
    requires book.Ok() && Enriched(w, book.records, cves, r.records) && j < |cves|
    requires cves[j] in ExpectedCVEs(r.records)
    requires EnrichmentOf(w, cves[j]).status.Failed? ==> !r.status.StatusComplete? && !r.refreshComplete
    ensures ValidLookup(r, EnrichmentOf(w, cves[j])) <==> !Textless(EnrichmentOf(w, cves[j]))
  {
    hide Enriched, ExpectedCVEs;
    FoundIffRecorded(w, book, cves, r.records, j);
  }

  lemma FoundIffRecorded(w: World, book: Book, cves: seq<string>, records: Records, j: nat)
    requires book.Ok() && Enriched(w, book.records, cves, records) && j < |cves|
    ensures NvdKey(cves[j]) in records <==> EnrichmentOf(w, cves[j]).status.Found?
  {
    NoNvdKeys(book);
    if NvdKey(cves[j]) in records {
      NewIsNvd(w, book, cves, records, NvdKey(cves[j]));
      var i :| 0 <= i < |cves| && NvdKey(cves[j]) == NvdKey(cves[i]) && EnrichmentOf(w, cves[i]).status.Found?;
      KeysApart(cves[j], cves[i]);
    }
  }

  lemma LookupsValidIff(w: World, book: Book, cves: seq<string>, r: Report)
    requires book.Ok() && Enriched(w, book.records, cves, r.records)
    requires forall j :: 0 <= j < |cves| ==> cves[j] in ExpectedCVEs(r.records)
    requires |r.enrichment| == |cves| && forall j :: 0 <= j < |cves| ==> r.enrichment[j] == EnrichmentOf(w, cves[j])
    requires (exists j :: 0 <= j < |cves| && EnrichmentOf(w, cves[j]).status.Failed?) ==> !r.status.StatusComplete? && !r.refreshComplete
    ensures AllLookups(r, r.enrichment) <==> forall j :: 0 <= j < |cves| ==> !Textless(EnrichmentOf(w, cves[j]))
  {
    forall j | 0 <= j < |cves|
      ensures ValidLookup(r, r.enrichment[j]) <==> !Textless(EnrichmentOf(w, cves[j]))
    {
      LookupIsValid(w, book, cves, r, j);
    }
  }

  lemma TextsIff(w: World, cves: seq<string>, all: set<string>)
    requires forall id :: id in cves <==> id in all
    ensures (forall j :: 0 <= j < |cves| ==> !Textless(EnrichmentOf(w, cves[j]))) <==> FailuresHaveText(w, all)
  {
  }

  lemma EnrichmentsValidIff(w: World, book: Book, cves: seq<string>, r: Report)
    requires book.Ok() && Enriched(w, book.records, cves, r.records)
    requires cves == Arrange(ExpectedCVEs(r.records))
    requires |r.enrichment| == |cves| && forall j :: 0 <= j < |cves| ==> r.enrichment[j] == EnrichmentOf(w, cves[j])
    requires (exists j :: 0 <= j < |cves| && EnrichmentOf(w, cves[j]).status.Failed?) ==> !r.status.StatusComplete? && !r.refreshComplete
    ensures ValidEnrichments(r) <==> FailuresHaveText(w, ExpectedCVEs(r.records))
  {
    var all := ExpectedCVEs(r.records);
    forall j | 0 <= j < |cves|
      ensures cves[j] in all
    {
      assert cves[j] in cves;
    }
    LookupsValidIff(w, book, cves, r);
    TextsIff(w, cves, all);
    LookupsDistinct(w, cves, r.enrichment);
    ArrangeSize(all);
    AllFoundLookedUp(w, book, cves, r);
  }

  lemma LookupsDistinct(w: World, cves: seq<string>, es: seq<Enrichment>)
    requires Ascending(cves) && |es| == |cves|
    requires forall j :: 0 <= j < |cves| ==> es[j] == EnrichmentOf(w, cves[j])
    ensures DistinctIds(es)
  {
    AscendingDistinct(cves);
    forall i, j | 0 <= i < j < |es|
      ensures es[i].id != es[j].id
    {
      assert es[i].id == cves[i] && es[j].id == cves[j];
    }
  }

  lemma AllFoundLookedUp(w: World, book: Book, cves: seq<string>, r: Report)
    requires book.Ok() && Enriched(w, book.records, cves, r.records)
    requires |r.enrichment| == |cves| && forall j :: 0 <= j < |cves| ==> r.enrichment[j] == EnrichmentOf(w, cves[j])
    ensures RecordsLookedUp(r)
  {
    forall k | k in r.records && r.records[k].source.Nvd?
      ensures FoundFor(r, r.records[k].id)
    {
      if k in book.records {
        OldIsOsv(book, k);
      } else {
        NewIsNvd(w, book, cves, r.records, k);
        var j :| 0 <= j < |cves| && EnrichmentOf(w, cves[j]).status.Found? && r.records[k].id == cves[j];
        assert r.enrichment[j].status.Found?;
      }
    }
  }

  lemma CVEsAreCVEs(records: Records, cves: seq<string>)
    requires cves == Arrange(ExpectedCVEs(records))
    ensures forall j :: 0 <= j < |cves| ==> IsCVE(cves[j])
  {
    forall j | 0 <= j < |cves|
      ensures IsCVE(cves[j])
    {
      assert cves[j] in cves;
    }
  }

  // ---------- the documents on record ----------

  ghost predicate OsvOnRecord(w: World, loaded: set<string>, records: Records, id: string) {
    && (OsvKey(id) in records <==> id in loaded)
    && (id in loaded ==> DetailOf(w, id).Loaded? && records[OsvKey(id)] == OsvRecord(w, id))
  }

  ghost predicate NvdOnRecord(w: World, cves: set<string>, records: Records, id: string) {
    && (NvdKey(id) in records <==> id in cves && EnrichmentOf(w, id).status.Found?)
    && (NvdKey(id) in records ==> records[NvdKey(id)] == NvdRecord(w, id))
  }

  ghost predicate HasIdentifier(k: string) {
    exists id :: k == OsvKey(id) || k == NvdKey(id)
  }

  /** The records are the served advisories and the CVEs found by lookup, each with its own document,
      and nothing else. */
  ghost predicate Documents(w: World, loaded: set<string>, cves: set<string>, records: Records) {
    && (forall id {:trigger OsvOnRecord(w, loaded, records, id)} :: OsvOnRecord(w, loaded, records, id))
    && (forall id {:trigger NvdOnRecord(w, cves, records, id)} :: NvdOnRecord(w, cves, records, id))
    && forall k {:trigger HasIdentifier(k)} :: k in records ==> HasIdentifier(k)
  }

  /** There is one such map. */
  lemma DocumentsUnique(w: World, loaded: set<string>, cves: set<string>, a: Records, b: Records)
    requires Documents(w, loaded, cves, a) && Documents(w, loaded, cves, b)
    ensures a == b
  {
    forall k
      ensures k in a <==> k in b
      ensures k in a && k in b ==> a[k] == b[k]
    {
      if HasIdentifier(k) {
        var id :| k == OsvKey(id) || k == NvdKey(id);
        assert OsvOnRecord(w, loaded, a, id) && OsvOnRecord(w, loaded, b, id);
        assert NvdOnRecord(w, cves, a, id) && NvdOnRecord(w, cves, b, id);
      }
    }
  }

  lemma EnrichedDocuments(w: World, book: Book, cves: seq<string>, all: set<string>, records: Records)
    requires book.Ok() && Agrees(w, book) && Enriched(w, book.records, cves, records)
    requires forall id :: id in cves <==> id in all
    ensures Documents(w, book.details.Keys, all, records)
  {
    hide Agrees, DetailOf, EnrichmentOf;
    forall id
      ensures OsvOnRecord(w, book.details.Keys, records, id)
    {
      BookOnRecord(w, book, cves, records, id);
    }
    forall id
      ensures NvdOnRecord(w, all, records, id)
    {
      LookupOnRecord(w, book, cves, all, records, id);
    }
    forall k | k in records
      ensures HasIdentifier(k)
    {
      if k in book.records {
        var id :| id in book.details && k == OsvKey(id);
      } else {
        NewIsNvd(w, book, cves, records, k);
      }
    }
  }

  lemma BookOnRecord(w: World, book: Book, cves: seq<string>, records: Records, id: string)
    requires book.Ok() && Agrees(w, book) && Enriched(w, book.records, cves, records)
    ensures OsvOnRecord(w, book.details.Keys, records, id)
  {
    hide Enriched, Book.Ok, DetailOf;
    EnrichedKeepsOsv(w, book, cves, records, id);
    BackedKeys(book, id);
    assert Shelved(w, book, id);
  }

  lemma LookupOnRecord(w: World, book: Book, cves: seq<string>, all: set<string>, records: Records, id: string)
    requires book.Ok() && Enriched(w, book.records, cves, records)
    requires forall x :: x in cves <==> x in all
    ensures NvdOnRecord(w, all, records, id)
  {
    hide EnrichmentOf, Book.Ok;
    NoNvdKeys(book);
    if NvdKey(id) in records {
      var j :| 0 <= j < |cves| && NvdKey(id) == NvdKey(cves[j]) && NvdRecordFor(w, cves[j], records[NvdKey(id)]);
      KeysApart(id, cves[j]);
    }
  }
}
