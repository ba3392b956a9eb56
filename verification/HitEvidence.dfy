/** The evidence that preparation asks of a hit: the match loop of `prepareGroup`
    (src/scananalyze/prepare.go), and that saved scans which pass `validateState` have it. */
module HitEvidence {
  import opened ScanTypes
  import opened Text
  import opened ScanReport
  import opened ScanValidate

  /** The record keys of an alias group, and the advisories among its records. */
  datatype Dossier = Dossier(keys: set<string>, documents: map<string, Advisory>)

  /** A match with its fixed versions sorted. */
  ghost function Normal(m: Match): Match {
    m.(fixedVersions := Uniq(m.fixedVersions))
  }

  predicate IsHit(d: Dossier, m: Match) {
    m.recordKey in d.keys && m.outcome == AffectedVersionMatch
  }

  /** The group's own advisory says what the match says: it stands, it is one the query found, it names
      the package, and gives these fixed versions. */
  ghost predicate Proves(d: Dossier, q: PackageResult, m: Match) {
    && m.recordKey in d.documents
    && var a := d.documents[m.recordKey];
       && a.withdrawn == "" && m.reason == "" && a.id in q.ids
       && NamesPackage(a, q.query) && Uniq(m.fixedVersions) == Arrange(FixSet(a, q.query))
  }

  /** Matches of one record agree, every hit is proved, and there is one. */
  ghost predicate Evident(d: Dossier, q: PackageResult) {
    && (forall i, j :: 0 <= i < j < |q.matches| && q.matches[i].recordKey == q.matches[j].recordKey && q.matches[i].recordKey in d.keys
         ==> Normal(q.matches[i]) == Normal(q.matches[j]))
    && (forall i :: 0 <= i < |q.matches| && IsHit(d, q.matches[i]) ==> Proves(d, q, q.matches[i]))
    && exists i :: 0 <= i < |q.matches| && IsHit(d, q.matches[i])
  }

  /** Affected, and complete unless the scan is not. */
  predicate Coherent(settled: bool, q: PackageResult) {
    && q.outcome == AffectedVersionMatch && q.runtimeImpact == UNKNOWN_IMPACT
    && (q.complete ==> q.error == "") && (!q.complete ==> !settled)
  }

  /** What one match is checked for against its advisory. */
  method CheckProof(d: Dossier, q: PackageResult, m: Match, sorted: seq<string>) returns (ok: bool)
    requires sorted == Uniq(m.fixedVersions)
    ensures ok <==> Proves(d, q, m)
  {
    if m.recordKey !in d.documents {
      return false;
    }
    var a := d.documents[m.recordKey];
    if a.withdrawn != "" || m.reason != "" || a.id !in q.ids {
      return false;
    }
    var matched, fixed: seq<string> := false, [];
    for i := 0 to |a.affected|
      invariant matched <==> exists j :: 0 <= j < i && Concerns(a.affected[j], q.query)
      invariant NonEmpty(fixed) == FixSet(a.(affected := a.affected[..i]), q.query)
    {
      FixSetStep(a, q.query, i);
      if Concerns(a.affected[i], q.query) {
        matched := true;
        fixed := AppendFixes(a.affected[i], fixed);
      }
    }
    assert a.affected[..|a.affected|] == a.affected;
    var fixes := Unique(fixed);
    ok := matched && fixes == sorted;
  }

  /** What the loop over the matches knows. */
  ghost predicate SeenSoFar(d: Dossier, q: PackageResult, i: nat, seen: map<string, Match>)
    requires i <= |q.matches|
  {
    && (forall j :: 0 <= j < i && q.matches[j].recordKey in d.keys ==>
          q.matches[j].recordKey in seen && seen[q.matches[j].recordKey] == Normal(q.matches[j]))
    && forall k :: k in seen ==> k in d.keys && exists j :: 0 <= j < i && q.matches[j].recordKey == k
  }

  method CheckEvidence(d: Dossier, q: PackageResult) returns (ok: bool)
    ensures ok <==> Evident(d, q)
  {
    hide Proves, Normal;
    var seen: map<string, Match> := map[];
    var found := false;
    for i := 0 to |q.matches|
      invariant SeenSoFar(d, q, i, seen)
      invariant forall j :: 0 <= j < i && IsHit(d, q.matches[j]) ==> Proves(d, q, q.matches[j])
      invariant found <==> exists j :: 0 <= j < i && IsHit(d, q.matches[j])
    {
      var m := q.matches[i];
      if m.recordKey !in d.keys {
        continue;
      }
      var sorted := Unique(m.fixedVersions);
      NormalIs(m);
      m := m.(fixedVersions := sorted);
      if m.recordKey in seen && seen[m.recordKey] != m {
        return false;
      }
      seen := seen[m.recordKey := m];
      if m.outcome == AffectedVersionMatch {
        var proved := CheckProof(d, q, q.matches[i], sorted);
        if !proved {
          return false;
        }
        found := true;
      }
    }
    AgreeWhenSeen(d, q, seen);
    ok := found;
  }

  lemma NormalIs(m: Match)
    ensures Normal(m) == m.(fixedVersions := Uniq(m.fixedVersions))
  {
  }

  lemma AgreeWhenSeen(d: Dossier, q: PackageResult, seen: map<string, Match>)
    requires SeenSoFar(d, q, |q.matches|, seen)
    ensures forall i, j :: 0 <= i < j < |q.matches| && q.matches[i].recordKey == q.matches[j].recordKey && q.matches[i].recordKey in d.keys
              ==> Normal(q.matches[i]) == Normal(q.matches[j])
  {
  }

  // ---------- saved scans have the evidence ----------

  /** The dossier of a group: the OSV documents among its current records. */
  ghost predicate IsDossier(d: Dossier, records: Records) {
    && (forall k :: k in d.documents <==> k in d.keys && k in records && records[k].source.Osv?)
    && forall k :: k in d.documents ==> records[k].raw.Decoded? && d.documents[k] == records[k].raw.advisory
  }

  ghost predicate IsFromAdvisory(records: Records, q: PackageVersion, ids: seq<string>, m: Match) {
    exists k :: 0 <= k < |ids| && OsvKey(ids[k]) in records && records[OsvKey(ids[k])].raw.Decoded?
                && m == MatchOf(q, records[OsvKey(ids[k])].raw.advisory)
  }

  lemma {:induction false} ExpectedAreFromAdvisories(records: Records, q: PackageVersion, ids: seq<string>, i: nat)
    requires i < |ExpectedMatches(records, q, ids)|
    ensures IsFromAdvisory(records, q, ids, ExpectedMatches(records, q, ids)[i])
  {
    hide MatchOf;
    var last := |ids| - 1;
    if i < |ExpectedMatches(records, q, ids[..last])| {
      ExpectedAreFromAdvisories(records, q, ids[..last], i);
      var m := ExpectedMatches(records, q, ids[..last])[i];
      var k :| 0 <= k < last && OsvKey(ids[..last][k]) in records && records[OsvKey(ids[..last][k])].raw.Decoded?
               && m == MatchOf(q, records[OsvKey(ids[..last][k])].raw.advisory);
      assert ids[..last][k] == ids[k];
    }
  }

  /** Every match of a valid query names the record of an advisory with the query's own identifier. */
  lemma MatchIsOfRecord(r: Report, q: PackageResult, i: nat) returns (id: string)
    requires ValidRecords(r.records) && ValidQuery(r, q) && i < |q.matches|
    ensures id in q.ids && OsvKey(id) in r.records && r.records[OsvKey(id)].source.Osv? && r.records[OsvKey(id)].raw.Decoded?
    ensures r.records[OsvKey(id)].raw.advisory.id == id
    ensures q.matches[i] == MatchOf(q.query, r.records[OsvKey(id)].raw.advisory) && q.matches[i].recordKey == OsvKey(id)
  {
    hide MatchOf, IsCVE, ValidText;
    ExpectedAreFromAdvisories(r.records, q.query, q.ids, i);
    var k :| 0 <= k < |q.ids| && OsvKey(q.ids[k]) in r.records && r.records[OsvKey(q.ids[k])].raw.Decoded?
             && q.matches[i] == MatchOf(q.query, r.records[OsvKey(q.ids[k])].raw.advisory);
    id := q.ids[k];
    var rec := r.records[OsvKey(id)];
    assert ValidRecord(OsvKey(id), rec);
    KeysApart(id, rec.id);
    MatchKey(q.query, rec.raw.advisory);
  }

  lemma MatchKey(q: PackageVersion, a: Advisory)
    ensures MatchOf(q, a).recordKey == OsvKey(a.id)
  {
  }

  /** A saved scan that passes `validateState` has all the evidence that preparation asks for: a
      query with a hit in a group is never turned down for its matches or its outcome. */
  lemma ValidIsEvident(rules: Rules, s: State, d: Dossier, q: PackageResult)
    requires ValidState(rules, s) && q in s.report.queries && IsDossier(d, s.report.records)
    requires exists i :: 0 <= i < |q.matches| && IsHit(d, q.matches[i])
    ensures Evident(d, q) && Coherent(s.report.status.StatusComplete? || s.report.refreshComplete, q)
  {
    ValidStateIff(rules, s);
    hide ValidState, ValidHeader, ValidRecords, MatchOf, Normal, Proves;
    var r := s.report;
    assert ValidQuery(r, q);
    forall i, j | 0 <= i < j < |q.matches| && q.matches[i].recordKey == q.matches[j].recordKey
      ensures q.matches[i] == q.matches[j]
    {
      var a := MatchIsOfRecord(r, q, i);
      var b := MatchIsOfRecord(r, q, j);
      KeysApart(a, b);
    }
    forall i | 0 <= i < |q.matches| && IsHit(d, q.matches[i])
      ensures Proves(d, q, q.matches[i])
    {
      var id := MatchIsOfRecord(r, q, i);
      HitIsProved(d, r, q, q.matches[i], id);
    }
    HitMeansAffected(q, d);
  }

  lemma HitIsProved(d: Dossier, r: Report, q: PackageResult, m: Match, id: string)
    requires IsDossier(d, r.records) && IsHit(d, m) && id in q.ids && m.recordKey == OsvKey(id)
    requires OsvKey(id) in r.records && r.records[OsvKey(id)].source.Osv? && r.records[OsvKey(id)].raw.Decoded?
    requires r.records[OsvKey(id)].raw.advisory.id == id && m == MatchOf(q.query, r.records[OsvKey(id)].raw.advisory)
    ensures Proves(d, q, m)
  {
    var a := r.records[OsvKey(id)].raw.advisory;
    var fixes := FixSet(a, q.query);
    assert "" !in fixes;
    assert NonEmpty(Arrange(fixes)) == fixes;
  }

  lemma HitMeansAffected(q: PackageResult, d: Dossier)
    requires exists i :: 0 <= i < |q.matches| && IsHit(d, q.matches[i])
    ensures HasAffected(q.matches)
  {
  }
}
