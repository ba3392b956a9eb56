module ScanHistory {
  // What a saved baseline remembers and what is reported about it: `RetainEvidence` and `Changes`
  // (src/reposcan/changes.go) and the decision part of `Save` (src/reposcan/state.go).  Together they
  // are a change log: replaying the events from one baseline to the next gives the next one's keys.

  import opened ScanTypes
  import opened Text
  import opened AdvisoryGroups
  import opened ScanReport
  import opened ScanValidate

  // ---------- retained evidence ----------

  /** All that a report knows: what it observed, and what it still remembers. */
  function History(r: Report): Records {
    r.retained + r.records
  }

  ghost predicate Keeps(current: Report, key: string, rec: SourceRecord) {
    rec.source.Nvd? && rec.id !in Absences(current) && key !in current.records
  }

  /** What the previous and the current report remember together; the previous one goes first. */
  function Pooled(previous: Report, current: Report): Records {
    current.retained + History(previous)
  }

  /** The evidence that outlives a refresh. */
  ghost function Kept(previous: Report, current: Report): Records {
    if previous.repository != current.repository then current.retained
    else map k | k in Pooled(previous, current) && Keeps(current, k, Pooled(previous, current)[k]) :: Pooled(previous, current)[k]
  }

  ghost function Retained(previous: Report, current: Report): Report {
    current.(retained := Kept(previous, current))
  }

  /** The entries of overlay written over those of base, one by one in any order. */
  method Overlay(base: Records, overlay: Records) returns (r: Records)
    ensures r == base + overlay
  {
    r := base;
    var left := overlay.Keys;
    ghost var done: set<string> := {};
    while left != {}
      invariant left <= overlay.Keys && done == overlay.Keys - left
      invariant r == base + map k | k in done :: overlay[k]
      decreases left
    {
      var key :| key in left;
      r := r[key := overlay[key]];
      done := done + {key};
      left := left - {key};
    }
    assert (map k | k in done :: overlay[k]) == overlay;
  }

  /** The pooled records that are kept, again in any order. */
  method Filter(pooled: Records, current: Report, absent: set<string>) returns (r: Records)
    requires absent == Absences(current)
    ensures r == map k | k in pooled && Keeps(current, k, pooled[k]) :: pooled[k]
  {
    r := map[];
    var left := pooled.Keys;
    ghost var done: set<string> := {};
    while left != {}
      invariant left <= pooled.Keys && done == pooled.Keys - left
      invariant r == map k | k in done && Keeps(current, k, pooled[k]) :: pooled[k]
      decreases left
    {
      var key :| key in left;
      var rec := pooled[key];
      if rec.source.Nvd? && rec.id !in absent && key !in current.records {
        r := r[key := rec];
      }
      done := done + {key};
      left := left - {key};
    }
    assert done == pooled.Keys;
  }

  method RetainEvidence(previous: Report, current: Report) returns (r: Report)
    ensures r == Retained(previous, current)
  {
    if previous.repository != current.repository {
      return current;
    }
    var history := Overlay(previous.retained, previous.records);
    var pooled := Overlay(current.retained, history);
    var absent := NvdAbsences(current);
    var retained := Filter(pooled, current, absent);
    r := current.(retained := retained);
  }

  /** Retaining twice is retaining once. */
  lemma RetainIdempotent(previous: Report, current: Report)
    ensures Retained(previous, Retained(previous, current)) == Retained(previous, current)
  {
    var once := Retained(previous, current);
    assert Absences(once) == Absences(current);
    if previous.repository == current.repository {
      var twice := Kept(previous, once);
      forall k
        ensures k in twice <==> k in once.retained
        ensures k in twice ==> twice[k] == once.retained[k]
      {
        assert k in History(previous) ==> Pooled(previous, once)[k] == Pooled(previous, current)[k];
        assert k in once.retained ==> once.retained[k] == Pooled(previous, current)[k];
      }
      assert twice == once.retained;
    }
  }

  /** Nothing is remembered that is observed now or known to be absent. */
  lemma RetainedApart(previous: Report, current: Report)
    requires previous.repository == current.repository
    ensures Kept(previous, current).Keys !! current.records.Keys
    ensures forall k :: k in Kept(previous, current) ==>
      Kept(previous, current)[k].source.Nvd? && Kept(previous, current)[k].id !in Absences(Retained(previous, current))
  {
  }

  lemma RetainStaysValid(rules: Rules, before: State, s: State)
    requires ValidRecords(before.report.records) && ValidRetained(before.report)
    requires ValidState(rules, s)
    ensures ValidState(rules, s.(report := Retained(before.report, s.report)))
  {
    var previous, current := before.report, s.report;
    var next := Retained(previous, current);
    ValidStateIff(rules, s);
    RetainKeepsRecordsValid(previous, current);
    SameButRetained(rules, s, next);
  }

  lemma RetainKeepsRecordsValid(previous: Report, current: Report)
    requires ValidRecords(previous.records) && ValidRetained(previous) && ValidRetained(current)
    ensures ValidRetained(Retained(previous, current))
  {
  }

  /** Every other check reads only what retaining leaves alone. */
  lemma SameButRetained(rules: Rules, s: State, next: Report)
    requires ValidState(rules, s) && next == s.report.(retained := next.retained) && ValidRetained(next)
    ensures ValidState(rules, s.(report := next))
  {
    hide ValidCoverage, ValidRecords, IsGrouping, ValidEnrichments, ValidRetained;
    ValidStateIff(rules, s);
    ValidStateIff(rules, s.(report := next));
    SameCoverage(rules, s, next);
    SameEnrichments(s.report, next);
  }

  lemma SameCoverage(rules: Rules, s: State, next: Report)
    requires ValidCoverage(rules, s) && next == s.report.(retained := next.retained)
    ensures ValidCoverage(rules, s.(report := next))
  {
    var r := s.report;
    assert ReportPlan(next) == ReportPlan(r);
    forall i | 0 <= i < |next.queries|
      ensures ValidQuery(next, next.queries[i])
    {
      SameQuery(r, next, r.queries[i]);
    }
  }

  lemma SameQuery(r: Report, next: Report, q: PackageResult)
    requires ValidQuery(r, q) && next == r.(retained := next.retained)
    ensures ValidQuery(next, q)
  {
  }

  lemma SameEnrichments(r: Report, next: Report)
    requires ValidEnrichments(r) && next == r.(retained := next.retained)
    ensures ValidEnrichments(next)
  {
  }

  // ---------- saving ----------

  /** The file a state is saved to: not there, not a state that loads, or a state. */
  datatype File = Absent | Unreadable | Saved(state: State)

  datatype Decision = Written(state: State) | Refused(reason: string)

  /** Whether saving writes, and what. */
  ghost predicate Replaces(rules: Rules, same: (Profile, Profile) -> bool, file: File, s: State) {
    && ValidState(rules, s)
    && match file
       case Absent => true
       case Unreadable => false
       case Saved(before) =>
         ValidState(rules, before) && same(before.profile, s.profile) && s.report.refreshComplete
  }

  ghost function WhatIsWritten(file: File, s: State): State {
    match file
    case Saved(before) => s.(report := Retained(before.report, s.report))
    case _ => s
  }

  lemma WrittenIsValid(rules: Rules, same: (Profile, Profile) -> bool, file: File, s: State)
    requires Replaces(rules, same, file, s)
    ensures ValidState(rules, WhatIsWritten(file, s))
  {
    if file.Saved? {
      ValidStateIff(rules, file.state);
      RetainStaysValid(rules, file.state, s);
    }
  }

  /** Save, up to writing the file.  Whatever it writes loads again; the check it makes after
      retaining evidence never refuses. */
  method Save(rules: Rules, same: (Profile, Profile) -> bool, file: File, s: State) returns (d: Decision)
    requires rules.Injective()
    ensures d.Written? <==> Replaces(rules, same, file, s)
    ensures d.Written? <==>
      && ValidState(rules, s) && file != Unreadable
      && (file.Saved? ==> ValidState(rules, file.state) && same(file.state.profile, s.profile) && s.report.refreshComplete)
    ensures d.Written? ==> d.state == WhatIsWritten(file, s) && ValidState(rules, d.state)
    ensures d.Written? ==> d.state == s.(report := s.report.(retained := if file.Saved? then Kept(file.state.report, s.report) else s.report.retained))
  {
    var ok := ValidateState(rules, s);
    if !ok {
      return Refused("invalid state");
    }
    match file {
      case Absent => d := Written(s);
      case Unreadable => d := Refused("refuse replacing invalid baseline");
      case Saved(before) => d := Replace(rules, same, before, s);
    }
  }

  method Replace(rules: Rules, same: (Profile, Profile) -> bool, before: State, s: State) returns (d: Decision)
    requires rules.Injective() && ValidState(rules, s)
    ensures d.Written? <==> Replaces(rules, same, Saved(before), s)
    ensures d.Written? ==> d.state == WhatIsWritten(Saved(before), s) && ValidState(rules, d.state)
  {
    var loads := ValidateState(rules, before);
    if !loads {
      return Refused("refuse replacing invalid baseline");
    }
    if !same(before.profile, s.profile) {
      return Refused("refuse replacing a different saved profile");
    }
    if !s.report.refreshComplete {
      return Refused("refuse replacing baseline with incomplete refresh");
    }
    var report := RetainEvidence(before.report, s.report);
    var next := s.(report := report);
    WrittenIsValid(rules, same, Saved(before), s);
    var again := ValidateState(rules, next);
    if !again {
      assert false;
    }
    d := Written(next);
  }

  // ---------- changes ----------

  /** One reported event.  Gone is reported as no_longer_observed. */
  datatype Change =
    | Added(key: string, source: Source, id: string)
    | Modified(key: string, source: Source, id: string)
    | Gone(key: string, source: Source, id: string)
    | QueryChanged(text: string, query: PackageVersion)
  {
    function Key(): string {
      if QueryChanged? then "query:" + text else key
    }
  }

  /** Whether two raw documents are the same JSON value, and whether two queries encode alike. */
  datatype Comparison = Comparison(rules: Rules, same: (Raw, Raw) -> bool)

  ghost predicate CanRemove(previous: Report, current: Report) {
    current.refreshComplete && current.acquisition.AcquiredComplete? && previous.repository == current.repository
  }

  predicate Unchecked(r: Report, source: Source) {
    exists i :: 0 <= i < |r.enrichment| && r.enrichment[i].source == source && r.enrichment[i].status.NotChecked?
  }

  /** What a current record is reported as, if anything. */
  ghost predicate Observes(c: Comparison, history: Records, current: Report, e: Change) {
    match e
    case Added(key, source, id) =>
      key in current.records && key !in history && source == current.records[key].source && id == current.records[key].id
    case Modified(key, source, id) =>
      && key in current.records && key in history && !c.same(history[key].raw, current.records[key].raw)
      && source == current.records[key].source && id == current.records[key].id
    case _ => false
  }

  /** A record that a complete refresh shows to be gone. */
  ghost predicate Removes(history: Records, current: Report, e: Change) {
    && e.Gone? && e.key in history && e.key !in current.records
    && e.source == history[e.key].source && e.id == history[e.key].id
    && !Unchecked(current, e.source)
    && (e.source.Nvd? ==> e.id in Absences(current))
  }

  ghost predicate Reports(queries: seq<PackageResult>, query: PackageVersion) {
    exists i :: 0 <= i < |queries| && queries[i].query == query
  }

  /** A query asked now whose result is new or different. */
  ghost predicate Answers(c: Comparison, before: seq<PackageResult>, now: seq<PackageResult>, e: Change) {
    && e.QueryChanged? && e.text == c.rules.queryKey(e.query)
    && exists i :: 0 <= i < |now| && now[i].query == e.query && now[i] !in before
  }

  /** A query no longer asked. */
  ghost predicate Drops(c: Comparison, before: seq<PackageResult>, now: seq<PackageResult>, e: Change) {
    e.QueryChanged? && e.text == c.rules.queryKey(e.query) && Reports(before, e.query) && !Reports(now, e.query)
  }

  ghost predicate IsChange(c: Comparison, previous: Report, current: Report, e: Change) {
    || Observes(c, History(previous), current, e)
    || (CanRemove(previous, current) && Removes(History(previous), current, e))
    || Answers(c, previous.queries, current.queries, e)
    || (CanRemove(previous, current) && !Unchecked(current, Osv) && Drops(c, previous.queries, current.queries, e))
  }

  /** The changes between two reports: exactly the events above, in key order. */
  ghost predicate IsChangeList(c: Comparison, previous: Report, current: Report, out: seq<Change>) {
    && AscendingBy((e: Change) => e.Key(), out)
    && forall e :: e in out <==> IsChange(c, previous, current, e)
  }

  lemma ChangesUnique(c: Comparison, previous: Report, current: Report, a: seq<Change>, b: seq<Change>)
    requires IsChangeList(c, previous, current, a) && IsChangeList(c, previous, current, b)
    ensures a == b
  {
    AscendingByUnique((e: Change) => e.Key(), a, b);
  }

  /** Reports the log is about: records under their own keys, each query once. */
  ghost predicate Comparable(r: Report) {
    && ValidRecords(r.records) && ValidRecords(r.retained)
    && forall i, j :: 0 <= i < j < |r.queries| ==> r.queries[i].query != r.queries[j].query
  }

  lemma ValidIsComparable(rules: Rules, s: State)
    requires ValidState(rules, s)
    ensures Comparable(s.report)
  {
    ValidStateIff(rules, s);
    var r := s.report;
    forall k | k in r.retained
      ensures ValidRecord(k, r.retained[k])
    {
      assert ValidRetention(r, k, r.retained[k]);
    }
    var plan := ReportPlan(r);
    forall i, j | 0 <= i < j < |r.queries|
      ensures r.queries[i].query != r.queries[j].query
    {
      assert Asked(plan)[i] == r.queries[i].query && Asked(plan)[j] == r.queries[j].query;
      LessIrreflexive(rules.queryKey(Asked(plan)[i]));
    }
  }

  // ---------- computing them ----------

  method ObservedChanges(c: Comparison, history: Records, current: Report) returns (out: set<Change>)
    ensures forall e :: e in out <==> Observes(c, history, current, e)
  {
    out := {};
    var left := current.records.Keys;
    ghost var done: set<string> := {};
    while left != {}
      invariant left <= current.records.Keys && done == current.records.Keys - left
      invariant forall e :: e in out <==> Observes(c, history, current, e) && e.Key() in done
      decreases left
    {
      var key :| key in left;
      var rec := current.records[key];
      if key !in history {
        out := out + {Added(key, rec.source, rec.id)};
      } else if !c.same(history[key].raw, rec.raw) {
        out := out + {Modified(key, rec.source, rec.id)};
      }
      done := done + {key};
      left := left - {key};
    }
  }

  method UncheckedSources(r: Report) returns (sources: set<Source>)
    ensures forall s :: s in sources <==> Unchecked(r, s)
  {
    sources := {};
    for i := 0 to |r.enrichment|
      invariant forall s :: s in sources <==> exists j :: 0 <= j < i && r.enrichment[j].source == s && r.enrichment[j].status.NotChecked?
    {
      if r.enrichment[i].status.NotChecked? {
        sources := sources + {r.enrichment[i].source};
      }
    }
  }

  method GoneChanges(history: Records, current: Report, unchecked: set<Source>, absent: set<string>) returns (out: set<Change>)
    requires absent == Absences(current) && forall s :: s in unchecked <==> Unchecked(current, s)
    ensures forall e :: e in out <==> Removes(history, current, e)
  {
    out := {};
    var left := history.Keys;
    ghost var done: set<string> := {};
    while left != {}
      invariant left <= history.Keys && done == history.Keys - left
      invariant forall e :: e in out <==> Removes(history, current, e) && e.Key() in done
      decreases left
    {
      var key :| key in left;
      var rec := history[key];
      if !(rec.source in unchecked || (rec.source.Nvd? && rec.id !in absent)) && key !in current.records {
        out := out + {Gone(key, rec.source, rec.id)};
      }
      done := done + {key};
      left := left - {key};
    }
  }

  /** The previous results by the text of their query. */
  ghost predicate Indexes(c: Comparison, queries: seq<PackageResult>, index: map<string, PackageResult>) {
    && (forall i :: 0 <= i < |queries| ==> IndexedUnder(c, index, queries[i]))
    && forall k :: k in index ==> index[k] in queries && k == c.rules.queryKey(index[k].query)
  }

  ghost predicate IndexedUnder(c: Comparison, index: map<string, PackageResult>, q: PackageResult) {
    c.rules.queryKey(q.query) in index && index[c.rules.queryKey(q.query)] == q
  }

  method IndexQueries(c: Comparison, queries: seq<PackageResult>) returns (index: map<string, PackageResult>)
    requires c.rules.Injective() && forall i, j :: 0 <= i < j < |queries| ==> queries[i].query != queries[j].query
    ensures Indexes(c, queries, index)
  {
    index := map[];
    for i := 0 to |queries|
      invariant forall j :: 0 <= j < i ==> IndexedUnder(c, index, queries[j])
      invariant forall k :: k in index ==> index[k] in queries && k == c.rules.queryKey(index[k].query)
    {
      index := index[c.rules.queryKey(queries[i].query) := queries[i]];
    }
  }

  /** A result has not changed exactly when the index holds it. */
  lemma IndexHolds(c: Comparison, queries: seq<PackageResult>, index: map<string, PackageResult>, q: PackageResult)
    requires c.rules.Injective() && Indexes(c, queries, index)
    ensures q in queries <==> IndexedUnder(c, index, q)
    ensures Reports(queries, q.query) <==> c.rules.queryKey(q.query) in index
  {
  }

  /** The results compared with the indexed ones, each of which is struck off when it is met. */
  method CompareQueries(c: Comparison, before: seq<PackageResult>, now: seq<PackageResult>, index: map<string, PackageResult>)
    returns (out: set<Change>, left: map<string, PackageResult>)
    requires c.rules.Injective() && Indexes(c, before, index)
    requires forall i, j :: 0 <= i < j < |now| ==> now[i].query != now[j].query
    ensures forall e :: e in out <==> Answers(c, before, now, e)
    ensures forall k :: k in left <==> k in index && !Reports(now, index[k].query)
    ensures forall k :: k in left ==> left[k] == index[k]
  {
    hide Answers, Reports;
    out, left := {}, index;
    NothingCompared(c, before);
    assert now[..0] == [];
    for i := 0 to |now|
      invariant forall e :: e in out <==> Answers(c, before, now[..i], e)
      invariant forall k :: k in left <==> k in index && !Reports(now[..i], index[k].query)
      invariant forall k :: k in left ==> left[k] == index[k]
    {
      var k := c.rules.queryKey(now[i].query);
      IndexHolds(c, before, index, now[i]);
      StruckOff(c, before, index, now, i);
      AnswersMore(c, before, now, i);
      if k !in left || left[k] != now[i] {
        out := out + {QueryChanged(k, now[i].query)};
      }
      left := left - {k};
    }
    assert now[..|now|] == now;
  }

  lemma NothingCompared(c: Comparison, before: seq<PackageResult>)
    ensures forall e :: !Answers(c, before, [], e)
    ensures forall q :: !Reports([], q)
  {
  }

  lemma AnswersMore(c: Comparison, before: seq<PackageResult>, now: seq<PackageResult>, i: nat)
    requires i < |now|
    ensures forall e :: Answers(c, before, now[..i + 1], e) <==>
      Answers(c, before, now[..i], e) || (now[i] !in before && e == QueryChanged(c.rules.queryKey(now[i].query), now[i].query))
  {
    assert now[..i + 1] == now[..i] + [now[i]];
    forall e | Answers(c, before, now[..i], e)
      ensures Answers(c, before, now[..i + 1], e)
    {
      var j :| 0 <= j < i && now[..i][j].query == e.query && now[..i][j] !in before;
      assert now[..i + 1][j] == now[..i][j];
    }
    assert now[..i + 1][i] == now[i];
  }

  lemma StruckOff(c: Comparison, before: seq<PackageResult>, index: map<string, PackageResult>, now: seq<PackageResult>, i: nat)
    requires c.rules.Injective() && Indexes(c, before, index) && i < |now|
    requires forall a, b :: 0 <= a < b < |now| ==> now[a].query != now[b].query
    ensures !Reports(now[..i], now[i].query)
    ensures forall k :: k in index ==>
      (Reports(now[..i + 1], index[k].query) <==> Reports(now[..i], index[k].query) || k == c.rules.queryKey(now[i].query))
  {
  }

  method DroppedQueries(c: Comparison, previous: Report, current: Report, index: map<string, PackageResult>, left: map<string, PackageResult>)
    returns (out: set<Change>)
    requires c.rules.Injective() && Indexes(c, previous.queries, index)
    requires forall k :: k in left <==> k in index && !Reports(current.queries, index[k].query)
    requires forall k :: k in left ==> left[k] == index[k]
    ensures forall e :: e in out <==> Drops(c, previous.queries, current.queries, e)
  {
    out := set k | k in left :: QueryChanged(k, left[k].query);
    forall e
      ensures e in out <==> Drops(c, previous.queries, current.queries, e)
    {
      if Drops(c, previous.queries, current.queries, e) {
        var i :| 0 <= i < |previous.queries| && previous.queries[i].query == e.query;
        assert IndexedUnder(c, index, previous.queries[i]);
        assert e == QueryChanged(e.text, left[e.text].query);
      }
      if e in out {
        var k :| k in left && e == QueryChanged(k, left[k].query);
        assert IndexedUnder(c, index, index[k]);
        IndexHolds(c, previous.queries, index, index[k]);
      }
    }
  }

  /** No two events of one comparison share a key, so sorting by key settles their order. */
  lemma ChangesApart(c: Comparison, previous: Report, current: Report, e: Change, f: Change)
    requires c.rules.Injective() && Comparable(previous) && Comparable(current)
    requires IsChange(c, previous, current, e) && IsChange(c, previous, current, f) && e.Key() == f.Key()
    ensures e == f
  {
    KeyStarts(c, previous, current, e);
    KeyStarts(c, previous, current, f);
    if e.QueryChanged? {
      QueryChangesApart(c, e, f);
    } else {
      RecordChangesApart(c, History(previous), current, e, f);
    }
  }

  lemma QueryChangesApart(c: Comparison, e: Change, f: Change)
    requires c.rules.Injective() && e.QueryChanged? && f.QueryChanged? && e.Key() == f.Key()
    requires e.text == c.rules.queryKey(e.query) && f.text == c.rules.queryKey(f.query)
    ensures e == f
  {
    assert e.Key()[6..] == e.text && f.Key()[6..] == f.text;
  }

  lemma RecordChangesApart(c: Comparison, history: Records, current: Report, e: Change, f: Change)
    requires Observes(c, history, current, e) || Removes(history, current, e)
    requires Observes(c, history, current, f) || Removes(history, current, f)
    requires e.Key() == f.Key()
    ensures e == f
  {
  }

  lemma KeyStarts(c: Comparison, previous: Report, current: Report, e: Change)
    requires Comparable(previous) && Comparable(current) && IsChange(c, previous, current, e)
    ensures e.Key() != [] && (e.Key()[0] == 'q' <==> e.QueryChanged?)
  {
    if !e.QueryChanged? {
      if e.key in current.records {
        RecordKeyStarts(e.key, current.records[e.key]);
      } else if e.key in previous.records {
        RecordKeyStarts(e.key, previous.records[e.key]);
      } else {
        RecordKeyStarts(e.key, previous.retained[e.key]);
      }
    }
  }

  lemma RecordKeyStarts(key: string, rec: SourceRecord)
    requires ValidRecord(key, rec)
    ensures key != [] && key[0] != 'q'
  {
  }

  method Changes(c: Comparison, previous: Report, current: Report) returns (out: seq<Change>)
    requires c.rules.Injective() && Comparable(previous) && Comparable(current)
    ensures IsChangeList(c, previous, current, out)
  {
    var canRemove := current.refreshComplete && current.acquisition.AcquiredComplete? && previous.repository == current.repository;
    var absent := NvdAbsences(current);
    var unchecked := UncheckedSources(current);
    var history := Overlay(previous.retained, previous.records);
    var all := ObservedChanges(c, history, current);
    if canRemove {
      var gone := GoneChanges(history, current, unchecked, absent);
      all := all + gone;
    }
    var index := IndexQueries(c, previous.queries);
    var answered, left := CompareQueries(c, previous.queries, current.queries, index);
    all := all + answered;
    if canRemove && Osv !in unchecked {
      var dropped := DroppedQueries(c, previous, current, index, left);
      all := all + dropped;
    }
    forall e, f | e in all && f in all && e.Key() == f.Key()
      ensures e == f
    {
      ChangesApart(c, previous, current, e, f);
    }
    out := SortBy((e: Change) => e.Key(), all);
  }
}
