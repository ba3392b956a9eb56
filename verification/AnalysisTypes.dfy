module AnalysisTypes {
  // The report of a resumable analysis run and what a saved one must satisfy to be resumed:
  // `validateResume`, `validateEntry`, `recount` and `nextStage` (src/scananalyze/run.go).  Schema and
  // evidence checks, digests and feed construction are parameters.

  import opened ScanTypes

  datatype Relevance = Related | PossiblyRelated | RelevanceUnknown | Unrelated | OtherRelevance(name: string)
  datatype Screening = Screening(relevance: Relevance, content: string)
  datatype Analysis = Analysis(content: string)
  datatype Item = Item(content: string)
  datatype Input = Input(content: string)
  datatype Prepared = Prepared(id: string, ids: seq<string>, recordKeys: seq<string>, kinds: seq<string>, input: Input, error: string)

  datatype Reply<+T> = Answered(output: T) | Failed(text: string)

  datatype Rules = Rules(
    validInput: Input -> bool,
    validScreening: (Input, Screening) -> bool,
    validAnalysis: (Input, Analysis) -> bool,
    build: (Input, Screening, Option<Analysis>) -> Reply<Item>,
    digest: Prepared -> string,
    screeningDigest: (string, Screening) -> string,
    analysisDigest: (string, Analysis) -> string)
  {
    /** processor.ValidateOutputs: one of the four relevances, and an analysis only for a related one. */
    predicate ValidOutputs(input: Input, s: Option<Screening>, a: Option<Analysis>) {
      && validInput(input)
      && (a.Some? ==> s.Some? && s.value.relevance.Related?)
      && (s.Some? ==> !s.value.relevance.OtherRelevance? && validScreening(input, s.value))
      && (a.Some? ==> validAnalysis(input, a.value))
    }

    function ScreeningHash(inputHash: string, s: Option<Screening>): string {
      if s.None? then "" else screeningDigest(inputHash, s.value)
    }

    function AnalysisHash(inputHash: string, a: Option<Analysis>): string {
      if a.None? then "" else analysisDigest(inputHash, a.value)
    }
  }

  datatype Stage = AtScreening | AtAnalysis | AtFeed | AtComplete | AtSelection | AtPreparation | OtherStage(name: string)

  datatype Status =
    | Pending | NotSelected | PreparationError | ScreeningError | AnalysisError | FeedError
    | Analyzed | ScreeningOnly | Excluded | OtherStatus(name: string)

  /** A stage's name with "_error" behind it. */
  function ErrorAt(stage: Stage): Status {
    match stage
    case AtScreening => ScreeningError
    case AtAnalysis => AnalysisError
    case AtFeed => FeedError
    case AtPreparation => PreparationError
    case AtComplete => OtherStatus("complete_error")
    case AtSelection => OtherStatus("selection_error")
    case OtherStage(name) => OtherStatus(name + "_error")
  }

  predicate Finished(status: Status) {
    status.Analyzed? || status.ScreeningOnly? || status.Excluded?
  }

  predicate IsError(status: Status) {
    status.PreparationError? || status.ScreeningError? || status.AnalysisError? || status.FeedError?
  }

  datatype Entry = Entry(
    id: string, ids: seq<string>, recordKeys: seq<string>, kinds: seq<string>, inputHash: string,
    screeningHash: string, analysisHash: string, status: Status, stage: Stage, error: string,
    screening: Option<Screening>, analysis: Option<Analysis>, feed: Option<Item>)

  function NextStage(e: Entry): Stage {
    if e.screening.None? then AtScreening
    else if e.screening.value.relevance.Related? && e.analysis.None? then AtAnalysis
    else AtFeed
  }

  /** The entry a prepared candidate starts with. */
  function StartEntry(rules: Rules, limit: int, i: nat, p: Prepared): Entry {
    var e := Entry(p.id, p.ids, p.recordKeys, p.kinds, rules.digest(p), "", "", Pending, AtScreening, "", None, None, None);
    if limit > 0 && i >= limit then e.(status := NotSelected, stage := AtSelection)
    else if p.error != "" then e.(status := PreparationError, stage := AtPreparation, error := p.error)
    else e
  }

  predicate SameCandidate(e: Entry, f: Entry) {
    e.id == f.id && e.inputHash == f.inputHash && e.ids == f.ids && e.recordKeys == f.recordKeys && e.kinds == f.kinds
  }

  predicate Blank(text: string) {
    forall i :: 0 <= i < |text| ==> IsSpace(text[i])
  }

  predicate Settled(e: Entry) {
    e.status.NotSelected? || e.status.PreparationError?
  }

  /** What the status claims, against the cached outputs. */
  predicate StatusFits(e: Entry) {
    match e.status
    case Pending => e.stage == NextStage(e) && e.error == ""
    case ScreeningError => e.stage == NextStage(e) == AtScreening && !Blank(e.error)
    case AnalysisError => e.stage == NextStage(e) == AtAnalysis && !Blank(e.error)
    case FeedError => e.stage == NextStage(e) == AtFeed && !Blank(e.error) && !(e.screening.Some? && e.screening.value.relevance.Unrelated?)
    case Analyzed => e.analysis.Some? && e.stage.AtComplete? && e.error == ""
    case ScreeningOnly =>
      && e.screening.Some? && (e.screening.value.relevance.RelevanceUnknown? || e.screening.value.relevance.PossiblyRelated?)
      && e.stage.AtComplete? && e.error == ""
    case Excluded => e.screening.Some? && e.screening.value.relevance.Unrelated? && e.stage.AtComplete? && e.error == ""
    case _ => false
  }

  predicate ValidEntry(rules: Rules, e: Entry, want: Entry, input: Input) {
    && e.screeningHash == rules.ScreeningHash(e.inputHash, e.screening)
    && e.analysisHash == rules.AnalysisHash(e.inputHash, e.analysis)
    && if Settled(want) then
         e.status == want.status && e.stage == want.stage && e.error == want.error && e.screening.None? && e.analysis.None?
       else rules.ValidOutputs(input, e.screening, e.analysis) && StatusFits(e)
  }

  // ---------- counters ----------

  datatype Counts = Counts(
    total: nat, selected: int, notSelected: nat, screened: nat, analyzed: nat, screeningOnly: nat,
    excluded: nat, errors: nat, pending: nat, selectedComplete: bool, complete: bool)

  const NOTHING := Counts(0, 0, 0, 0, 0, 0, 0, 0, 0, false, false)

  function CountOne(c: Counts, e: Entry): Counts {
    c.(screened := c.screened + if e.screening.Some? then 1 else 0,
       analyzed := c.analyzed + if e.analysis.Some? then 1 else 0,
       notSelected := c.notSelected + if e.status.NotSelected? then 1 else 0,
       screeningOnly := c.screeningOnly + if e.status.ScreeningOnly? then 1 else 0,
       excluded := c.excluded + if e.status.Excluded? then 1 else 0,
       errors := c.errors + if IsError(e.status) then 1 else 0,
       pending := c.pending + if e.status.Pending? then 1 else 0)
  }

  function Tally(es: seq<Entry>): Counts {
    if es == [] then NOTHING else CountOne(Tally(es[..|es| - 1]), es[|es| - 1])
  }

  /** The counters that belong to some entries. */
  function CountsOf(es: seq<Entry>): Counts {
    var t := Tally(es);
    t.(total := |es|, selected := |es| - t.notSelected,
       selectedComplete := t.errors == 0 && t.pending == 0,
       complete := t.errors == 0 && t.pending == 0 && t.notSelected == 0)
  }

  method CountEntry(before: Counts, e: Entry) returns (c: Counts)
    ensures c == CountOne(before, e)
  {
    c := before;
    if e.screening.Some? {
      c := c.(screened := c.screened + 1);
    }
    if e.analysis.Some? {
      c := c.(analyzed := c.analyzed + 1);
    }
    if e.status.NotSelected? {
      c := c.(notSelected := c.notSelected + 1);
    } else if e.status.ScreeningOnly? {
      c := c.(screeningOnly := c.screeningOnly + 1);
    } else if e.status.Excluded? {
      c := c.(excluded := c.excluded + 1);
    } else if IsError(e.status) {
      c := c.(errors := c.errors + 1);
    } else if e.status.Pending? {
      c := c.(pending := c.pending + 1);
    }
  }

  method Recount(es: seq<Entry>) returns (c: Counts)
    ensures c == CountsOf(es)
  {
    c := NOTHING;
    for i := 0 to |es|
      invariant c == Tally(es[..i])
    {
      assert es[..i + 1][..i] == es[..i];
      c := CountEntry(c, es[i]);
    }
    assert es[..|es|] == es;
    c := c.(total := |es|, selected := |es| - c.notSelected, selectedComplete := c.errors == 0 && c.pending == 0);
    c := c.(complete := c.selectedComplete && c.notSelected == 0);
  }

  // ---------- reports ----------

  datatype Header = Header(
    schema: int, repository: Repository, model: string, baseURL: string, limit: int, snapshotHash: string,
    refreshComplete: bool, scanStatus: string)

  datatype Report = Report(header: Header, startedAt: nat, updatedAt: nat, counts: Counts, entries: seq<Entry>)

  /** What a run is about: the candidates of one snapshot under one configuration. */
  datatype Job = Job(rules: Rules, header: Header, prepared: seq<Prepared>) {
    function Start(i: nat): Entry
      requires i < |prepared|
    {
      StartEntry(rules, header.limit, i, prepared[i])
    }

    /** Preparation has checked the input of every candidate it has no error for. */
    ghost predicate Ready() {
      forall i :: 0 <= i < |prepared| && prepared[i].error == "" ==> rules.validInput(prepared[i].input)
    }

    predicate ValidAt(i: nat, e: Entry)
      requires i < |prepared|
    {
      SameCandidate(e, Start(i)) && ValidEntry(rules, e, Start(i), prepared[i].input)
    }

    predicate ValidEntries(es: seq<Entry>) {
      |es| == |prepared| && forall i :: 0 <= i < |es| ==> ValidAt(i, es[i])
    }

    /** The saved reports that this run may resume. */
    predicate Resumable(r: Report) {
      && r.header == header
      && r.startedAt != 0 && r.updatedAt != 0 && r.startedAt <= r.updatedAt
      && ValidEntries(r.entries)
      && r.counts == CountsOf(r.entries)
    }
  }

  method ValidateResume(job: Job, saved: Report) returns (ok: bool)
    ensures ok <==> job.Resumable(saved)
  {
    if saved.header != job.header || saved.startedAt == 0 || saved.updatedAt == 0 || saved.updatedAt < saved.startedAt {
      return false;
    }
    if |saved.entries| != |job.prepared| {
      return false;
    }
    for i := 0 to |saved.entries|
      invariant forall j :: 0 <= j < i ==> job.ValidAt(j, saved.entries[j])
    {
      if !SameCandidate(saved.entries[i], job.Start(i)) {
        return false;
      }
      var valid := ValidateEntry(job.rules, saved.entries[i], job.Start(i), job.prepared[i].input);
      if !valid {
        assert !job.ValidAt(i, saved.entries[i]);
        return false;
      }
    }
    var counts := Recount(saved.entries);
    ok := saved.counts == counts;
  }

  method ValidateEntry(rules: Rules, e: Entry, want: Entry, input: Input) returns (ok: bool)
    ensures ok <==> ValidEntry(rules, e, want, input)
  {
    var checksums := e.screeningHash == rules.ScreeningHash(e.inputHash, e.screening);
    checksums := checksums && e.analysisHash == rules.AnalysisHash(e.inputHash, e.analysis);
    if want.status.NotSelected? || want.status.PreparationError? {
      if e.status != want.status || e.stage != want.stage || e.error != want.error || e.screening.Some? || e.analysis.Some? {
        return false;
      }
      return checksums;
    }
    if !rules.ValidOutputs(input, e.screening, e.analysis) || !checksums {
      return false;
    }
    var stage := NextStage(e);
    var valid := false;
    match e.status {
      case Pending => valid := e.stage == stage && e.error == "";
      case ScreeningError => valid := e.stage == stage && e.status == ErrorAt(stage) && !Blank(e.error);
      case AnalysisError => valid := e.stage == stage && e.status == ErrorAt(stage) && !Blank(e.error);
      case FeedError =>
        valid := e.stage == stage && e.status == ErrorAt(stage) && !Blank(e.error);
        if stage.AtFeed? && e.screening.value.relevance.Unrelated? {
          valid := false;
        }
      case Analyzed => valid := e.analysis.Some?;
      case ScreeningOnly => valid := e.screening.Some? && (e.screening.value.relevance.RelevanceUnknown? || e.screening.value.relevance.PossiblyRelated?);
      case Excluded => valid := e.screening.Some? && e.screening.value.relevance.Unrelated?;
      case _ =>
    }
    if Finished(e.status) {
      valid := valid && e.stage.AtComplete? && e.error == "";
    }
    ok := valid;
  }

  // ---------- what the counters of a resumable report say ----------

  lemma {:induction false} NothingOpen(es: seq<Entry>)
    ensures
      var t := Tally(es);
      (t.errors == 0 && t.pending == 0 && t.notSelected == 0) <==>
      forall i :: 0 <= i < |es| ==> !IsError(es[i].status) && !es[i].status.Pending? && !es[i].status.NotSelected?
  {
    if es != [] {
      var n := |es| - 1;
      NothingOpen(es[..n]);
      assert forall i :: 0 <= i < n ==> es[..n][i] == es[i];
    }
  }

  lemma {:induction false} FinishedAddUp(es: seq<Entry>)
    requires forall i :: 0 <= i < |es| ==> Finished(es[i].status) && (es[i].analysis.Some? <==> es[i].status.Analyzed?)
    ensures |es| == Tally(es).analyzed + Tally(es).screeningOnly + Tally(es).excluded
  {
    if es != [] {
      var n := |es| - 1;
      assert forall i :: 0 <= i < n ==> es[..n][i] == es[i];
      FinishedAddUp(es[..n]);
    }
  }

  /** Complete means that every candidate was finished; the finished ones are then all accounted for
      as analyzed, screened only, or excluded. */
  lemma CompleteIffFinished(job: Job, r: Report)
    requires job.Resumable(r)
    ensures r.counts.complete <==> forall i :: 0 <= i < |r.entries| ==> Finished(r.entries[i].status)
    ensures r.counts.complete ==> r.counts.total == r.counts.analyzed + r.counts.screeningOnly + r.counts.excluded
  {
    NothingOpen(r.entries);
    forall i | 0 <= i < |r.entries|
      ensures Finished(r.entries[i].status) <==>
        !IsError(r.entries[i].status) && !r.entries[i].status.Pending? && !r.entries[i].status.NotSelected?
      ensures Finished(r.entries[i].status) ==> (r.entries[i].analysis.Some? <==> r.entries[i].status.Analyzed?)
    {
      assert job.ValidAt(i, r.entries[i]);
    }
    if r.counts.complete {
      FinishedAddUp(r.entries);
    }
  }
}
