/** What the reports of an analysis run claim, said from the candidates, the limit and the answers of
    the model alone: which candidates are selected, which fail before any model call, what a stored
    output must be, what each counter counts, and where an uninterrupted run leaves every candidate. */
module AnalysisClaims {
  import opened ScanTypes
  import opened AnalysisTypes
  import opened AnalysisRun

  // ---------- counters ----------

  /** What a counter looks for in an entry. */
  datatype Trait = IsScreened | IsAnalyzed | IsLeftOut | IsOnlyScreened | IsExcluded | IsPending | IsInError

  ghost predicate Shows(e: Entry, t: Trait) {
    match t
    case IsScreened => e.screening.Some?
    case IsAnalyzed => e.analysis.Some?
    case IsLeftOut => e.status == NotSelected
    case IsOnlyScreened => e.status == ScreeningOnly
    case IsExcluded => e.status == Excluded
    case IsPending => e.status == Pending
    case IsInError => e.status in {PreparationError, ScreeningError, AnalysisError, FeedError}
  }

  ghost function Counter(c: Counts, t: Trait): nat {
    match t
    case IsScreened => c.screened
    case IsAnalyzed => c.analyzed
    case IsLeftOut => c.notSelected
    case IsOnlyScreened => c.screeningOnly
    case IsExcluded => c.excluded
    case IsPending => c.pending
    case IsInError => c.errors
  }

  ghost function Having(es: seq<Entry>, t: Trait): set<nat> {
    set i: nat | i < |es| && Shows(es[i], t)
  }

  lemma HavingMore(es: seq<Entry>, t: Trait)
    requires es != []
    ensures |Having(es, t)| == |Having(es[..|es| - 1], t)| + if Shows(es[|es| - 1], t) then 1 else 0
  {
    hide Shows;
    var n := |es| - 1;
    var now := Having(es[..n], t) + if Shows(es[n], t) then {n} else {};
    forall i: nat
      ensures i in Having(es, t) <==> i in now
    {
      if i < n {
        assert es[..n][i] == es[i];
      }
    }
    assert Having(es, t) == now;
  }

  /** Each counter is the number of the entries that show what it counts. */
  ghost predicate Counted(es: seq<Entry>, c: Counts) {
    forall t :: Counter(c, t) == |Having(es, t)|
  }

  lemma {:induction false} TallyCounts(es: seq<Entry>, t: Trait)
    ensures Counter(Tally(es), t) == |Having(es, t)|
  {
    hide Having;
    if es == [] {
      NoneHave(es, t);
    } else {
      TallyCounts(es[..|es| - 1], t);
      HavingMore(es, t);
    }
  }

  lemma NoneHave(es: seq<Entry>, t: Trait)
    ensures |Having(es, t)| == 0 <==> forall i :: 0 <= i < |es| ==> !Shows(es[i], t)
  {
    if |Having(es, t)| == 0 {
      assert Having(es, t) == {};
      forall i | 0 <= i < |es|
        ensures !Shows(es[i], t)
      {
        assert i !in Having(es, t);
      }
    } else {
      var i :| i in Having(es, t);
      assert Shows(es[i], t);
    }
  }

  // ---------- what a resumable report says of a candidate ----------

  /** The candidates that the limit leaves out; no limit is written as zero. */
  ghost predicate BeyondLimit(job: Job, i: nat) {
    job.header.limit > 0 && i >= job.header.limit
  }

  /** A stored output is one that was checked, and its checksum binds it to the candidate. */
  ghost predicate Sound(rules: Rules, input: Input, e: Entry) {
    && (e.screening.Some? ==>
          && rules.validInput(input) && rules.validScreening(input, e.screening.value)
          && e.screening.value.relevance in {Related, PossiblyRelated, RelevanceUnknown, Unrelated})
    && (e.analysis.Some? ==> e.screening.Some? && e.screening.value.relevance == Related && rules.validAnalysis(input, e.analysis.value))
    && e.screeningHash == (if e.screening.Some? then rules.screeningDigest(e.inputHash, e.screening.value) else "")
    && e.analysisHash == (if e.analysis.Some? then rules.analysisDigest(e.inputHash, e.analysis.value) else "")
  }

  /** How far the stored outputs have brought a candidate, and what may be said of it there. */
  ghost predicate Progress(e: Entry) {
    if e.stage == AtComplete then
      && e.error == "" && e.screening.Some?
      && match e.screening.value.relevance
         case Related => e.status == Analyzed && e.analysis.Some?
         case Unrelated => e.status == Excluded
         case _ => e.status == ScreeningOnly
    else
      && e.stage == (if e.screening.None? then AtScreening
                     else if e.screening.value.relevance == Related && e.analysis.None? then AtAnalysis
                     else AtFeed)
      && if e.status == Pending then e.error == ""
         else
           && (exists k :: 0 <= k < |e.error| && !IsSpace(e.error[k]))
           && e.status == (match e.stage case AtScreening => ScreeningError case AtAnalysis => AnalysisError case _ => FeedError)
           && (e.stage == AtFeed ==> e.screening.value.relevance != Unrelated)
  }

  ghost predicate Stands(job: Job, i: nat, e: Entry)
    requires i < |job.prepared|
  {
    var p := job.prepared[i];
    && e.id == p.id && e.ids == p.ids && e.recordKeys == p.recordKeys && e.kinds == p.kinds
    && e.inputHash == job.rules.digest(p)
    && Sound(job.rules, p.input, e)
    && (e.status == NotSelected <==> BeyondLimit(job, i))
    && (e.status == PreparationError <==> !BeyondLimit(job, i) && p.error != "")
    && if BeyondLimit(job, i) then e.stage == AtSelection && e.error == "" && e.screening.None?
       else if p.error != "" then e.stage == AtPreparation && e.error == p.error && e.screening.None?
       else Progress(e)
  }

  lemma ValidStands(job: Job, i: nat, e: Entry)
    requires i < |job.prepared|
    ensures job.ValidAt(i, e) ==> Stands(job, i, e)
    ensures job.Ready() && Stands(job, i, e) ==> job.ValidAt(i, e)
  {
  }

  ghost function Range(low: nat, high: nat): (r: set<nat>)
    ensures forall i: nat :: i in r <==> low <= i < high
    ensures low <= high ==> |r| == high - low
  {
    if low >= high then {} else Range(low, high - 1) + {high - 1}
  }

  /** The candidates that are selected: as many as the limit allows, or all. */
  ghost function SelectedOf(job: Job): nat {
    if 0 < job.header.limit < |job.prepared| then job.header.limit else |job.prepared|
  }

  lemma LeftOutCount(job: Job, es: seq<Entry>)
    requires |es| == |job.prepared| && forall i :: 0 <= i < |es| ==> Stands(job, i, es[i])
    ensures |Having(es, IsLeftOut)| == |job.prepared| - SelectedOf(job)
  {
    hide Sound, Progress;
    var n := SelectedOf(job);
    assert Having(es, IsLeftOut) == Range(n, |es|) by {
      forall i: nat
        ensures i in Having(es, IsLeftOut) <==> i in Range(n, |es|)
      {
        if i < |es| {
          assert Stands(job, i, es[i]);
        }
      }
    }
  }

  /** What every report says that a run returns or hands out: one entry for each candidate, as far as
      its outputs have brought it; and counters that count, the selected ones among them. */
  lemma ResumableClaims(job: Job, r: Report)
    requires job.Resumable(r)
    ensures |r.entries| == |job.prepared| && forall i :: 0 <= i < |r.entries| ==> Stands(job, i, r.entries[i])
    ensures Counted(r.entries, r.counts)
    ensures r.counts.total == |job.prepared| && r.counts.selected == SelectedOf(job)
    ensures r.counts.selectedComplete <==> forall i :: 0 <= i < |r.entries| ==> r.entries[i].status in {NotSelected, Analyzed, ScreeningOnly, Excluded}
    ensures r.counts.complete <==> forall i :: 0 <= i < |r.entries| ==> r.entries[i].status in {Analyzed, ScreeningOnly, Excluded}
  {
    hide Stands, ValidEntry, SelectedOf, Tally;
    forall i | 0 <= i < |r.entries|
      ensures Stands(job, i, r.entries[i])
    {
      assert job.ValidAt(i, r.entries[i]);
      ValidStands(job, i, r.entries[i]);
    }
    forall t
      ensures Counter(r.counts, t) == |Having(r.entries, t)|
    {
      TallyCounts(r.entries, t);
    }
    LeftOutCount(job, r.entries);
    CompleteClaims(job, r.entries, r.counts);
  }

  lemma CompleteClaims(job: Job, es: seq<Entry>, c: Counts)
    requires |es| == |job.prepared| && forall i :: 0 <= i < |es| ==> Stands(job, i, es[i])
    requires c == CountsOf(es) && Counted(es, c)
    ensures c.selectedComplete <==> forall i :: 0 <= i < |es| ==> es[i].status in {NotSelected, Analyzed, ScreeningOnly, Excluded}
    ensures c.complete <==> forall i :: 0 <= i < |es| ==> es[i].status in {Analyzed, ScreeningOnly, Excluded}
  {
    hide Having, Tally, Stands, Shows;
    assert Counter(c, IsInError) == c.errors && Counter(c, IsPending) == c.pending && Counter(c, IsLeftOut) == c.notSelected;
    NoneHave(es, IsInError);
    NoneHave(es, IsPending);
    NoneHave(es, IsLeftOut);
    forall i | 0 <= i < |es|
      ensures es[i].status in {NotSelected, Analyzed, ScreeningOnly, Excluded} <==> !Shows(es[i], IsInError) && !Shows(es[i], IsPending)
      ensures Shows(es[i], IsLeftOut) <==> es[i].status == NotSelected
    {
      StatusKnown(job, i, es[i]);
    }
  }

  lemma StatusKnown(job: Job, i: nat, e: Entry)
    requires i < |job.prepared| && Stands(job, i, e)
    ensures e.status in {NotSelected, Analyzed, ScreeningOnly, Excluded} <==> !Shows(e, IsInError) && !Shows(e, IsPending)
    ensures Shows(e, IsLeftOut) <==> e.status == NotSelected
  {
  }

  /** The saved reports that a run goes on with are those of its own snapshot and options, dated, in which every
      candidate stands where its outputs have brought it and every counter counts. */
  lemma ResumableIff(job: Job, r: Report)
    requires job.Ready()
    ensures job.Resumable(r) <==>
      && r.header == job.header && 0 < r.startedAt <= r.updatedAt
      && |r.entries| == |job.prepared| && (forall i :: 0 <= i < |r.entries| ==> Stands(job, i, r.entries[i]))
      && Counted(r.entries, r.counts) && r.counts.total == |job.prepared| && r.counts.selected == SelectedOf(job)
      && (r.counts.selectedComplete <==> forall i :: 0 <= i < |r.entries| ==> r.entries[i].status in {NotSelected, Analyzed, ScreeningOnly, Excluded})
      && (r.counts.complete <==> forall i :: 0 <= i < |r.entries| ==> r.entries[i].status in {Analyzed, ScreeningOnly, Excluded})
  {
    hide Stands, SelectedOf, Counted, CountsOf, Job.Ready;
    if job.Resumable(r) {
      ResumableClaims(job, r);
    }
    if |r.entries| == |job.prepared| && forall i :: 0 <= i < |r.entries| ==> Stands(job, i, r.entries[i]) {
      var counted := Report(job.header, 1, 1, CountsOf(r.entries), r.entries);
      AllValid(job, r.entries);
      ResumableClaims(job, counted);
      if Counted(r.entries, r.counts) {
        SameCounters(r.entries, r.counts, counted.counts);
      }
    }
  }

  lemma AllValid(job: Job, es: seq<Entry>)
    requires job.Ready() && |es| == |job.prepared| && forall i :: 0 <= i < |es| ==> Stands(job, i, es[i])
    ensures job.ValidEntries(es)
  {
    hide Stands, Job.ValidAt, Job.Ready;
    forall i | 0 <= i < |es|
      ensures job.ValidAt(i, es[i])
    {
      ValidStands(job, i, es[i]);
    }
  }

  lemma SameCounters(es: seq<Entry>, c: Counts, d: Counts)
    requires Counted(es, c) && Counted(es, d)
    ensures c == d.(total := c.total, selected := c.selected, selectedComplete := c.selectedComplete, complete := c.complete)
  {
    hide Having;
    forall t
      ensures Counter(c, t) == Counter(d, t)
    {
      assert Counter(c, t) == |Having(es, t)|;
    }
    assert Counter(c, IsScreened) == Counter(d, IsScreened) && Counter(c, IsAnalyzed) == Counter(d, IsAnalyzed);
    assert Counter(c, IsLeftOut) == Counter(d, IsLeftOut) && Counter(c, IsOnlyScreened) == Counter(d, IsOnlyScreened);
    assert Counter(c, IsExcluded) == Counter(d, IsExcluded) && Counter(c, IsPending) == Counter(d, IsPending);
    assert Counter(c, IsInError) == Counter(d, IsInError);
  }

  // ---------- where an uninterrupted run leaves a candidate ----------

  ghost predicate Stops(e: Entry, status: Status, stage: Stage, error: string) {
    e.status == status && e.stage == stage && e.error == error && e.feed == None
  }

  ghost predicate Finishes(e: Entry, status: Status, feed: Option<Item>) {
    e.status == status && e.stage == AtComplete && e.error == "" && e.feed == feed
  }

  /** A screening that passes its check. */
  ghost predicate Passes(rules: Rules, input: Input, s: Screening) {
    && rules.validInput(input) && rules.validScreening(input, s)
    && s.relevance in {Related, PossiblyRelated, RelevanceUnknown, Unrelated}
  }

  /** The end of a selected candidate, for each answer of the model and of the feed builder. */
  ghost predicate Ends(rules: Rules, truth: Analyst, input: Input, e: Entry) {
    match truth.screen(input)
    case Failed(text) => e.screening == None && e.analysis == None && Stops(e, ScreeningError, AtScreening, SCREENING + text)
    case Answered(s) =>
      if !Passes(rules, input, s) then
        e.screening == None && e.analysis == None && Stops(e, ScreeningError, AtScreening, SCREENING + BAD_SCREENING)
      else e.screening == Some(s) && EndsScreened(rules, truth, input, s, e)
  }

  ghost predicate EndsScreened(rules: Rules, truth: Analyst, input: Input, s: Screening, e: Entry) {
    match s.relevance
    case Unrelated => e.analysis == None && Finishes(e, Excluded, None)
    case Related => (
      match truth.analyze(input)
      case Failed(text) => e.analysis == None && Stops(e, AnalysisError, AtAnalysis, ANALYSIS + text)
      case Answered(a) =>
        if !rules.validAnalysis(input, a) then
          e.analysis == None && Stops(e, AnalysisError, AtAnalysis, ANALYSIS + BAD_ANALYSIS)
        else
          && e.analysis == Some(a)
          && match rules.build(input, s, Some(a))
             case Failed(text) => Stops(e, FeedError, AtFeed, ANALYZED_FEED + text)
             case Answered(item) => Finishes(e, Analyzed, Some(item))
    )
    case _ =>
      && e.analysis == None
      && match rules.build(input, s, None)
         case Failed(text) => Stops(e, FeedError, AtFeed, SCREENED_FEED + text)
         case Answered(item) => Finishes(e, ScreeningOnly, Some(item))
  }

  lemma ScreeningEnds(rules: Rules, truth: Analyst, input: Input)
    ensures IdealScreening(rules, truth, input) ==
      match truth.screen(input)
      case Failed(text) => Failed(text)
      case Answered(s) => if Passes(rules, input, s) then Answered(s) else Failed(BAD_SCREENING)
  {
  }

  lemma AnalysisEnds(rules: Rules, truth: Analyst, input: Input, s: Screening)
    requires Passes(rules, input, s) && s.relevance == Related
    ensures IdealAnalysis(rules, truth, input, Some(s)) ==
      match truth.analyze(input)
      case Failed(text) => Failed(text)
      case Answered(a) => if rules.validAnalysis(input, a) then Answered(a) else Failed(BAD_ANALYSIS)
  {
  }

  predicate Fresh(e: Entry) {
    && e.status == Pending && e.error == "" && e.stage == AtScreening
    && e.screening == None && e.analysis == None && e.feed == None
  }

  lemma IdealEnds(rules: Rules, truth: Analyst, input: Input, e: Entry)
    requires Fresh(e)
    ensures Ends(rules, truth, input, Ideal(rules, truth, input, e))
  {
    hide Ends, Ideal, Fresh;
    match IdealScreening(rules, truth, input) {
      case Failed(text) => UnscreenedEnds(rules, truth, input, e, text);
      case Answered(s) => ScreenedEnds(rules, truth, input, e, s);
    }
  }

  lemma UnscreenedEnds(rules: Rules, truth: Analyst, input: Input, e: Entry, text: string)
    requires Fresh(e) && IdealScreening(rules, truth, input) == Failed(text)
    ensures Ends(rules, truth, input, Ideal(rules, truth, input, e))
  {
    hide IdealRest, EndsScreened, IdealScreening, Passes;
    ScreeningEnds(rules, truth, input);
  }

  lemma ScreenedEnds(rules: Rules, truth: Analyst, input: Input, e: Entry, s: Screening)
    requires Fresh(e) && IdealScreening(rules, truth, input) == Answered(s)
    ensures Ends(rules, truth, input, Ideal(rules, truth, input, e))
  {
    hide IdealRest, EndsScreened, IdealScreening, Passes;
    ScreeningEnds(rules, truth, input);
    IdealRestEnds(rules, truth, input, s, WithScreening(rules, e, s));
  }

  lemma IdealRestEnds(rules: Rules, truth: Analyst, input: Input, s: Screening, e: Entry)
    requires e.status == Pending && e.error == "" && e.screening == Some(s) && e.analysis == None && e.feed == None && e.stage == NextStage(e)
    requires Passes(rules, input, s)
    ensures IdealRest(rules, truth, input, e).screening == Some(s)
    ensures EndsScreened(rules, truth, input, s, IdealRest(rules, truth, input, e))
  {
    hide IdealAnalysis;
    if s.relevance == Related {
      AnalysisEnds(rules, truth, input, s);
    }
  }

  lemma IdealClaims(job: Job, truth: Analyst, i: nat)
    requires i < |job.prepared| && !BeyondLimit(job, i) && job.prepared[i].error == ""
    ensures Ends(job.rules, truth, job.prepared[i].input, IdealEntry(job, truth, i))
  {
    hide Ends, Ideal;
    IdealEnds(job.rules, truth, job.prepared[i].input, job.Start(i));
  }

  /** Without interruption every selected candidate that could be prepared is brought to its end, and
      none is left pending. */
  lemma SteadyClaims(job: Job, truth: Analyst, r: Report)
    requires IsIdeal(job, truth, r.entries) && job.Resumable(r)
    ensures forall i :: 0 <= i < |job.prepared| && !BeyondLimit(job, i) && job.prepared[i].error == "" ==>
      Ends(job.rules, truth, job.prepared[i].input, r.entries[i])
    ensures forall i :: 0 <= i < |r.entries| ==> r.entries[i].status != Pending
    ensures r.counts.pending == 0
  {
    hide Ends, IdealEntry, Stands, Job.Resumable, Having;
    ResumableClaims(job, r);
    forall i | 0 <= i < |job.prepared|
      ensures !BeyondLimit(job, i) && job.prepared[i].error == "" ==> Ends(job.rules, truth, job.prepared[i].input, r.entries[i])
      ensures r.entries[i].status != Pending
    {
      if !BeyondLimit(job, i) && job.prepared[i].error == "" {
        IdealClaims(job, truth, i);
        EndIsNotPending(job.rules, truth, job.prepared[i].input, r.entries[i]);
      } else {
        assert Stands(job, i, r.entries[i]);
        NotTakenUp(job, i, r.entries[i]);
      }
    }
    NoneHave(r.entries, IsPending);
    assert Counter(r.counts, IsPending) == r.counts.pending;
  }

  lemma EndIsNotPending(rules: Rules, truth: Analyst, input: Input, e: Entry)
    requires Ends(rules, truth, input, e)
    ensures e.status != Pending
  {
  }

  lemma NotTakenUp(job: Job, i: nat, e: Entry)
    requires i < |job.prepared| && Stands(job, i, e) && (BeyondLimit(job, i) || job.prepared[i].error != "")
    ensures e.status != Pending
  {
  }
}
