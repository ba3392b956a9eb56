module AnalysisRun {
  // The resumable analysis run: `Run` and `cachingAnalyzer` (src/scananalyze/run.go) around the
  // relevance routing of `Process` (src/pipeline/pipeline.go).  A run may be cancelled at any moment,
  // any model call and any checkpoint may fail; every report it hands out can be resumed, and however
  // often that happens the final report is that of one uninterrupted run.

  import opened ScanTypes
  import opened AnalysisTypes

  /** A deterministic analyzer. */
  datatype Analyst = Analyst(screen: Input -> Reply<Screening>, analyze: Input -> Reply<Analysis>)

  /** Everything outside of one run.  The number is how many times the run has looked outside. */
  datatype Env = Env(
    cancelled: nat -> bool,
    screen: (nat, Input) -> Reply<Screening>,
    analyze: (nat, Input) -> Reply<Analysis>,
    accepts: nat -> bool,
    clock: nat -> nat)
  {
    ghost predicate Orderly() {
      (forall t :: 0 < clock(t)) && forall s, t :: s <= t ==> clock(s) <= clock(t)
    }

    /** Calls may fail at any time, but answer as the analyst does. */
    ghost predicate Plausible(truth: Analyst) {
      && (forall t, input :: screen(t, input).Failed? || screen(t, input) == truth.screen(input))
      && (forall t, input :: analyze(t, input).Failed? || analyze(t, input) == truth.analyze(input))
    }

    /** Nothing interrupts. */
    ghost predicate Steady(truth: Analyst) {
      && (forall t :: !cancelled(t)) && (forall t :: accepts(t))
      && (forall t, input :: screen(t, input) == truth.screen(input))
      && (forall t, input :: analyze(t, input) == truth.analyze(input))
    }
  }

  // ---------- what happens to one entry ----------

  function Restart(e: Entry): Entry {
    e.(status := Pending, error := "", feed := None, stage := NextStage(e))
  }

  function WithScreening(rules: Rules, e: Entry, s: Screening): Entry {
    var f := e.(screening := Some(s), screeningHash := rules.screeningDigest(e.inputHash, s));
    f.(stage := NextStage(f))
  }

  function WithAnalysis(rules: Rules, e: Entry, a: Analysis): Entry {
    e.(analysis := Some(a), analysisHash := rules.analysisDigest(e.inputHash, a), stage := AtFeed)
  }

  function Fails(e: Entry, text: string): Entry {
    e.(status := ErrorAt(e.stage), error := text)
  }

  function Completes(e: Entry, status: Status, feed: Option<Item>): Entry {
    e.(status := status, stage := AtComplete, feed := feed)
  }

  const SCREENING := "screen candidate: "
  const ANALYSIS := "analyze related candidate: "
  const SCREENED_FEED := "build screening-only feed item: "
  const ANALYZED_FEED := "build analyzed feed item: "
  const UNSUPPORTED := "unsupported screening relevance"
  const BAD_SCREENING := "validate screening output"
  const BAD_ANALYSIS := "validate analysis output"

  function Checked<T>(reply: Reply<T>, valid: T -> bool, complaint: string): Reply<T> {
    if reply.Answered? && !valid(reply.output) then Failed(complaint) else reply
  }

  /** What asking the analyst for a missing output comes to. */
  function IdealScreening(rules: Rules, truth: Analyst, input: Input): Reply<Screening> {
    Checked(truth.screen(input), s => rules.ValidOutputs(input, Some(s), None), BAD_SCREENING)
  }

  function IdealAnalysis(rules: Rules, truth: Analyst, input: Input, s: Option<Screening>): Reply<Analysis> {
    Checked(truth.analyze(input), a => rules.ValidOutputs(input, s, Some(a)), BAD_ANALYSIS)
  }

  /** The end of a restarted entry when nothing interrupts. */
  function Ideal(rules: Rules, truth: Analyst, input: Input, e: Entry): Entry {
    if e.screening.Some? then IdealRest(rules, truth, input, e)
    else
      match IdealScreening(rules, truth, input)
      case Failed(text) => Fails(e, SCREENING + text)
      case Answered(s) => IdealRest(rules, truth, input, WithScreening(rules, e, s))
  }

  function IdealRest(rules: Rules, truth: Analyst, input: Input, e: Entry): Entry
    requires e.screening.Some?
  {
    match e.screening.value.relevance
    case Unrelated => Completes(e, Excluded, None)
    case OtherRelevance(_) => Fails(e, UNSUPPORTED)
    case Related =>
      if e.analysis.Some? then IdealFeed(rules, input, e, e.analysis, Analyzed, ANALYZED_FEED)
      else (
        match IdealAnalysis(rules, truth, input, e.screening)
        case Failed(text) => Fails(e, ANALYSIS + text)
        case Answered(a) => IdealFeed(rules, input, WithAnalysis(rules, e, a), Some(a), Analyzed, ANALYZED_FEED)
      )
    case _ => IdealFeed(rules, input, e, None, ScreeningOnly, SCREENED_FEED)
  }

  function IdealFeed(rules: Rules, input: Input, e: Entry, analysis: Option<Analysis>, status: Status, complaint: string): Entry
    requires e.screening.Some?
  {
    match rules.build(input, e.screening.value, analysis)
    case Failed(text) => Fails(e, complaint + text)
    case Answered(item) => Completes(e, status, Some(item))
  }

  /** No stored output is changed or dropped. */
  predicate Extends(e: Entry, f: Entry) {
    && (e.screening.Some? ==> f.screening == e.screening && f.screeningHash == e.screeningHash)
    && (e.analysis.Some? ==> f.analysis == e.analysis && f.analysisHash == e.analysisHash)
  }

  predicate AllExtend(es: seq<Entry>, fs: seq<Entry>) {
    |es| == |fs| && forall i :: 0 <= i < |es| ==> Extends(es[i], fs[i])
  }

  /** The stored outputs are the analyst's, and a finished entry is what the analyst leads to. */
  ghost predicate Tracks(job: Job, truth: Analyst, i: nat, e: Entry)
    requires i < |job.prepared|
  {
    var start, input := job.Start(i), job.prepared[i].input;
    if Settled(start) then e == start
    else
      && Stores(job.rules, truth, input, start, e)
      && (if Finished(e.status) then e == Ideal(job.rules, truth, input, start) else e.feed.None?)
  }

  ghost predicate Stores(rules: Rules, truth: Analyst, input: Input, start: Entry, e: Entry) {
    if e.screening.None? then Restart(e) == start
    else
      var s := e.screening.value;
      && truth.screen(input) == Answered(s) && rules.ValidOutputs(input, Some(s), None)
      && if e.analysis.None? then Restart(e) == WithScreening(rules, start, s)
         else
           var a := e.analysis.value;
           && s.relevance.Related?
           && truth.analyze(input) == Answered(a) && rules.ValidOutputs(input, Some(s), Some(a))
           && Restart(e) == WithAnalysis(rules, WithScreening(rules, start, s), a)
  }

  ghost predicate TracksAll(job: Job, truth: Analyst, es: seq<Entry>) {
    |es| == |job.prepared| && forall i :: 0 <= i < |es| ==> Tracks(job, truth, i, es[i])
  }

  /** Resuming from stored outputs leads where starting over leads. */
  lemma CacheIsTransparent(job: Job, truth: Analyst, i: nat, e: Entry)
    requires i < |job.prepared| && Tracks(job, truth, i, e) && !Settled(job.Start(i))
    ensures Ideal(job.rules, truth, job.prepared[i].input, Restart(e)) == Ideal(job.rules, truth, job.prepared[i].input, job.Start(i))
  {
  }

  lemma NotBlank(prefix: string, text: string)
    requires prefix != "" && !IsSpace(prefix[0])
    ensures !Blank(prefix + text) && prefix + text != ""
  {
    assert (prefix + text)[0] == prefix[0];
  }

  // ---------- each step keeps an entry valid ----------

  predicate Working(e: Entry) {
    e == Restart(e)
  }

  lemma RestartKeeps(job: Job, truth: Analyst, i: nat, e: Entry)
    requires i < |job.prepared| && !Settled(job.Start(i)) && job.ValidAt(i, e) && !Finished(e.status)
    ensures job.ValidAt(i, Restart(e)) && Extends(e, Restart(e)) && Working(Restart(e))
    ensures Tracks(job, truth, i, e) ==> Tracks(job, truth, i, Restart(e))
  {
  }

  lemma ScreeningKeeps(job: Job, truth: Analyst, i: nat, e: Entry, s: Screening)
    requires i < |job.prepared| && !Settled(job.Start(i)) && job.ValidAt(i, e) && Working(e) && e.screening.None?
    requires job.rules.ValidOutputs(job.prepared[i].input, Some(s), None)
    ensures
      var f := WithScreening(job.rules, e, s);
      && job.ValidAt(i, f) && Extends(e, f) && Working(f)
      && (Tracks(job, truth, i, e) && truth.screen(job.prepared[i].input) == Answered(s) ==> Tracks(job, truth, i, f))
  {
  }

  lemma AnalysisKeeps(job: Job, truth: Analyst, i: nat, e: Entry, a: Analysis)
    requires i < |job.prepared| && !Settled(job.Start(i)) && job.ValidAt(i, e) && Working(e) && e.analysis.None?
    requires job.rules.ValidOutputs(job.prepared[i].input, e.screening, Some(a))
    ensures
      var f := WithAnalysis(job.rules, e, a);
      && job.ValidAt(i, f) && Extends(e, f) && Working(f)
      && (Tracks(job, truth, i, e) && truth.analyze(job.prepared[i].input) == Answered(a) ==> Tracks(job, truth, i, f))
  {
  }

  lemma FailingKeeps(job: Job, truth: Analyst, i: nat, e: Entry, text: string)
    requires i < |job.prepared| && !Settled(job.Start(i)) && job.ValidAt(i, e) && Working(e) && !Blank(text)
    requires e.screening.Some? ==> !e.screening.value.relevance.Unrelated?
    ensures job.ValidAt(i, Fails(e, text)) && Extends(e, Fails(e, text))
    ensures Tracks(job, truth, i, e) ==> Tracks(job, truth, i, Fails(e, text))
  {
  }

  /** The ways an entry is finished. */
  predicate Fitting(rules: Rules, input: Input, e: Entry, status: Status, feed: Option<Item>) {
    && e.screening.Some?
    && var s := e.screening.value;
       match s.relevance
       case Unrelated => status.Excluded? && feed.None?
       case Related => status.Analyzed? && e.analysis.Some? && feed.Some? && rules.build(input, s, e.analysis) == Answered(feed.value)
       case OtherRelevance(_) => false
       case _ => status.ScreeningOnly? && feed.Some? && rules.build(input, s, None) == Answered(feed.value)
  }

  lemma CompletingKeeps(job: Job, truth: Analyst, i: nat, e: Entry, status: Status, feed: Option<Item>)
    requires i < |job.prepared| && !Settled(job.Start(i)) && job.ValidAt(i, e) && Working(e)
    requires Fitting(job.rules, job.prepared[i].input, e, status, feed)
    ensures job.ValidAt(i, Completes(e, status, feed)) && Extends(e, Completes(e, status, feed))
    ensures Tracks(job, truth, i, e) ==> Tracks(job, truth, i, Completes(e, status, feed))
  {
  }

  lemma PutKeeps(job: Job, es: seq<Entry>, i: nat, f: Entry)
    requires i < |es| && job.ValidEntries(es) && job.ValidAt(i, f) && Extends(es[i], f)
    ensures job.ValidEntries(es[i := f]) && AllExtend(es, es[i := f])
  {
  }

  lemma PutTracks(job: Job, truth: Analyst, es: seq<Entry>, i: nat, f: Entry)
    requires i < |es| && TracksAll(job, truth, es) && Tracks(job, truth, i, f)
    ensures TracksAll(job, truth, es[i := f])
  {
  }

  lemma ExtendsOn(a: seq<Entry>, b: seq<Entry>, c: seq<Entry>)
    requires AllExtend(a, b) && AllExtend(b, c)
    ensures AllExtend(a, c)
  {
  }

  // ---------- the run ----------

  datatype Request = Request(index: nat, stage: Stage)

  datatype Outcome<T> = Got(output: T) | Refused(text: string) | Stopped

  datatype Result = Result(screening: Screening, analysis: Option<Analysis>, feed: Option<Item>, excluded: bool)

  function StatusOf(r: Result): Status {
    if r.excluded then Excluded else if r.analysis.Some? then Analyzed else ScreeningOnly
  }

  /** The reports handed out so far: each can be resumed, and each extends the ones before. */
  ghost predicate History(job: Job, handed: seq<Report>, now: seq<Entry>) {
    && (forall k :: 0 <= k < |handed| ==> job.Resumable(handed[k]) && AllExtend(handed[k].entries, now))
    && forall k, m :: 0 <= k < m < |handed| ==> AllExtend(handed[k].entries, handed[m].entries)
  }

  lemma HistoryGoesOn(job: Job, handed: seq<Report>, now: seq<Entry>, next: seq<Entry>)
    requires History(job, handed, now) && AllExtend(now, next)
    ensures History(job, handed, next)
  {
  }

  lemma HistoryMore(job: Job, handed: seq<Report>, r: Report)
    requires History(job, handed, r.entries) && job.Resumable(r)
    ensures History(job, handed + [r], r.entries)
  {
    hide Job.Resumable;
    forall k | 0 <= k < |r.entries|
      ensures Extends(r.entries[k], r.entries[k])
    {
    }
  }

  ghost predicate HandedTrack(job: Job, truth: Analyst, handed: seq<Report>) {
    forall k :: 0 <= k < |handed| ==> TracksAll(job, truth, handed[k].entries)
  }

  ghost predicate Dated(handed: seq<Report>, now: nat) {
    forall k :: 0 <= k < |handed| ==> handed[k].updatedAt <= now
  }

  /** No output is requested twice, nor one that the run was given. */
  ghost predicate Sparing(base: seq<Entry>, requests: seq<Request>) {
    && (forall k :: 0 <= k < |requests| ==> Wanted(base, requests[k]))
    && forall k, m :: 0 <= k < m < |requests| ==> requests[k] != requests[m]
  }

  predicate Wanted(base: seq<Entry>, q: Request) {
    && q.index < |base|
    && (q.stage.AtScreening? ==> base[q.index].screening.None?)
    && (q.stage.AtAnalysis? ==> base[q.index].analysis.None?)
  }

  /** The candidates that may cost a model call: those within the limit, zero meaning no limit, whose
      preparation did not fail. */
  predicate Chosen(job: Job, i: nat)
    requires i < |job.prepared|
  {
    (job.header.limit <= 0 || i < job.header.limit) && job.prepared[i].error == ""
  }

  lemma ChosenIff(job: Job, i: nat)
    requires i < |job.prepared|
    ensures Chosen(job, i) <==> !Settled(job.Start(i))
  {
  }

  /** Requests are for chosen candidates only: a screening, or the analysis of one that was screened
      as related. */
  ghost predicate Earned(job: Job, es: seq<Entry>, requests: seq<Request>) {
    |es| == |job.prepared| && forall q :: q in requests ==> Due(job, es, q)
  }

  predicate Due(job: Job, es: seq<Entry>, q: Request)
    requires |es| == |job.prepared|
  {
    && q.index < |es| && Chosen(job, q.index)
    && (q.stage == AtScreening ||
        (q.stage == AtAnalysis && es[q.index].screening.Some? && es[q.index].screening.value.relevance == Related))
  }

  lemma EarnedGoesOn(job: Job, es: seq<Entry>, fs: seq<Entry>, requests: seq<Request>)
    requires Earned(job, es, requests) && AllExtend(es, fs)
    ensures Earned(job, fs, requests)
  {
    hide Chosen;
    forall q | q in requests
      ensures Due(job, fs, q)
    {
      assert Due(job, es, q) && Extends(es[q.index], fs[q.index]);
    }
  }

  class Session {
    const job: Job
    const env: Env
    ghost const truth: Analyst
    ghost const base: seq<Entry>
    ghost const tracked: bool
    var report: Report
    var tick: nat
    var handed: seq<Report>
    var requests: seq<Request>

    ghost predicate Valid()
      reads this
    {
      && job.Ready() && env.Orderly()
      && report.header == job.header
      && 0 < report.startedAt <= report.updatedAt <= env.clock(tick)
      && Dated(handed, env.clock(tick))
      && job.ValidEntries(report.entries)
      && History(job, handed, report.entries)
      && AllExtend(base, report.entries)
      && Sparing(base, requests)
      && Earned(job, report.entries, requests)
      && (tracked ==> env.Plausible(truth) && TracksAll(job, truth, report.entries) && HandedTrack(job, truth, handed))
    }

    ghost predicate At(i: nat)
      reads this
    {
      i < |report.entries| == |job.prepared| && !Settled(job.Start(i)) && Working(report.entries[i])
    }

    /** Only the i-th entry differs, and nothing stored in it is lost. */
    twostate predicate OnlyAt(i: nat)
      reads this
    {
      && i < |old(report).entries|
      && |report.entries| == |old(report).entries|
      && report.entries == old(report).entries[i := report.entries[i]]
      && report.startedAt == old(report).startedAt
      && old(tick) <= tick
      && old(handed) <= handed
    }

    /** recount, the time, and a copy for the caller's callback. */
    method Checkpoint() returns (ok: bool)
      requires Valid()
      modifies this
      ensures Valid() && report == old(report).(counts := CountsOf(report.entries), updatedAt := env.clock(old(tick)))
      ensures job.Resumable(report) && handed == old(handed) + [report] && requests == old(requests)
      ensures tick == old(tick) + 1 && ok == env.accepts(old(tick))
    {
      hide History, Sparing, Earned, AllExtend, CountsOf, TracksAll, Env.Plausible;
      var counts := Recount(report.entries);
      report := report.(counts := counts, updatedAt := env.clock(tick));
      HistoryMore(job, handed, report);
      handed := handed + [report];
      ok := env.accepts(tick);
      tick := tick + 1;
    }

    /** A changed entry, written where it was. */
    method Put(i: nat, f: Entry)
      requires Valid() && i < |report.entries| && job.ValidAt(i, f) && Extends(report.entries[i], f)
      requires tracked ==> Tracks(job, truth, i, f)
      modifies this`report
      ensures Valid() && report == old(report).(entries := old(report).entries[i := f])
    {
      hide History, Sparing, Earned, Tracks, Extends, Env.Plausible;
      PutKeeps(job, report.entries, i, f);
      EarnedGoesOn(job, report.entries, report.entries[i := f], requests);
      HistoryGoesOn(job, handed, report.entries, report.entries[i := f]);
      ExtendsOn(base, report.entries, report.entries[i := f]);
      if tracked {
        PutTracks(job, truth, report.entries, i, f);
      }
      report := report.(entries := report.entries[i := f]);
    }

    /** A look at whether the run was cancelled. */
    method Poll() returns (cancelled: bool)
      requires Valid()
      modifies this`tick
      ensures Valid() && tick == old(tick) + 1 && cancelled == env.cancelled(old(tick))
    {
      cancelled := env.cancelled(tick);
      tick := tick + 1;
    }

    /** A model request, on record. */
    method Ask(i: nat, stage: Stage) returns (when: nat)
      requires Valid() && i < |report.entries| && Request(i, stage) !in requests
      requires stage.AtScreening? ==> report.entries[i].screening.None?
      requires stage.AtAnalysis? ==> report.entries[i].analysis.None?
      requires Due(job, report.entries, Request(i, stage))
      modifies this`requests, this`tick
      ensures Valid() && requests == old(requests) + [Request(i, stage)] && when == old(tick) && tick == when + 1
    {
      assert Wanted(base, Request(i, stage)) by {
        assert Extends(base[i], report.entries[i]);
      }
      requests := requests + [Request(i, stage)];
      when := tick;
      tick := tick + 1;
    }

    /** What validity says about one entry. */
    lemma Facts(i: nat)
      requires Valid() && i < |report.entries|
      ensures |report.entries| == |job.prepared| && job.ValidAt(i, report.entries[i])
      ensures tracked ==> Tracks(job, truth, i, report.entries[i]) && env.Plausible(truth)
    {
    }

    function Input(i: nat): Input
      requires i < |job.prepared|
    {
      job.prepared[i].input
    }

    /** The cached screening, or the analyzer's, stored and saved before it is used. */
    method Screen(i: nat) returns (r: Outcome<Screening>)
      requires Valid() && At(i)
      requires forall q :: q in requests ==> q.index < i
      modifies this
      ensures Valid() && At(i) && OnlyAt(i)
      ensures forall q :: q in requests ==> q.index < i || q == Request(i, AtScreening)
      ensures r.Got? ==> report.entries[i].screening == Some(r.output)
      ensures r.Refused? ==> report.entries[i].screening.None?
      ensures old(report).entries[i].screening.Some? ==> r.Got? && report == old(report)
      ensures env.Steady(truth) && old(report).entries[i].screening.None? ==>
        match IdealScreening(job.rules, truth, Input(i))
        case Failed(text) => r == Refused(text) && report.entries[i] == old(report).entries[i]
        case Answered(s) => r == Got(s) && report.entries[i] == WithScreening(job.rules, old(report).entries[i], s)
    {
      hide Valid, Tracks, Extends, ValidEntry;
      var e := report.entries[i];
      if e.screening.Some? {
        return Got(e.screening.value);
      }
      var cancelled := Poll();
      if cancelled {
        return Stopped;
      }
      ChosenIff(job, i);
      var when := Ask(i, AtScreening);
      var reply := env.screen(when, Input(i));
      Facts(i);
      match reply {
        case Failed(text) => r := Refused(text);
        case Answered(s) =>
          if !job.rules.ValidOutputs(Input(i), Some(s), None) {
            return Refused(BAD_SCREENING);
          }
          ScreeningKeeps(job, truth, i, e, s);
          Put(i, WithScreening(job.rules, e, s));
          var saved := Checkpoint();
          r := if saved then Got(s) else Stopped;
      }
    }

    /** The cached analysis, or the analyzer's, stored and saved before it is used. */
    method Analyze(i: nat) returns (r: Outcome<Analysis>)
      requires Valid() && At(i) && report.entries[i].screening.Some? && report.entries[i].screening.value.relevance.Related?
      requires forall q :: q in requests ==> q.index < i || q == Request(i, AtScreening)
      modifies this
      ensures Valid() && At(i) && OnlyAt(i)
      ensures forall q :: q in requests ==> q.index <= i
      ensures report.entries[i].screening == old(report).entries[i].screening
      ensures r.Got? ==> report.entries[i].analysis == Some(r.output)
      ensures old(report).entries[i].analysis.Some? ==> r.Got? && report == old(report)
      ensures env.Steady(truth) && old(report).entries[i].analysis.None? ==>
        match IdealAnalysis(job.rules, truth, Input(i), report.entries[i].screening)
        case Failed(text) => r == Refused(text) && report.entries[i] == old(report).entries[i]
        case Answered(a) => r == Got(a) && report.entries[i] == WithAnalysis(job.rules, old(report).entries[i], a)
    {
      hide Valid, Tracks, Extends, ValidEntry;
      var e := report.entries[i];
      if e.analysis.Some? {
        return Got(e.analysis.value);
      }
      var cancelled := Poll();
      if cancelled {
        return Stopped;
      }
      ChosenIff(job, i);
      var when := Ask(i, AtAnalysis);
      var reply := env.analyze(when, Input(i));
      Facts(i);
      match reply {
        case Failed(text) => r := Refused(text);
        case Answered(a) =>
          if !job.rules.ValidOutputs(Input(i), e.screening, Some(a)) {
            return Refused(BAD_ANALYSIS);
          }
          AnalysisKeeps(job, truth, i, e, a);
          Put(i, WithAnalysis(job.rules, e, a));
          var saved := Checkpoint();
          r := if saved then Got(a) else Stopped;
      }
    }

    /** pipeline.Process: screening, the analysis only for a related candidate, and the feed item. */
    method Process(i: nat) returns (r: Outcome<Result>)
      requires Valid() && At(i)
      requires forall q :: q in requests ==> q.index < i
      modifies this
      ensures Valid() && At(i) && OnlyAt(i)
      ensures forall q :: q in requests ==> q.index <= i
      ensures r.Got? ==> Fitting(job.rules, Input(i), report.entries[i], StatusOf(r.output), r.output.feed)
      ensures r.Refused? ==> !Blank(r.text) && (report.entries[i].screening.Some? ==> !report.entries[i].screening.value.relevance.Unrelated?)
      ensures env.Steady(truth) ==>
        match r
        case Stopped => false
        case Refused(text) => Ideal(job.rules, truth, Input(i), old(report).entries[i]) == Fails(report.entries[i], text)
        case Got(result) => Ideal(job.rules, truth, Input(i), old(report).entries[i]) == Completes(report.entries[i], StatusOf(result), result.feed)
    {
      hide Valid, Tracks, Extends, ValidEntry, IdealScreening, IdealAnalysis;
      NotBlankAt(UNSUPPORTED);
      var s := Screen(i);
      match s {
        case Stopped => r := Stopped;
        case Refused(text) =>
          NotBlank(SCREENING, text);
          r := Refused(SCREENING + text);
        case Got(screening) =>
          match screening.relevance {
            case Unrelated => r := Got(Result(screening, None, None, true));
            case OtherRelevance(_) => r := Refused(UNSUPPORTED);
            case Related => r := ProcessRelated(i, screening);
            case _ =>
              r := Build(i, screening, None, SCREENED_FEED);
          }
      }
    }

    /** feed.Build, with its failure named. */
    method Build(i: nat, screening: Screening, analysis: Option<Analysis>, complaint: string) returns (r: Outcome<Result>)
      requires i < |job.prepared| && complaint != "" && !IsSpace(complaint[0])
      ensures match job.rules.build(Input(i), screening, analysis)
              case Failed(text) => r == Refused(complaint + text) && !Blank(r.text)
              case Answered(item) => r == Got(Result(screening, analysis, Some(item), false))
    {
      match job.rules.build(Input(i), screening, analysis) {
        case Failed(text) =>
          NotBlank(complaint, text);
          r := Refused(complaint + text);
        case Answered(item) => r := Got(Result(screening, analysis, Some(item), false));
      }
    }

    method ProcessRelated(i: nat, screening: Screening) returns (r: Outcome<Result>)
      requires Valid() && At(i) && report.entries[i].screening == Some(screening) && screening.relevance.Related?
      requires forall q :: q in requests ==> q.index < i || q == Request(i, AtScreening)
      modifies this
      ensures Valid() && At(i) && OnlyAt(i)
      ensures forall q :: q in requests ==> q.index <= i
      ensures report.entries[i].screening == Some(screening)
      ensures r.Got? ==> Fitting(job.rules, Input(i), report.entries[i], StatusOf(r.output), r.output.feed)
      ensures r.Refused? ==> !Blank(r.text)
      ensures env.Steady(truth) ==>
        match r
        case Stopped => false
        case Refused(text) => IdealRest(job.rules, truth, Input(i), old(report).entries[i]) == Fails(report.entries[i], text)
        case Got(result) => IdealRest(job.rules, truth, Input(i), old(report).entries[i]) == Completes(report.entries[i], StatusOf(result), result.feed)
    {
      hide Valid, Tracks, Extends, ValidEntry, IdealAnalysis;
      var a := Analyze(i);
      match a {
        case Stopped => r := Stopped;
        case Refused(text) =>
          NotBlank(ANALYSIS, text);
          r := Refused(ANALYSIS + text);
        case Got(analysis) => r := Build(i, screening, Some(analysis), ANALYZED_FEED);
      }
    }

    /** The outcome of processing an entry, written into it. */
    method Record(i: nat, r: Outcome<Result>)
      requires Valid() && At(i) && !r.Stopped?
      requires r.Got? ==> Fitting(job.rules, Input(i), report.entries[i], StatusOf(r.output), r.output.feed)
      requires r.Refused? ==> !Blank(r.text) && (report.entries[i].screening.Some? ==> !report.entries[i].screening.value.relevance.Unrelated?)
      modifies this`report
      ensures Valid() && OnlyAt(i)
      ensures report.entries[i] ==
        var e := old(report).entries[i];
        if r.Got? then Completes(e, StatusOf(r.output), r.output.feed) else Fails(e, r.text)
    {
      hide Valid, Tracks, Extends, ValidEntry, Fitting;
      Facts(i);
      match r {
        case Refused(text) =>
          FailingKeeps(job, truth, i, report.entries[i], text);
          Put(i, Fails(report.entries[i], text));
        case Got(result) =>
          CompletingKeeps(job, truth, i, report.entries[i], StatusOf(result), result.feed);
          Put(i, Completes(report.entries[i], StatusOf(result), result.feed));
      }
    }

    /** One round of the loop: the entry is restarted and processed unless it is settled, and the
        outcome is saved.  False stops the run. */
    method RunEntry(i: nat) returns (go: bool)
      requires Valid() && i < |report.entries| && report.counts == CountsOf(report.entries)
      requires forall q :: q in requests ==> q.index < i
      modifies this
      ensures Valid() && OnlyAt(i) && report.counts == CountsOf(report.entries)
      ensures forall q :: q in requests ==> q.index <= i
      ensures env.Steady(truth) ==>
        && go
        && var e := old(report).entries[i];
           report.entries[i] == if Finished(e.status) || Settled(e) then e else Ideal(job.rules, truth, Input(i), Restart(e))
    {
      hide Valid, Tracks, Extends, ValidEntry, CountsOf, Ideal, Fitting;
      var cancelled := Poll();
      if cancelled {
        return false;
      }
      var e := report.entries[i];
      if Finished(e.status) || e.status.NotSelected? || e.status.PreparationError? {
        return true;
      }
      Facts(i);
      SettledAlike(job, i, e);
      RestartKeeps(job, truth, i, e);
      Put(i, Restart(e));
      var r := Process(i);
      if r.Stopped? {
        var counts := Recount(report.entries);
        SetCounts(counts);
        return false;
      }
      Record(i, r);
      var saved := Checkpoint();
      if !saved {
        return false;
      }
      cancelled := Poll();
      go := !cancelled;
    }

    method SetCounts(counts: Counts)
      requires Valid()
      modifies this`report
      ensures Valid() && report == old(report).(counts := counts)
    {
      report := report.(counts := counts);
    }

    /** A session about to run over the entries of a report. */
    constructor (job: Job, env: Env, start: Report, ghost truth: Analyst)
      requires job.Ready() && env.Orderly() && start.header == job.header
      requires 0 < start.startedAt <= start.updatedAt <= env.clock(0) && job.ValidEntries(start.entries)
      ensures Valid() && fresh(this) && this.job == job && this.env == env && this.truth == truth && report == start
      ensures handed == [] && requests == [] && base == start.entries
      ensures tracked <==> env.Plausible(truth) && TracksAll(job, truth, start.entries)
    {
      this.job, this.env, this.truth, this.base := job, env, truth, start.entries;
      this.tracked := env.Plausible(truth) && TracksAll(job, truth, start.entries);
      report, tick, handed, requests := start, 0, [], [];
    }
  }

  lemma SettledAlike(job: Job, i: nat, e: Entry)
    requires i < |job.prepared| && job.ValidAt(i, e)
    ensures Settled(e) <==> Settled(job.Start(i))
  {
  }

  /** The entries of one uninterrupted run. */
  ghost function IdealEntry(job: Job, truth: Analyst, i: nat): Entry
    requires i < |job.prepared|
  {
    var e := job.Start(i);
    if Settled(e) then e else Ideal(job.rules, truth, job.prepared[i].input, e)
  }

  ghost predicate IsIdeal(job: Job, truth: Analyst, es: seq<Entry>) {
    |es| == |job.prepared| && forall i :: 0 <= i < |es| ==> es[i] == IdealEntry(job, truth, i)
  }

  // ---------- starting and resuming ----------

  method StartEntries(job: Job) returns (es: seq<Entry>)
    requires job.Ready()
    ensures |es| == |job.prepared| && forall i :: 0 <= i < |es| ==> es[i] == job.Start(i)
  {
    es := [];
    for i := 0 to |job.prepared|
      invariant |es| == i && forall j :: 0 <= j < i ==> es[j] == job.Start(j)
    {
      es := es + [job.Start(i)];
    }
  }

  lemma StartsFit(job: Job, truth: Analyst, es: seq<Entry>)
    requires job.Ready() && |es| == |job.prepared| && forall i :: 0 <= i < |es| ==> es[i] == job.Start(i)
    ensures job.ValidEntries(es) && TracksAll(job, truth, es)
  {
  }

  predicate HasFeed(e: Entry) {
    e.status.Analyzed? || e.status.ScreeningOnly?
  }

  /** A feed item is never taken from a saved report, but built again. */
  function Rebuilt(rules: Rules, input: Input, e: Entry): Reply<Entry> {
    if HasFeed(e) && e.screening.Some? then
      match rules.build(input, e.screening.value, e.analysis)
      case Failed(text) => Failed(text)
      case Answered(item) => Answered(e.(feed := Some(item)))
    else Answered(e.(feed := None))
  }

  predicate Rebuilds(job: Job, es: seq<Entry>) {
    |es| == |job.prepared| && forall i :: 0 <= i < |es| ==> Rebuilt(job.rules, job.prepared[i].input, es[i]).Answered?
  }

  method RebuildFeeds(job: Job, es: seq<Entry>) returns (r: Option<seq<Entry>>)
    requires |es| == |job.prepared|
    ensures r.Some? <==> Rebuilds(job, es)
    ensures r.Some? ==> |r.value| == |es| && forall i :: 0 <= i < |es| ==> r.value[i] == Rebuilt(job.rules, job.prepared[i].input, es[i]).output
  {
    var out: seq<Entry> := [];
    for i := 0 to |es|
      invariant |out| == i
      invariant forall j :: 0 <= j < i ==> Rebuilt(job.rules, job.prepared[j].input, es[j]) == Answered(out[j])
    {
      match Rebuilt(job.rules, job.prepared[i].input, es[i]) {
        case Failed(_) => return None;
        case Answered(e) => out := out + [e];
      }
    }
    r := Some(out);
  }

  /** Rebuilding touches nothing but the feed items; those of a tracked entry come out the same. */
  lemma RebuiltKeeps(job: Job, truth: Analyst, i: nat, e: Entry)
    requires i < |job.prepared| && job.ValidAt(i, e)
    ensures
      var r := Rebuilt(job.rules, job.prepared[i].input, e);
      && (r.Answered? ==> job.ValidAt(i, r.output) && Extends(e, r.output))
      && (Tracks(job, truth, i, e) ==> r == Answered(e))
  {
  }

  /** What a run may be asked: a limit that is not negative, a named model, and an analyzer. */
  predicate Sensible(job: Job, analyzer: bool) {
    job.header.limit >= 0 && !Blank(job.header.model) && analyzer
  }

  ghost predicate Accepted(job: Job, analyzer: bool, previous: Option<Report>) {
    Sensible(job, analyzer) && (previous.Some? ==> job.Resumable(previous.value) && Rebuilds(job, previous.value.entries))
  }

  /** The stored outputs that a run is given. */
  ghost function Given(job: Job, previous: Option<Report>): seq<Entry> {
    if previous.Some? then previous.value.entries else seq(|job.prepared|, i requires 0 <= i < |job.prepared| => job.Start(i))
  }

  /** The run over all entries, from a fresh or a resumed report. */
  method RunEntries(job: Job, env: Env, start: Report, ghost truth: Analyst)
    returns (r: Report, handed: seq<Report>, requests: seq<Request>, ticks: nat)
    requires job.Ready() && env.Orderly() && start.header == job.header
    requires 0 < start.startedAt <= start.updatedAt <= env.clock(0) && job.ValidEntries(start.entries)
    ensures job.Resumable(r) && History(job, handed, r.entries)
    ensures handed != [] && handed[0].entries == start.entries && AllExtend(start.entries, r.entries)
    ensures Sparing(start.entries, requests) && Earned(job, r.entries, requests)
    ensures Dated(handed + [r], env.clock(ticks))
    ensures env.Plausible(truth) && TracksAll(job, truth, start.entries) ==> TracksAll(job, truth, r.entries) && HandedTrack(job, truth, handed)
    ensures env.Steady(truth) && TracksAll(job, truth, start.entries) ==> IsIdeal(job, truth, r.entries)
  {
    hide History, TracksAll, CountsOf, Sparing, Earned, AllExtend, Ideal;
    var s := new Session(job, env, start, truth);
    var go := s.Checkpoint();
    var i := 0;
    while go && i < |job.prepared|
      invariant i <= |job.prepared| && fresh(s) && s.job == job && s.env == env && s.truth == truth && s.base == start.entries
      invariant s.Valid() && s.report.counts == CountsOf(s.report.entries)
      invariant s.handed != [] && s.handed[0].entries == start.entries
      invariant s.tracked <==> env.Plausible(truth) && TracksAll(job, truth, start.entries)
      invariant forall q :: q in s.requests ==> q.index < i
      invariant env.Steady(truth) && s.tracked ==> go && forall j :: 0 <= j < i ==> s.report.entries[j] == IdealEntry(job, truth, j)
    {
      ghost var before := s.report.entries;
      s.Facts(i);
      go := s.RunEntry(i);
      if env.Steady(truth) && s.tracked {
        ReachesIdeal(job, truth, i, before[i], s.report.entries[i]);
      }
      i := i + 1;
    }
    r, handed, requests, ticks := s.report, s.handed, s.requests, s.tick;
  }

  lemma ReachesIdeal(job: Job, truth: Analyst, i: nat, e: Entry, f: Entry)
    requires i < |job.prepared| && job.ValidAt(i, e) && Tracks(job, truth, i, e)
    requires f == if Finished(e.status) || Settled(e) then e else Ideal(job.rules, truth, job.prepared[i].input, Restart(e))
    ensures f == IdealEntry(job, truth, i)
  {
    SettledAlike(job, i, e);
    if !Settled(e) && !Finished(e.status) {
      CacheIsTransparent(job, truth, i, e);
    }
  }

  /** Run.  Nothing is saved or asked before the previous report has been accepted as a whole. */
  method Run(job: Job, analyzer: bool, env: Env, previous: Option<Report>, ghost truth: Analyst)
    returns (r: Option<Report>, handed: seq<Report>, requests: seq<Request>, ticks: nat)
    requires job.Ready() && env.Orderly()
    requires previous.Some? ==> previous.value.updatedAt <= env.clock(0)
    ensures r.Some? <==> Accepted(job, analyzer, previous)
    ensures r.Some? ==> analyzer && 0 <= job.header.limit && exists i :: 0 <= i < |job.header.model| && !IsSpace(job.header.model[i])
    ensures analyzer && 0 <= job.header.limit && !Blank(job.header.model) && previous == None ==> r.Some?
    ensures r.None? ==> handed == [] && requests == []
    ensures r.Some? ==> job.Resumable(r.value) && History(job, handed, r.value.entries)
    ensures r.Some? ==> handed != [] && AllExtend(Given(job, previous), handed[0].entries) && AllExtend(Given(job, previous), r.value.entries)
    ensures r.Some? ==> Sparing(Given(job, previous), requests) && Earned(job, r.value.entries, requests)
    ensures r.Some? ==> Dated(handed + [r.value], env.clock(ticks))
    ensures r.Some? && env.Plausible(truth) && TracksAll(job, truth, Given(job, previous)) ==>
      TracksAll(job, truth, r.value.entries) && HandedTrack(job, truth, handed)
    ensures r.Some? && env.Steady(truth) && TracksAll(job, truth, Given(job, previous)) ==> IsIdeal(job, truth, r.value.entries)
  {
    hide History, TracksAll, Sparing, Earned, AllExtend, ValidEntry, Rebuilt, IsIdeal, CountsOf;
    if job.header.limit < 0 || Blank(job.header.model) || !analyzer {
      return None, [], [], 0;
    }
    var begun := Open(job, env.clock(0), previous, truth);
    if begun.None? {
      return None, [], [], 0;
    }
    var start := begun.value;
    var result;
    result, handed, requests, ticks := RunEntries(job, env, start, truth);
    SameGiven(Given(job, previous), start.entries, result.entries, requests);
    r := Some(result);
  }

  /** The report a run works on: a new one, or the previous one with its feed items built again. */
  method Open(job: Job, now: nat, previous: Option<Report>, ghost truth: Analyst) returns (r: Option<Report>)
    requires job.Ready() && now > 0 && (previous.Some? ==> previous.value.updatedAt <= now)
    ensures r.Some? <==> (previous.Some? ==> job.Resumable(previous.value) && Rebuilds(job, previous.value.entries))
    ensures r.Some? ==> r.value.header == job.header && 0 < r.value.startedAt <= r.value.updatedAt <= now
    ensures r.Some? ==> job.ValidEntries(r.value.entries)
    ensures r.Some? ==> AllExtend(Given(job, previous), r.value.entries) && SameOutputs(Given(job, previous), r.value.entries)
    ensures r.Some? && TracksAll(job, truth, Given(job, previous)) ==> TracksAll(job, truth, r.value.entries)
  {
    hide Rebuilt, CountsOf, ValidEntry, Tracks;
    var entries := StartEntries(job);
    var counts := Recount(entries);
    if previous.None? {
      StartsFit(job, truth, entries);
      assert entries == Given(job, None);
      ExtendsSelf(entries);
      return Some(Report(job.header, now, now, counts, entries));
    }
    var valid := ValidateResume(job, previous.value);
    if !valid {
      return None;
    }
    var rebuilt := RebuildFeeds(job, previous.value.entries);
    if rebuilt.None? {
      return None;
    }
    RebuiltFits(job, truth, previous.value.entries, rebuilt.value);
    r := Some(previous.value.(entries := rebuilt.value));
  }

  lemma RebuiltFits(job: Job, truth: Analyst, before: seq<Entry>, es: seq<Entry>)
    requires job.ValidEntries(before) && Rebuilds(job, before) && |es| == |before|
    requires forall i :: 0 <= i < |es| ==> es[i] == Rebuilt(job.rules, job.prepared[i].input, before[i]).output
    ensures job.ValidEntries(es) && AllExtend(before, es) && SameOutputs(before, es)
    ensures TracksAll(job, truth, before) ==> es == before
  {
    hide ValidEntry, Tracks;
    forall i | 0 <= i < |es|
      ensures job.ValidAt(i, es[i]) && Extends(before[i], es[i]) && (Tracks(job, truth, i, before[i]) ==> es[i] == before[i])
    {
      RebuiltKeeps(job, truth, i, before[i]);
    }
  }

  predicate SameOutputs(a: seq<Entry>, b: seq<Entry>) {
    |a| == |b| && forall i :: 0 <= i < |a| ==> a[i].screening == b[i].screening && a[i].analysis == b[i].analysis
  }

  lemma ExtendsSelf(es: seq<Entry>)
    ensures AllExtend(es, es) && SameOutputs(es, es)
  {
  }

  /** Feed items aside, the run starts from what it was given. */
  lemma SameGiven(given: seq<Entry>, start: seq<Entry>, end: seq<Entry>, requests: seq<Request>)
    requires AllExtend(given, start) && SameOutputs(given, start) && AllExtend(start, end) && Sparing(start, requests)
    ensures AllExtend(given, end) && Sparing(given, requests)
  {
    ExtendsOn(given, start, end);
    forall k | 0 <= k < |requests|
      ensures Wanted(given, requests[k])
    {
      assert Wanted(start, requests[k]);
    }
  }

  // ---------- any number of interruptions ----------

  /** One run happens after the other. */
  ghost predicate Precedes(a: Env, b: Env) {
    forall t :: a.clock(t) <= b.clock(0)
  }

  ghost predicate InOrder(envs: seq<Env>) {
    forall i :: 0 <= i < |envs| - 1 ==> Precedes(envs[i], envs[i + 1])
  }

  /** One run of a chain, and the report of it that is carried on: the one it returned, or the k-th
      it handed out. */
  method RunOnce(job: Job, env: Env, previous: Option<Report>, k: Option<nat>, ghost truth: Analyst)
    returns (r: Report, ticks: nat)
    requires job.Ready() && Sensible(job, true) && env.Orderly() && env.Plausible(truth)
    requires previous.Some? ==> job.Resumable(previous.value) && previous.value.updatedAt <= env.clock(0)
    requires TracksAll(job, truth, Given(job, previous))
    ensures job.Resumable(r) && TracksAll(job, truth, r.entries) && r.updatedAt <= env.clock(ticks)
    ensures k.None? && env.Steady(truth) ==> IsIdeal(job, truth, r.entries)
  {
    hide Env.Plausible, Env.Steady, TracksAll, IsIdeal, Rebuilds, AllExtend, Sparing;
    if previous.Some? {
      TrackedRebuilds(job, truth, previous.value.entries);
    }
    var returned, handed, requests;
    returned, handed, requests, ticks := Run(job, true, env, previous, truth);
    r := if k.None? || k.value >= |handed| then returned.value else handed[k.value];
    assert (handed + [returned.value])[|handed|] == returned.value;
    assert forall j :: 0 <= j < |handed| ==> (handed + [returned.value])[j] == handed[j];
  }

  /** Runs interrupted in any way, each resumed from any report that the one before handed out or
      returned, and then one that is not interrupted: the entries and the counters are those of one
      uninterrupted run that never stopped. */
  method RunRepeatedly(job: Job, envs: seq<Env>, choose: nat -> Option<nat>, once: Env, ghost truth: Analyst)
    returns (r: Report, single: Report)
    requires job.Ready() && Sensible(job, true)
    requires |envs| > 0 && InOrder(envs) && forall i :: 0 <= i < |envs| ==> envs[i].Orderly() && envs[i].Plausible(truth)
    requires envs[|envs| - 1].Steady(truth)
    requires once.Orderly() && once.Steady(truth)
    ensures r.entries == single.entries && r.counts == single.counts
    ensures IsIdeal(job, truth, r.entries)
  {
    hide Env.Plausible, Env.Steady, TracksAll, IsIdeal, Job.Resumable;
    var previous: Option<Report> := None;
    GivenTracks(job, truth);
    var last := |envs| - 1;
    for i := 0 to last
      invariant TracksAll(job, truth, Given(job, previous))
      invariant previous.Some? ==> job.Resumable(previous.value) && previous.value.updatedAt <= envs[i].clock(0)
    {
      var carried, ticks := RunOnce(job, envs[i], previous, choose(i), truth);
      assert Precedes(envs[i], envs[i + 1]);
      previous := Some(carried);
    }
    var ticks;
    r, ticks := RunOnce(job, envs[last], previous, None, truth);
    SteadyIsPlausible(once, truth);
    single, ticks := RunOnce(job, once, None, None, truth);
    IdealUnique(job, truth, r.entries, single.entries);
    SameCounts(job, r, single);
  }

  lemma SteadyIsPlausible(env: Env, truth: Analyst)
    requires env.Steady(truth)
    ensures env.Plausible(truth)
  {
  }

  lemma SameCounts(job: Job, a: Report, b: Report)
    requires job.Resumable(a) && job.Resumable(b) && a.entries == b.entries
    ensures a.counts == b.counts
  {
  }

  lemma GivenTracks(job: Job, truth: Analyst)
    requires job.Ready()
    ensures TracksAll(job, truth, Given(job, None))
  {
    StartsFit(job, truth, Given(job, None));
  }

  /** The feed items of tracked reports can always be built again. */
  lemma TrackedRebuilds(job: Job, truth: Analyst, es: seq<Entry>)
    requires job.ValidEntries(es) && TracksAll(job, truth, es)
    ensures Rebuilds(job, es)
  {
    hide ValidEntry, Tracks;
    forall i | 0 <= i < |es|
      ensures Rebuilt(job.rules, job.prepared[i].input, es[i]).Answered?
    {
      RebuiltKeeps(job, truth, i, es[i]);
    }
  }

  lemma IdealUnique(job: Job, truth: Analyst, a: seq<Entry>, b: seq<Entry>)
    requires IsIdeal(job, truth, a) && IsIdeal(job, truth, b)
    ensures a == b
  {
  }

  lemma NotBlankAt(text: string)
    requires text != "" && !IsSpace(text[0])
    ensures !Blank(text)
  {
  }
}
