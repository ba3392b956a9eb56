module ReportLifecycle {
  // The tracking lifecycle of a report (frontend/src/services/reports.ts) and its restoration from
  // session storage (frontend/src/services/reportSession.ts).  Times are milliseconds; stored dates are
  // compared as text, which for the dates that can be stored is the order of their times.

  import opened ScanTypes

  const DAY := 24 * 60 * 60 * 1000
  const TRACKING_DAYS := 7
  const MAX_HISTORY := 100
  const MAX_SAFE := 9007199254740991

  /** The dates with a four-digit year. */
  const FIRST_DATE := -62167219200000
  const LAST_DATE := 253402300799999

  datatype Reason = Initial | Scheduled | Manual | OtherReason(text: string)

  datatype Revision = Revision(revision: int, analyzedAt: int, reason: Reason)

  datatype Lifecycle = Lifecycle(
    articleId: string, origin: string, lastAnalyzedAt: Option<int>, trackingUntil: int,
    nextCheckAt: Option<int>, revision: int, history: seq<Revision>)

  /** A feed item, as far as tracking goes. */
  datatype Item = Item(id: string, pending: bool, updatedAt: int)

  // ---------- the operations ----------

  function NextCheck(analyzedAt: int, trackingUntil: int): Option<int> {
    if analyzedAt + DAY < trackingUntil then Some(analyzedAt + DAY) else None
  }

  function Create(item: Item, now: int, origin: string): Lifecycle {
    var analyzed := if item.pending then None else Some(item.updatedAt);
    var until := (if item.pending then now else item.updatedAt) + TRACKING_DAYS * DAY;
    Lifecycle(item.id, origin, analyzed, until,
              if item.pending || now >= until then None else NextCheck(item.updatedAt, until),
              if item.pending then 0 else 1,
              if item.pending then [] else [Revision(1, item.updatedAt, Initial)])
  }

  /** Whether an update is made: not before the last one, and when scheduled only when it is due. */
  predicate Due(l: Lifecycle, now: int, reason: Reason) {
    && (l.lastAnalyzedAt.Some? ==> l.lastAnalyzedAt.value <= now)
    && (reason.Scheduled? ==> now < l.trackingUntil && l.nextCheckAt.Some? && l.nextCheckAt.value <= now)
  }

  function Update(l: Lifecycle, now: int, reason: Reason): Lifecycle {
    if !Due(l, now, reason) then l
    else
      l.(revision := l.revision + 1, lastAnalyzedAt := Some(now), nextCheckAt := NextCheck(now, l.trackingUntil),
         history := l.history + [Revision(l.revision + 1, now, reason)])
  }

  function Renew(l: Lifecycle, now: int): Lifecycle {
    l.(trackingUntil := now + TRACKING_DAYS * DAY, nextCheckAt := Some(now + DAY))
  }

  /** What is written to session storage. */
  function Stored(l: Lifecycle): Lifecycle {
    l.(history := if |l.history| <= MAX_HISTORY then l.history else l.history[|l.history| - MAX_HISTORY..])
  }

  // ---------- restoring ----------

  predicate Storable(t: int) {
    FIRST_DATE <= t <= LAST_DATE
  }

  predicate StorableIf(t: Option<int>) {
    t.Some? ==> Storable(t.value)
  }

  predicate ValidRevision(e: Revision, now: int) {
    1 <= e.revision <= MAX_SAFE && Storable(e.analyzedAt) && e.analyzedAt <= now && !e.reason.OtherReason?
  }

  predicate Follows(e: Revision, f: Revision) {
    f.revision == e.revision + 1 && e.analyzedAt <= f.analyzedAt && !f.reason.Initial?
  }

  predicate ValidHistory(h: seq<Revision>, now: int) {
    && (forall i :: 0 <= i < |h| ==> ValidRevision(h[i], now))
    && forall i :: 0 <= i < |h| - 1 ==> Follows(h[i], h[i + 1])
  }

  predicate EndsAt(l: Lifecycle) {
    if l.revision == 0 then l.history == [] && l.lastAnalyzedAt.None?
    else l.history != [] && l.history[|l.history| - 1].revision == l.revision && Some(l.history[|l.history| - 1].analyzedAt) == l.lastAnalyzedAt
  }

  predicate NextFits(l: Lifecycle) {
    l.nextCheckAt.Some? ==> l.nextCheckAt.value < l.trackingUntil && (l.lastAnalyzedAt.Some? ==> l.lastAnalyzedAt.value < l.nextCheckAt.value)
  }

  /** What is restored against a baseline: nothing else may come out of storage. */
  predicate Restorable(v: Lifecycle, baseline: Lifecycle, now: int) {
    && v.articleId == baseline.articleId && v.origin == baseline.origin
    && Storable(v.trackingUntil) && StorableIf(v.lastAnalyzedAt) && StorableIf(v.nextCheckAt)
    && -MAX_SAFE <= v.revision <= MAX_SAFE && baseline.revision <= v.revision
    && |v.history| <= MAX_HISTORY
    && (baseline.revision == 0 ==> v.revision == 0)
    && ValidHistory(v.history, now) && EndsAt(v) && NextFits(v)
  }

  method ParseStored(v: Lifecycle, baseline: Lifecycle, now: int) returns (r: Option<Lifecycle>)
    ensures r == if Restorable(v, baseline, now) then Some(v) else None
  {
    if v.articleId != baseline.articleId || v.origin != baseline.origin {
      return None;
    }
    if !Storable(v.trackingUntil) || !StorableIf(v.lastAnalyzedAt) || !StorableIf(v.nextCheckAt) {
      return None;
    }
    if v.revision < -MAX_SAFE || v.revision > MAX_SAFE || v.revision < baseline.revision || |v.history| > MAX_HISTORY {
      return None;
    }
    if baseline.revision == 0 && v.revision != 0 {
      return None;
    }
    var history: seq<Revision> := [];
    for i := 0 to |v.history|
      invariant history == v.history[..i] && ValidHistory(history, now)
    {
      var e := v.history[i];
      if e.revision < 1 || e.revision > MAX_SAFE || !Storable(e.analyzedAt) || e.analyzedAt > now || e.reason.OtherReason? {
        assert !ValidRevision(v.history[i], now);
        return None;
      }
      if |history| > 0 {
        var previous := history[|history| - 1];
        if e.revision != previous.revision + 1 || e.analyzedAt < previous.analyzedAt || e.reason.Initial? {
          assert !Follows(v.history[i - 1], v.history[i - 1 + 1]);
          return None;
        }
      }
      history := history + [e];
    }
    assert history == v.history;
    if v.revision == 0 {
      if |history| != 0 || v.lastAnalyzedAt.Some? {
        return None;
      }
    } else if |history| == 0 || history[|history| - 1].revision != v.revision || Some(history[|history| - 1].analyzedAt) != v.lastAnalyzedAt {
      return None;
    }
    if v.nextCheckAt.Some? {
      if v.nextCheckAt.value >= v.trackingUntil || (v.lastAnalyzedAt.Some? && v.nextCheckAt.value <= v.lastAnalyzedAt.value) {
        return None;
      }
    }
    r := Some(Lifecycle(baseline.articleId, baseline.origin, v.lastAnalyzedAt, v.trackingUntil, v.nextCheckAt, v.revision, history));
  }

  // ---------- what every lifecycle in use satisfies ----------

  predicate Dated(h: seq<Revision>, now: int) {
    && (forall i :: 0 <= i < |h| ==> 1 <= h[i].revision && FIRST_DATE <= h[i].analyzedAt <= now && !h[i].reason.OtherReason?)
    && forall i :: 0 <= i < |h| - 1 ==> Follows(h[i], h[i + 1])
  }

  predicate Sound(l: Lifecycle, now: int) {
    && 0 <= l.revision && Dated(l.history, now) && EndsAt(l) && NextFits(l)
    && FIRST_DATE <= l.trackingUntil
    && (l.nextCheckAt.Some? ==> FIRST_DATE <= l.nextCheckAt.value)
    && (l.lastAnalyzedAt.Some? ==> l.lastAnalyzedAt.value <= now)
  }

  datatype Event = Updating(reason: Reason) | Renewing | Storing

  function Apply(l: Lifecycle, e: Event, now: int): Lifecycle {
    match e
    case Updating(reason) => Update(l, now, reason)
    case Renewing => Renew(l, now)
    case Storing => Stored(l)
  }

  predicate Proper(e: Event) {
    e.Updating? ==> e.reason.Scheduled? || e.reason.Manual?
  }

  lemma CreateIsSound(item: Item, now: int, origin: string)
    requires Storable(item.updatedAt) && item.updatedAt <= now && FIRST_DATE <= now
    ensures Sound(Create(item, now, origin), now)
  {
  }

  lemma ApplyKeepsSound(l: Lifecycle, e: Event, then_: int, now: int)
    requires Sound(l, then_) && then_ <= now && FIRST_DATE <= now && Proper(e)
    ensures Sound(Apply(l, e, now), now)
  {
  }

  // ---------- runs ----------

  /** A lifecycle from its creation on, with the time of each event; time does not go back. */
  ghost predicate IsRun(item: Item, origin: string, ls: seq<Lifecycle>, times: seq<int>, events: seq<Event>) {
    && |ls| == |times| == |events| + 1
    && ls[0] == Create(item, times[0], origin)
    && forall i :: 0 <= i < |events| ==> IsStep(ls, times, events, i)
  }

  ghost predicate IsStep(ls: seq<Lifecycle>, times: seq<int>, events: seq<Event>, i: nat)
    requires i < |events| && |ls| == |times| == |events| + 1
  {
    times[i] <= times[i + 1] && Proper(events[i]) && ls[i + 1] == Apply(ls[i], events[i], times[i + 1])
  }

  /** The item is dated, with a year of four digits, and not in the future; neither is the clock before
      the first such year. */
  predicate WellDated(item: Item, start: int) {
    FIRST_DATE <= start && Storable(item.updatedAt) && item.updatedAt <= start
  }

  lemma {:induction false} RunIsSound(item: Item, origin: string, ls: seq<Lifecycle>, times: seq<int>, events: seq<Event>, n: nat)
    requires IsRun(item, origin, ls, times, events) && WellDated(item, times[0]) && n < |ls|
    ensures Sound(ls[n], times[n]) && FIRST_DATE <= times[n]
    ensures ls[n].articleId == item.id && ls[n].origin == origin
    ensures (if item.pending then 0 else 1) <= ls[n].revision
  {
    if n == 0 {
      CreateIsSound(item, times[0], origin);
    } else {
      RunIsSound(item, origin, ls, times, events, n - 1);
      assert IsStep(ls, times, events, n - 1);
      ApplyKeepsSound(ls[n - 1], events[n - 1], times[n - 1], times[n]);
    }
  }

  lemma StoredIsValid(l: Lifecycle, now: int)
    requires Sound(l, now) && Storable(now) && l.revision <= MAX_SAFE
    ensures |Stored(l).history| <= MAX_HISTORY && ValidHistory(Stored(l).history, now) && EndsAt(Stored(l))
  {
    RevisionsBounded(l, now, |l.history|);
    forall i | 0 <= i < |l.history|
      ensures ValidRevision(l.history[i], now)
    {
    }
  }

  /** No revision in a history is later than the last. */
  lemma {:induction false} RevisionsBounded(l: Lifecycle, now: int, n: nat)
    requires Sound(l, now) && n <= |l.history|
    ensures forall i :: |l.history| - n <= i < |l.history| ==> l.history[i].revision <= l.revision
  {
    if n > 1 {
      RevisionsBounded(l, now, n - 1);
      var i := |l.history| - n;
      assert Follows(l.history[i], l.history[i + 1]);
    }
  }

  /** Whatever was done to a lifecycle, what is stored of it is restored as it is, exactly when its
      end of tracking can still be written as a date (and its revision as a number) and the baseline is
      an earlier state that was analyzed if it is. */
  lemma StoredIsRestored(item: Item, origin: string, ls: seq<Lifecycle>, times: seq<int>, events: seq<Event>, n: nat,
                         baseline: Lifecycle)
    requires IsRun(item, origin, ls, times, events) && WellDated(item, times[0]) && n < |ls| && Storable(times[n])
    requires baseline.articleId == item.id && baseline.origin == origin
    ensures Restorable(Stored(ls[n]), baseline, times[n]) <==>
      && Storable(ls[n].trackingUntil) && ls[n].revision <= MAX_SAFE
      && baseline.revision <= ls[n].revision && (baseline.revision == 0 ==> ls[n].revision == 0)
  {
    RunIsSound(item, origin, ls, times, events, n);
    if ls[n].revision <= MAX_SAFE {
      StoredIsValid(ls[n], times[n]);
    }
  }

  const FIRST_OF_9999_12_31 := LAST_DATE - DAY + 1
  const LATE := Item("cve-1", false, FIRST_OF_9999_12_31)

  /** A lifecycle made on the last day of the year 9999 is sound and is not restored: the end of its
      tracking has a year of five digits. */
  lemma LateIsNotRestored()
    ensures WellDated(LATE, FIRST_OF_9999_12_31)
    ensures IsRun(LATE, "feed", [Create(LATE, FIRST_OF_9999_12_31, "feed")], [FIRST_OF_9999_12_31], [])
    ensures !Restorable(Stored(Create(LATE, FIRST_OF_9999_12_31, "feed")), Create(LATE, FIRST_OF_9999_12_31, "feed"), FIRST_OF_9999_12_31)
  {
  }

  // ---------- scheduled updates ----------

  predicate MakesScheduled(ls: seq<Lifecycle>, times: seq<int>, events: seq<Event>, i: nat)
    requires i < |events| && |ls| == |times| == |events| + 1
  {
    events[i] == Updating(Scheduled) && Due(ls[i], times[i + 1], Scheduled)
  }

  /** The scheduled updates since the last renewal, or since creation. */
  function ScheduledSince(ls: seq<Lifecycle>, times: seq<int>, events: seq<Event>, n: nat): nat
    requires n <= |events| && |ls| == |times| == |events| + 1
  {
    if n == 0 || events[n - 1].Renewing? then 0
    else ScheduledSince(ls, times, events, n - 1) + if MakesScheduled(ls, times, events, n - 1) then 1 else 0
  }

  /** Now, or the last analysis if that is dated later: an item may be dated in the future, and is not
      updated before then. */
  function Horizon(l: Lifecycle, now: int): int {
    if l.lastAnalyzedAt.Some? && l.lastAnalyzedAt.value > now then l.lastAnalyzedAt.value else now
  }

  /** k scheduled updates take at least k days of a period that begins seven days before its end. */
  predicate Paced(l: Lifecycle, now: int, k: nat) {
    var begin := l.trackingUntil - TRACKING_DAYS * DAY;
    && begin + k * DAY <= Horizon(l, now)
    && (l.nextCheckAt.Some? ==> begin + (k + 1) * DAY <= l.nextCheckAt.value)
    && k <= TRACKING_DAYS - 1
  }

  lemma {:induction false} RunIsPaced(item: Item, origin: string, ls: seq<Lifecycle>, times: seq<int>, events: seq<Event>, n: nat)
    requires IsRun(item, origin, ls, times, events) && n < |ls|
    ensures Paced(ls[n], times[n], ScheduledSince(ls, times, events, n))
  {
    if n > 0 {
      RunIsPaced(item, origin, ls, times, events, n - 1);
      assert IsStep(ls, times, events, n - 1);
    }
  }

  /** Between two renewals there are at most six scheduled updates, whatever else is done. */
  lemma AtMostSixScheduled(item: Item, origin: string, ls: seq<Lifecycle>, times: seq<int>, events: seq<Event>, n: nat)
    requires IsRun(item, origin, ls, times, events) && n < |ls|
    ensures ScheduledSince(ls, times, events, n) <= 6
  {
    RunIsPaced(item, origin, ls, times, events, n);
  }

  /** Only a renewal moves the end of tracking. */
  lemma {:induction false} TrackingNeverExtended(item: Item, origin: string, ls: seq<Lifecycle>, times: seq<int>, events: seq<Event>, m: nat, n: nat)
    requires IsRun(item, origin, ls, times, events) && m <= n < |ls|
    requires forall i :: m <= i < n ==> !events[i].Renewing?
    ensures ls[n].trackingUntil == ls[m].trackingUntil
  {
    if m < n {
      TrackingNeverExtended(item, origin, ls, times, events, m, n - 1);
      assert IsStep(ls, times, events, n - 1);
    }
  }

  // ---------- the operations in plain numbers ----------

  /** The milliseconds of a day, and of the seven days for which a report is tracked. */
  const ONE_DAY := 86400000
  const SEVEN_DAYS := 604800000

  /** An update is made unless it is dated before the last one; a scheduled one only once it is due and
      only while the report is tracked.  A made update is dated and numbered, and asks for the next
      check a day later if that is still before the end of tracking. */
  lemma UpdateMeans(l: Lifecycle, now: int, reason: Reason)
    ensures
      var made := (l.lastAnalyzedAt == None || l.lastAnalyzedAt.value <= now)
        && (reason == Scheduled ==> now < l.trackingUntil && l.nextCheckAt != None && l.nextCheckAt.value <= now);
      var u := Update(l, now, reason);
      && (!made ==> u == l)
      && (made ==>
            && u.revision == l.revision + 1 && u.lastAnalyzedAt == Some(now)
            && u.history == l.history + [Revision(l.revision + 1, now, reason)]
            && (u.nextCheckAt != None <==> now + ONE_DAY < l.trackingUntil)
            && (u.nextCheckAt != None ==> u.nextCheckAt == Some(now + ONE_DAY)))
      && u.trackingUntil == l.trackingUntil && u.articleId == l.articleId && u.origin == l.origin
  {
  }

  /** A new lifecycle of an analyzed item starts at its analysis; one of an unfinished item starts now,
      with nothing analyzed and no check due. */
  lemma CreateMeans(item: Item, now: int, origin: string)
    ensures
      var l := Create(item, now, origin);
      && l.articleId == item.id && l.origin == origin
      && (if item.pending then
            l.revision == 0 && l.history == [] && l.lastAnalyzedAt == None && l.nextCheckAt == None && l.trackingUntil == now + SEVEN_DAYS
          else
            && l.revision == 1 && l.history == [Revision(1, item.updatedAt, Initial)]
            && l.lastAnalyzedAt == Some(item.updatedAt) && l.trackingUntil == item.updatedAt + SEVEN_DAYS
            && l.nextCheckAt == (if now < item.updatedAt + SEVEN_DAYS then Some(item.updatedAt + ONE_DAY) else None))
  {
  }

  /** A renewal tracks for seven more days from now, and has the next check a day from now. */
  lemma RenewMeans(l: Lifecycle, now: int)
    ensures Renew(l, now) == l.(trackingUntil := now + SEVEN_DAYS, nextCheckAt := Some(now + ONE_DAY))
  {
  }

  /** Scheduled updates asked for every day at the same time, for k days. */
  function Daily(l: Lifecycle, start: int, k: nat): Lifecycle {
    if k == 0 then l else Update(Daily(l, start, k - 1), start + k * ONE_DAY, Scheduled)
  }

  /** After a renewal the daily scheduled updates are made on each of the next six days, and on no later
      one: the bound of six is reached. */
  lemma {:induction false} SixAreMade(l: Lifecycle, start: int, k: nat)
    requires l.lastAnalyzedAt == None || l.lastAnalyzedAt.value <= start
    ensures
      var d := Daily(Renew(l, start), start, k);
      var made := if k <= 6 then k else 6;
      && d.revision == l.revision + made && |d.history| == |l.history| + made
      && d.lastAnalyzedAt == (if k == 0 then l.lastAnalyzedAt else Some(start + made * ONE_DAY))
      && d.trackingUntil == start + SEVEN_DAYS
      && d.nextCheckAt == if k < 6 then Some(start + (k + 1) * ONE_DAY) else None
  {
    if k > 0 {
      SixAreMade(l, start, k - 1);
      var before := Daily(Renew(l, start), start, k - 1);
      UpdateMeans(before, start + k * ONE_DAY, Scheduled);
    }
  }

  /** The first and the last millisecond that a date of four digits can name. */
  lemma StorableEnds()
    ensures Storable(-62167219200000) && !Storable(-62167219200001)
    ensures Storable(253402300799999) && !Storable(253402300800000)
  {
  }

  /** Storing keeps the last hundred revisions and everything else. */
  lemma StoredMeans(l: Lifecycle)
    ensures Stored(l) == l.(history := Stored(l).history)
    ensures |Stored(l).history| == if |l.history| < 100 then |l.history| else 100
    ensures exists older :: l.history == older + Stored(l).history
  {
    var n := |l.history| - |Stored(l).history|;
    assert l.history == l.history[..n] + Stored(l).history;
  }

  /** A history that is restored, as a whole: it ends with the last revision and counts back from it one
      by one, its dates never go back nor lie in the future, and only its first entry can be initial. */
  predicate Chronicle(v: Lifecycle, now: int) {
    && (v.revision == 0 <==> v.history == []) && (v.history == [] ==> v.lastAnalyzedAt == None)
    && (v.history != [] ==> v.lastAnalyzedAt == Some(v.history[|v.history| - 1].analyzedAt) && v.revision - |v.history| >= 0)
    && (forall i :: 0 <= i < |v.history| ==> v.history[i].revision == v.revision - |v.history| + 1 + i)
    && (forall i, j :: 0 <= i <= j < |v.history| ==> v.history[i].analyzedAt <= v.history[j].analyzedAt <= now)
    && forall i :: 0 <= i < |v.history| ==>
         Storable(v.history[i].analyzedAt) && (v.history[i].reason in {Scheduled, Manual} || (i == 0 && v.history[i].reason == Initial))
  }

  lemma RestorableIff(v: Lifecycle, baseline: Lifecycle, now: int)
    ensures Restorable(v, baseline, now) <==>
      && v.articleId == baseline.articleId && v.origin == baseline.origin && |v.history| <= 100
      && baseline.revision <= v.revision <= 9007199254740991 && -9007199254740991 <= v.revision
      && (baseline.revision == 0 ==> v.revision == 0)
      && Chronicle(v, now)
      && Storable(v.trackingUntil) && StorableIf(v.lastAnalyzedAt) && StorableIf(v.nextCheckAt)
      && (v.nextCheckAt != None ==> v.nextCheckAt.value < v.trackingUntil)
      && (v.nextCheckAt != None && v.lastAnalyzedAt != None ==> v.lastAnalyzedAt.value < v.nextCheckAt.value)
  {
    hide Storable, ValidHistory, EndsAt, Chronicle;
    if ValidHistory(v.history, now) && EndsAt(v) {
      RestoredIsChronicle(v, now);
    }
    if Chronicle(v, now) && v.revision <= MAX_SAFE {
      ChronicleIsRestored(v, now);
    }
  }

  lemma RestoredIsChronicle(v: Lifecycle, now: int)
    requires ValidHistory(v.history, now) && EndsAt(v)
    ensures Chronicle(v, now)
  {
    hide Storable;
    CountsBack(v, now, |v.history|);
    DatesAscend(v.history, now, |v.history|);
    forall i | 0 <= i < |v.history|
      ensures Storable(v.history[i].analyzedAt) && (v.history[i].reason in {Scheduled, Manual} || (i == 0 && v.history[i].reason == Initial))
    {
      assert ValidRevision(v.history[i], now);
      if i > 0 {
        assert Follows(v.history[i - 1], v.history[i - 1 + 1]);
      }
    }
    if v.history != [] {
      assert ValidRevision(v.history[0], now);
    }
  }

  lemma ChronicleIsRestored(v: Lifecycle, now: int)
    requires Chronicle(v, now) && v.revision <= MAX_SAFE
    ensures ValidHistory(v.history, now) && EndsAt(v)
  {
    hide Storable;
    forall i | 0 <= i < |v.history|
      ensures ValidRevision(v.history[i], now)
    {
      assert v.history[i].analyzedAt <= v.history[i].analyzedAt <= now;
    }
    forall i | 0 <= i < |v.history| - 1
      ensures Follows(v.history[i], v.history[i + 1])
    {
      assert v.history[i].analyzedAt <= v.history[i + 1].analyzedAt;
    }
  }

  lemma {:induction false} CountsBack(v: Lifecycle, now: int, n: nat)
    requires ValidHistory(v.history, now) && EndsAt(v) && n <= |v.history|
    ensures forall i :: |v.history| - n <= i < |v.history| ==> v.history[i].revision == v.revision - |v.history| + 1 + i
  {
    if n > 1 {
      CountsBack(v, now, n - 1);
      var i := |v.history| - n;
      assert Follows(v.history[i], v.history[i + 1]);
    }
  }

  lemma {:induction false} DatesAscend(h: seq<Revision>, now: int, n: nat)
    requires ValidHistory(h, now) && n <= |h|
    ensures forall i, j :: 0 <= i <= j < n ==> h[i].analyzedAt <= h[j].analyzedAt <= now
  {
    if n > 0 {
      DatesAscend(h, now, n - 1);
      assert ValidRevision(h[n - 1], now);
      if n > 1 {
        assert Follows(h[n - 2], h[n - 2 + 1]);
      }
    }
  }
}
