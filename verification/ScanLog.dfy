module ScanLog {
  // The baselines of a repository as a log.  Each accepted save reports the changes from the baseline
  // it replaces (src/reposcan/changes.go, src/reposcan/state.go); the theorems below say what anybody
  // who only reads these events knows about the baselines.

  import opened ScanTypes
  import opened Text
  import opened AdvisoryGroups
  import opened ScanReport
  import opened ScanValidate
  import opened ScanHistory
  import ScanSummary

  function Known(r: Report): set<string> {
    History(r).Keys
  }

  /** Reading the log: added keys come in, gone keys go out, in order. */
  ghost function Replay(keys: set<string>, log: seq<Change>): set<string> {
    if log == [] then keys
    else
      var before := Replay(keys, log[..|log| - 1]);
      var e := log[|log| - 1];
      if e.Added? then before + {e.key} else if e.Gone? then before - {e.key} else before
  }

  lemma {:induction false} ReplayJoins(keys: set<string>, a: seq<Change>, b: seq<Change>)
    ensures Replay(keys, a + b) == Replay(Replay(keys, a), b)
  {
    if b == [] {
      assert a + b == a;
    } else {
      var ab := a + b;
      assert ab[..|ab| - 1] == a + b[..|b| - 1];
      ReplayJoins(keys, a, b[..|b| - 1]);
    }
  }

  ghost predicate Adds(log: seq<Change>, key: string) {
    exists e :: e in log && e.Added? && e.key == key
  }

  ghost predicate Drops(log: seq<Change>, key: string) {
    exists e :: e in log && e.Gone? && e.key == key
  }

  lemma AddsMore(log: seq<Change>, key: string)
    requires log != []
    ensures
      var e := log[|log| - 1];
      Adds(log, key) <==> Adds(log[..|log| - 1], key) || (e.Added? && e.key == key)
    ensures
      var e := log[|log| - 1];
      Drops(log, key) <==> Drops(log[..|log| - 1], key) || (e.Gone? && e.key == key)
  {
  }

  /** When no key is both added and dropped, the order of the events does not matter. */
  lemma {:induction false} ReplayMembers(keys: set<string>, log: seq<Change>, key: string)
    requires !Adds(log, key) || !Drops(log, key)
    ensures key in Replay(keys, log) <==> Adds(log, key) || (key in keys && !Drops(log, key))
  {
    if log != [] {
      AddsMore(log, key);
      ReplayMembers(keys, log[..|log| - 1], key);
    }
  }

  lemma ListAdds(c: Comparison, previous: Report, current: Report, out: seq<Change>, key: string)
    requires IsChangeList(c, previous, current, out)
    ensures Adds(out, key) <==> key in current.records && key !in Known(previous)
    ensures Drops(out, key) <==> CanRemove(previous, current) && key in Known(previous) && key !in current.records
                                 && ShownGone(current, History(previous)[key])
  {
    if key in current.records && key !in Known(previous) {
      assert IsChange(c, previous, current, Added(key, current.records[key].source, current.records[key].id));
    }
    if CanRemove(previous, current) && key in Known(previous) && key !in current.records && ShownGone(current, History(previous)[key]) {
      assert IsChange(c, previous, current, Gone(key, History(previous)[key].source, History(previous)[key].id));
    }
  }

  ghost predicate ShownGone(current: Report, rec: SourceRecord) {
    !Unchecked(current, rec.source) && (rec.source.Nvd? ==> rec.id in Absences(current))
  }

  /** Every OSV record the baseline knows is still observed. */
  ghost predicate KeepsOsv(previous: Report, current: Report) {
    forall k :: k in History(previous) && History(previous)[k].source.Osv? ==> k in current.records
  }

  /** Replaying the changes of one refresh gives the keys of the next baseline exactly when the
      refresh brings no memories of its own, and is complete or still sees every OSV record.  (An
      incomplete refresh forgets OSV records without an event.) */
  lemma ReplayIsNextIff(c: Comparison, previous: Report, current: Report, out: seq<Change>)
    requires Comparable(previous) && Comparable(current) && ValidRetained(current) && ValidEnrichments(current)
    requires current.acquisition.AcquiredComplete? && previous.repository == current.repository
    requires IsChangeList(c, previous, current, out)
    ensures Replay(Known(previous), out) == Known(Retained(previous, current)) <==>
      current.retained.Keys <= Known(previous) && (current.refreshComplete || KeepsOsv(previous, current))
  {
    forall key
      ensures (key in Replay(Known(previous), out) <==> key in Known(Retained(previous, current))) <==> Tracked(previous, current, key)
    {
      KeyIsTracked(c, previous, current, out, key);
    }
    TrackedIff(previous, current);
    SameSetIff(Replay(Known(previous), out), Known(Retained(previous, current)), key => Tracked(previous, current, key));
  }

  lemma SameSetIff(a: set<string>, b: set<string>, p: string -> bool)
    requires forall k :: (k in a <==> k in b) <==> p(k)
    ensures a == b <==> forall k :: p(k)
  {
  }

  lemma KeyIsTracked(c: Comparison, previous: Report, current: Report, out: seq<Change>, key: string)
    requires Comparable(previous) && Comparable(current) && ValidRetained(current) && ValidEnrichments(current)
    requires current.acquisition.AcquiredComplete? && previous.repository == current.repository
    requires IsChangeList(c, previous, current, out)
    ensures (key in Replay(Known(previous), out) <==> key in Known(Retained(previous, current))) <==> Tracked(previous, current, key)
  {
    ReplayMember(c, previous, current, out, key);
    NextMember(previous, current, key);
    if key in Known(previous) {
      GoneUnlessKept(previous, current, key);
    } else if key in current.retained {
      assert ValidRetention(current, key, current.retained[key]);
    }
  }

  /** What a complete refresh does not keep, it shows to be gone. */
  lemma GoneUnlessKept(previous: Report, current: Report, key: string)
    requires Comparable(previous) && ValidEnrichments(current) && current.acquisition.AcquiredComplete?
    requires key in Known(previous)
    ensures
      var rec := History(previous)[key];
      && (rec.source.Osv? || rec.source.Nvd?)
      && (rec.source.Osv? ==> ShownGone(current, rec))
      && (rec.source.Nvd? ==> (ShownGone(current, rec) <==> rec.id in Absences(current)))
  {
  }

  predicate Tracked(previous: Report, current: Report, key: string) {
    && (key in current.retained ==> key in Known(previous))
    && (key in Known(previous) && History(previous)[key].source.Osv? && !current.refreshComplete ==> key in current.records)
  }

  lemma TrackedIff(previous: Report, current: Report)
    ensures (forall key :: Tracked(previous, current, key)) <==>
      current.retained.Keys <= Known(previous) && (current.refreshComplete || KeepsOsv(previous, current))
  {
    if forall key :: Tracked(previous, current, key) {
      forall key | key in current.retained
        ensures key in Known(previous)
      {
        assert Tracked(previous, current, key);
      }
      forall k | k in History(previous) && History(previous)[k].source.Osv? && !current.refreshComplete
        ensures k in current.records
      {
        assert Tracked(previous, current, k);
      }
    }
  }

  lemma ReplayMember(c: Comparison, previous: Report, current: Report, out: seq<Change>, key: string)
    requires IsChangeList(c, previous, current, out)
    ensures key in Replay(Known(previous), out) <==>
      || key in current.records
      || (key in Known(previous) && !(CanRemove(previous, current) && ShownGone(current, History(previous)[key])))
  {
    ListAdds(c, previous, current, out, key);
    ReplayMembers(Known(previous), out, key);
  }

  lemma NextMember(previous: Report, current: Report, key: string)
    requires previous.repository == current.repository
    ensures key in Known(Retained(previous, current)) <==>
      key in current.records || (key in Pooled(previous, current) && Keeps(current, key, Pooled(previous, current)[key]))
  {
  }

  // ---------- a chain of saves ----------

  ghost predicate Accepts(c: Comparison, same: (Profile, Profile) -> bool, base: State, s: State) {
    Replaces(c.rules, same, Saved(base), s)
  }

  /** The baseline after a save was tried. */
  ghost function Advance(c: Comparison, same: (Profile, Profile) -> bool, base: State, s: State): State {
    if Accepts(c, same, base, s) then WhatIsWritten(Saved(base), s) else base
  }

  ghost function Baseline(c: Comparison, same: (Profile, Profile) -> bool, first: State, tries: seq<State>): State {
    if tries == [] then first
    else Advance(c, same, Baseline(c, same, first, tries[..|tries| - 1]), tries[|tries| - 1])
  }

  /** The events that are acknowledged by saving: the changes from the replaced baseline.  A run that
      is not saved leaves its baseline to be compared with again, and acknowledges nothing. */
  ghost predicate Logs(c: Comparison, same: (Profile, Profile) -> bool, first: State, tries: seq<State>, logs: seq<seq<Change>>) {
    && |logs| == |tries|
    && forall i :: 0 <= i < |tries| ==> LogsOne(c, same, Baseline(c, same, first, tries[..i]), tries[i], logs[i])
  }

  ghost predicate LogsOne(c: Comparison, same: (Profile, Profile) -> bool, base: State, s: State, out: seq<Change>) {
    if Accepts(c, same, base, s) then IsChangeList(c, base.report, Advance(c, same, base, s).report, out) else out == []
  }

  ghost function Joined(logs: seq<seq<Change>>): seq<Change> {
    if logs == [] then [] else Joined(logs[..|logs| - 1]) + logs[|logs| - 1]
  }

  /** Equal profiles are profiles of one snapshot. */
  ghost predicate SameSnapshot(same: (Profile, Profile) -> bool) {
    forall p, q :: same(p, q) ==> p.repository == q.repository
  }

  lemma {:induction false} BaselineIsValid(c: Comparison, same: (Profile, Profile) -> bool, first: State, tries: seq<State>)
    requires ValidState(c.rules, first) && SameSnapshot(same)
    ensures ValidState(c.rules, Baseline(c, same, first, tries))
    ensures Baseline(c, same, first, tries).report.repository == first.report.repository
  {
    if tries != [] {
      BaselineIsValid(c, same, first, tries[..|tries| - 1]);
      var base := Baseline(c, same, first, tries[..|tries| - 1]);
      if Accepts(c, same, base, tries[|tries| - 1]) {
        WrittenIsValid(c.rules, same, Saved(base), tries[|tries| - 1]);
        AcceptedStep(c, same, base, tries[|tries| - 1]);
      }
    }
  }

  /** What the log needs of a report; valid states have it. */
  ghost predicate Loggable(r: Report) {
    Comparable(r) && ValidRetained(r) && ValidEnrichments(r) && r.acquisition.AcquiredComplete?
  }

  lemma ValidIsLoggable(rules: Rules, s: State)
    requires ValidState(rules, s)
    ensures Loggable(s.report) && s.report.repository == s.profile.repository
  {
    ValidStateIff(rules, s);
    ValidIsComparable(rules, s);
  }

  /** An accepted save writes the retained report over a baseline of the same snapshot. */
  lemma AcceptedStep(c: Comparison, same: (Profile, Profile) -> bool, base: State, s: State)
    requires SameSnapshot(same) && Accepts(c, same, base, s)
    ensures Loggable(base.report) && Loggable(s.report) && s.report.refreshComplete
    ensures base.report.repository == s.report.repository
    ensures Advance(c, same, base, s) == s.(report := Retained(base.report, s.report))
  {
    hide ValidState, Loggable;
    ValidIsLoggable(c.rules, base);
    ValidIsLoggable(c.rules, s);
  }

  /** What is saved remembers nothing that its baseline does not know. */
  ghost predicate AddsNoMemory(c: Comparison, same: (Profile, Profile) -> bool, base: State, s: State) {
    Accepts(c, same, base, s) ==> s.report.retained.Keys <= Known(base.report)
  }

  ghost predicate NoMemoryAdded(c: Comparison, same: (Profile, Profile) -> bool, first: State, tries: seq<State>) {
    forall i :: 0 <= i < |tries| ==> AddsNoMemory(c, same, Baseline(c, same, first, tries[..i]), tries[i])
  }

  /** One save: its events lead from the keys of the old baseline to those of the new, exactly when it
      adds no memory. */
  lemma StepReplays(c: Comparison, same: (Profile, Profile) -> bool, base: State, s: State, out: seq<Change>)
    requires SameSnapshot(same) && LogsOne(c, same, base, s, out)
    ensures Replay(Known(base.report), out) == Known(Advance(c, same, base, s).report) <==> AddsNoMemory(c, same, base, s)
  {
    hide Accepts, Comparable, ValidRetained, ValidEnrichments, IsChangeList;
    if Accepts(c, same, base, s) {
      AcceptedStep(c, same, base, s);
      SameChanges(c, base.report, s.report, Retained(base.report, s.report), out);
      ReplayIsNextIff(c, base.report, s.report, out);
    }
  }

  /** The changes do not depend on what the current report remembers. */
  lemma SameChanges(c: Comparison, previous: Report, current: Report, next: Report, out: seq<Change>)
    requires next == current.(retained := next.retained)
    ensures IsChangeList(c, previous, current, out) <==> IsChangeList(c, previous, next, out)
  {
    assert Absences(next) == Absences(current);
    forall e
      ensures IsChange(c, previous, current, e) <==> IsChange(c, previous, next, e)
    {
      if e.Gone? {
        assert Unchecked(current, e.source) <==> Unchecked(next, e.source);
      }
      assert Unchecked(current, Osv) <==> Unchecked(next, Osv);
    }
  }

  /** The events of a whole chain of saves, read from the first baseline on, give the keys of the
      last one, whatever was tried and refused in between, if no save adds memories of its own. */
  lemma {:induction false} LogTellsKeys(c: Comparison, same: (Profile, Profile) -> bool, first: State, tries: seq<State>, logs: seq<seq<Change>>)
    requires SameSnapshot(same) && NoMemoryAdded(c, same, first, tries)
    requires Logs(c, same, first, tries, logs)
    ensures Replay(Known(first.report), Joined(logs)) == Known(Baseline(c, same, first, tries).report)
  {
    if tries != [] {
      hide LogsOne, Accepts, Advance;
      var n := |tries| - 1;
      LogsPrefix(c, same, first, tries, logs);
      MemoryPrefix(c, same, first, tries, n);
      LogTellsKeys(c, same, first, tries[..n], logs[..n]);
      StepReplays(c, same, Baseline(c, same, first, tries[..n]), tries[n], logs[n]);
      ReplayJoins(Known(first.report), Joined(logs[..n]), logs[n]);
    }
  }

  lemma MemoryPrefix(c: Comparison, same: (Profile, Profile) -> bool, first: State, tries: seq<State>, n: nat)
    requires NoMemoryAdded(c, same, first, tries) && n <= |tries|
    ensures NoMemoryAdded(c, same, first, tries[..n])
  {
    hide AddsNoMemory, Baseline;
    forall i | 0 <= i < n
      ensures AddsNoMemory(c, same, Baseline(c, same, first, tries[..n][..i]), tries[..n][i])
    {
      assert tries[..n][..i] == tries[..i];
    }
  }

  /** The log tells the keys of the n-th baseline. */
  ghost predicate Tells(c: Comparison, same: (Profile, Profile) -> bool, first: State, tries: seq<State>, logs: seq<seq<Change>>, n: nat)
    requires n <= |tries| == |logs|
  {
    Replay(Known(first.report), Joined(logs[..n])) == Known(Baseline(c, same, first, tries[..n]).report)
  }

  /** Only then: the log tells the keys of every baseline of the chain exactly when no save adds memories. */
  lemma LogTellsKeysIff(c: Comparison, same: (Profile, Profile) -> bool, first: State, tries: seq<State>, logs: seq<seq<Change>>)
    requires SameSnapshot(same) && Logs(c, same, first, tries, logs)
    ensures (forall n :: 0 <= n <= |tries| ==> Tells(c, same, first, tries, logs, n)) <==> NoMemoryAdded(c, same, first, tries)
  {
    hide LogsOne, Accepts, Advance, Baseline, AddsNoMemory;
    if NoMemoryAdded(c, same, first, tries) {
      forall n | 0 <= n <= |tries|
        ensures Tells(c, same, first, tries, logs, n)
      {
        MemoryPrefix(c, same, first, tries, n);
        LogsUpTo(c, same, first, tries, logs, n);
        LogTellsKeys(c, same, first, tries[..n], logs[..n]);
      }
    }
    if forall n :: 0 <= n <= |tries| ==> Tells(c, same, first, tries, logs, n) {
      forall i | 0 <= i < |tries|
        ensures AddsNoMemory(c, same, Baseline(c, same, first, tries[..i]), tries[i])
      {
        ToldAddsNoMemory(c, same, first, tries, logs, i);
      }
    }
  }

  lemma ToldAddsNoMemory(c: Comparison, same: (Profile, Profile) -> bool, first: State, tries: seq<State>, logs: seq<seq<Change>>, i: nat)
    requires SameSnapshot(same) && Logs(c, same, first, tries, logs) && i < |tries|
    requires Tells(c, same, first, tries, logs, i) && Tells(c, same, first, tries, logs, i + 1)
    ensures AddsNoMemory(c, same, Baseline(c, same, first, tries[..i]), tries[i])
  {
    hide LogsOne, Accepts, Advance, AddsNoMemory;
    assert tries[..i + 1][..i] == tries[..i] && logs[..i + 1][..i] == logs[..i];
    StepReplays(c, same, Baseline(c, same, first, tries[..i]), tries[i], logs[i]);
    ReplayJoins(Known(first.report), Joined(logs[..i]), logs[i]);
  }

  lemma LogsPrefix(c: Comparison, same: (Profile, Profile) -> bool, first: State, tries: seq<State>, logs: seq<seq<Change>>)
    requires tries != [] && Logs(c, same, first, tries, logs)
    ensures Logs(c, same, first, tries[..|tries| - 1], logs[..|tries| - 1])
  {
    LogsUpTo(c, same, first, tries, logs, |tries| - 1);
  }

  lemma LogsUpTo(c: Comparison, same: (Profile, Profile) -> bool, first: State, tries: seq<State>, logs: seq<seq<Change>>, n: nat)
    requires Logs(c, same, first, tries, logs) && n <= |tries|
    ensures Logs(c, same, first, tries[..n], logs[..n])
  {
    hide LogsOne, Baseline;
    forall i | 0 <= i < n
      ensures LogsOne(c, same, Baseline(c, same, first, tries[..n][..i]), tries[..n][i], logs[..n][i])
    {
      assert tries[..n][..i] == tries[..i];
    }
  }

  // ---------- the monitor ----------

  /** What the monitor saves: each run's own report, which remembers nothing, with the evidence its
      baseline retains. */
  ghost predicate Monitors(c: Comparison, same: (Profile, Profile) -> bool, first: State, tries: seq<State>, runs: seq<Report>) {
    && |runs| == |tries|
    && forall i :: 0 <= i < |tries| ==> IsRefresh(Baseline(c, same, first, tries[..i]), tries[i], runs[i])
  }

  ghost predicate IsRefresh(base: State, s: State, run: Report) {
    run.retained == map[] && s.report == Retained(base.report, run)
  }

  /** So the monitor's log is exact: it tells the keys, adds only what is not there and removes only
      what is. */
  lemma MonitorLogIsExact(c: Comparison, same: (Profile, Profile) -> bool, first: State, tries: seq<State>, runs: seq<Report>, logs: seq<seq<Change>>)
    requires SameSnapshot(same) && Monitors(c, same, first, tries, runs) && Logs(c, same, first, tries, logs)
    ensures Replay(Known(first.report), Joined(logs)) == Known(Baseline(c, same, first, tries).report)
    ensures Faithful(Known(first.report), Joined(logs))
  {
    hide Logs, Accepts, Baseline;
    forall i | 0 <= i < |tries|
      ensures AddsNoMemory(c, same, Baseline(c, same, first, tries[..i]), tries[i])
    {
      RefreshAddsNoMemory(Baseline(c, same, first, tries[..i]), tries[i], runs[i]);
    }
    LogTellsKeys(c, same, first, tries, logs);
    LogIsFaithful(c, same, first, tries, logs);
  }

  lemma RefreshAddsNoMemory(base: State, s: State, run: Report)
    requires IsRefresh(base, s, run)
    ensures s.report.retained.Keys <= Known(base.report)
  {
  }

  /** And what the monitor saves is what it compared: saving retains nothing further. */
  lemma MonitorSavesItsReport(c: Comparison, same: (Profile, Profile) -> bool, base: State, s: State, run: Report)
    requires IsRefresh(base, s, run) && Accepts(c, same, base, s)
    ensures Advance(c, same, base, s) == s
  {
    hide Accepts, Retained;
    RetainIdempotent(base.report, run);
  }

  // ---------- NVD evidence ----------

  /** The refresh looked for the CVE in NVD and was told that it is not there. */
  predicate SaysNotFound(r: Report, id: string) {
    r.refreshComplete && exists i :: 0 <= i < |r.enrichment| && r.enrichment[i] == Enrichment(Nvd, id, NotFound, "")
  }

  /** A save that is accepted and says that the CVE is not found. */
  ghost predicate Forgets(c: Comparison, same: (Profile, Profile) -> bool, first: State, tries: seq<State>, i: nat, id: string)
    requires i < |tries|
  {
    Accepts(c, same, Baseline(c, same, first, tries[..i]), tries[i]) && SaysNotFound(tries[i].report, id)
  }

  /** An NVD record leaves the baselines only through an accepted refresh that says it is not found:
      failed, disabled and dropped lookups never lose it. */
  lemma {:induction false} LostOnlyWhenNotFound(c: Comparison, same: (Profile, Profile) -> bool, first: State, tries: seq<State>, id: string)
    requires SameSnapshot(same) && NvdKey(id) in Known(first.report)
    requires NvdKey(id) !in Known(Baseline(c, same, first, tries).report)
    ensures exists i :: 0 <= i < |tries| && Forgets(c, same, first, tries, i, id)
  {
    hide Accepts, SaysNotFound, Retained;
    if tries != [] {
      var n := |tries| - 1;
      var base := Baseline(c, same, first, tries[..n]);
      if NvdKey(id) in Known(base.report) {
        LostInStep(c, same, base, tries[n], id);
        assert Forgets(c, same, first, tries, n, id);
      } else {
        LostOnlyWhenNotFound(c, same, first, tries[..n], id);
        var i :| 0 <= i < n && Forgets(c, same, first, tries[..n], i, id);
        assert tries[..n][..i] == tries[..i];
        assert Forgets(c, same, first, tries, i, id);
      }
    }
  }

  lemma LostInStep(c: Comparison, same: (Profile, Profile) -> bool, base: State, s: State, id: string)
    requires SameSnapshot(same)
    requires NvdKey(id) in Known(base.report) && NvdKey(id) !in Known(Advance(c, same, base, s).report)
    ensures Accepts(c, same, base, s) && SaysNotFound(s.report, id)
  {
    hide Accepts, ValidRetained, ValidEnrichments, Comparable;
    assert Accepts(c, same, base, s);
    AcceptedStep(c, same, base, s);
    NvdKeyIsNvd(base.report, id);
    NextMember(base.report, s.report, NvdKey(id));
    assert id in Absences(s.report);
  }

  lemma NvdKeyIsNvd(r: Report, id: string)
    requires Comparable(r) && NvdKey(id) in Known(r)
    ensures History(r)[NvdKey(id)].source.Nvd? && History(r)[NvdKey(id)].id == id
  {
    var rec := History(r)[NvdKey(id)];
    assert ValidRecord(NvdKey(id), rec) by {
      assert NvdKey(id) in r.records || NvdKey(id) in r.retained;
    }
    KeysApart(rec.id, id);
  }

  // ---------- every key comes and goes in turn ----------

  /** Nothing is added that is there, and nothing goes that is not. */
  ghost predicate Faithful(keys: set<string>, log: seq<Change>) {
    log == [] ||
    var before := log[..|log| - 1];
    var e := log[|log| - 1];
    && Faithful(keys, before)
    && (e.Added? ==> e.key !in Replay(keys, before))
    && (e.Gone? ==> e.key in Replay(keys, before))
  }

  lemma {:induction false} FaithfulJoins(keys: set<string>, a: seq<Change>, b: seq<Change>)
    requires Faithful(keys, a) && Faithful(Replay(keys, a), b)
    ensures Faithful(keys, a + b)
  {
    if b == [] {
      assert a + b == a;
    } else {
      var ab := a + b;
      assert ab[..|ab| - 1] == a + b[..|b| - 1];
      FaithfulJoins(keys, a, b[..|b| - 1]);
      ReplayJoins(keys, a, b[..|b| - 1]);
    }
  }

  /** The first n events of a change list do not touch the key of a later one. */
  lemma UntouchedSoFar(c: Comparison, previous: Report, current: Report, out: seq<Change>, n: nat)
    requires IsChangeList(c, previous, current, out) && n < |out| && !out[n].QueryChanged?
    ensures out[n].key in Replay(Known(previous), out[..n]) <==> out[n].key in Known(previous)
  {
    var key := out[n].key;
    forall e | e in out[..n]
      ensures e.Key() != key
    {
      var i :| 0 <= i < n && out[i] == e;
      LessIrreflexive(key);
    }
    ReplayMembers(Known(previous), out[..n], key);
  }

  lemma {:induction false} ListIsFaithful(c: Comparison, previous: Report, current: Report, out: seq<Change>, n: nat)
    requires IsChangeList(c, previous, current, out) && n <= |out|
    ensures Faithful(Known(previous), out[..n])
  {
    if n > 0 {
      ListIsFaithful(c, previous, current, out, n - 1);
      assert out[..n][..n - 1] == out[..n - 1];
      var e := out[n - 1];
      assert e in out;
      if !e.QueryChanged? {
        UntouchedSoFar(c, previous, current, out, n - 1);
      }
    }
  }

  lemma {:induction false} LogIsFaithful(c: Comparison, same: (Profile, Profile) -> bool, first: State, tries: seq<State>, logs: seq<seq<Change>>)
    requires SameSnapshot(same) && NoMemoryAdded(c, same, first, tries)
    requires Logs(c, same, first, tries, logs)
    ensures Faithful(Known(first.report), Joined(logs))
  {
    if tries != [] {
      hide Accepts, IsChangeList;
      var n := |tries| - 1;
      LogsPrefix(c, same, first, tries, logs);
      MemoryPrefix(c, same, first, tries, n);
      LogIsFaithful(c, same, first, tries[..n], logs[..n]);
      LogTellsKeys(c, same, first, tries[..n], logs[..n]);
      var base := Baseline(c, same, first, tries[..n]);
      if Accepts(c, same, base, tries[n]) {
        var out := logs[n];
        ListIsFaithful(c, base.report, Advance(c, same, base, tries[n]).report, out, |out|);
        assert out[..|out|] == out;
      }
      FaithfulJoins(Known(first.report), Joined(logs[..n]), logs[n]);
    }
  }

  /** The comings (true) and goings (false) of one key. */
  ghost function Moves(log: seq<Change>, key: string): seq<bool> {
    if log == [] then []
    else
      var before := Moves(log[..|log| - 1], key);
      var e := log[|log| - 1];
      if e.Added? && e.key == key then before + [true]
      else if e.Gone? && e.key == key then before + [false]
      else before
  }

  lemma {:induction false} MovesAlternate(keys: set<string>, log: seq<Change>, key: string)
    requires Faithful(keys, log)
    ensures forall i :: 0 <= i < |Moves(log, key)| ==> (Moves(log, key)[i] <==> ((key in keys) <==> i % 2 == 1))
    ensures key in Replay(keys, log) <==> ((key in keys) <==> |Moves(log, key)| % 2 == 0)
  {
    if log != [] {
      MovesAlternate(keys, log[..|log| - 1], key);
    }
  }

  /** Over any chain of saves, the added and gone events of a key alternate, the first one telling
      whether the first baseline knew it. */
  lemma EventsAlternate(c: Comparison, same: (Profile, Profile) -> bool, first: State, tries: seq<State>, logs: seq<seq<Change>>, key: string)
    requires SameSnapshot(same) && NoMemoryAdded(c, same, first, tries)
    requires Logs(c, same, first, tries, logs)
    ensures
      var moves := Moves(Joined(logs), key);
      && (moves != [] ==> (moves[0] <==> key !in Known(first.report)))
      && forall i :: 0 <= i < |moves| - 1 ==> moves[i + 1] == !moves[i]
  {
    hide Logs, NoMemoryAdded;
    LogIsFaithful(c, same, first, tries, logs);
    MovesAlternate(Known(first.report), Joined(logs), key);
  }

  // ---------- two logs that do not tell ----------

  const SNAPSHOT := Repository("r1", "https://example.org/r1", "main", "c0ffee")
  const NOTHING := Profile(SNAPSHOT, [], [], [])
  const OSV_ID := "GHSA-1"
  const OSV_RECORD := SourceRecord(Osv, OSV_ID, [], false, Decoded(Advisory(OSV_ID, [], "", []), ""))
  const NVD_ID := "CVE-2024-0001"
  const NVD_RECORD := SourceRecord(Nvd, NVD_ID, [], false, Identified(NVD_ID, ""))

  /** A report about a repository without components. */
  function Bare(records: Records, retained: Records, complete: bool): Report {
    Report(SNAPSHOT, 1, 2, AcquiredComplete, if complete then StatusComplete else StatusIncomplete, complete,
           [], [], records, retained, [], [], [], [], UNKNOWN_IMPACT)
  }

  function BareState(retained: Records): State {
    State(SCHEMA_VERSION, NOTHING, Bare(map[], retained, true))
  }

  /** An incomplete refresh that sees nothing drops an OSV record, and no event says so. */
  lemma IncompleteDropsSilently(c: Comparison, out: seq<Change>)
    requires IsChangeList(c, Bare(map[OsvKey(OSV_ID) := OSV_RECORD], map[], true), Bare(map[], map[], false), out)
    ensures out == []
    ensures OsvKey(OSV_ID) in Known(Bare(map[OsvKey(OSV_ID) := OSV_RECORD], map[], true))
    ensures Known(Retained(Bare(map[OsvKey(OSV_ID) := OSV_RECORD], map[], true), Bare(map[], map[], false))) == {}
  {
    forall e
      ensures e !in out
    {
      NothingHappens(c, e);
    }
    if out != [] {
      HasEvent(out);
    }
  }

  lemma HasEvent(out: seq<Change>)
    requires out != []
    ensures exists e :: e in out
  {
    assert out[0] in out;
  }

  lemma NothingHappens(c: Comparison, e: Change)
    ensures !IsChange(c, Bare(map[OsvKey(OSV_ID) := OSV_RECORD], map[], true), Bare(map[], map[], false), e)
  {
  }

  /** A complete report may bring a memory of its own.  Saving accepts it, and the log does not tell. */
  lemma MemoryIsAccepted(c: Comparison, same: (Profile, Profile) -> bool)
    requires same(NOTHING, NOTHING)
    ensures Accepts(c, same, BareState(map[]), BareState(map[NvdKey(NVD_ID) := NVD_RECORD]))
    ensures !AddsNoMemory(c, same, BareState(map[]), BareState(map[NvdKey(NVD_ID) := NVD_RECORD]))
  {
    BareIsValid(c.rules, map[]);
    BareIsValid(c.rules, map[NvdKey(NVD_ID) := NVD_RECORD]);
    assert NvdKey(NVD_ID) in map[NvdKey(NVD_ID) := NVD_RECORD].Keys;
  }

  lemma BareIsValid(rules: Rules, retained: Records)
    requires retained == map[] || retained == map[NvdKey(NVD_ID) := NVD_RECORD]
    ensures ValidState(rules, BareState(retained))
  {
    hide ValidHeader, ValidCoverage, ValidRetained, ValidEnrichments, IsGrouping, ValidClosing;
    var r := BareState(retained).report;
    BareIsCovered(rules, retained);
    BareIsClosed(rules, retained);
    BareIsEnriched(retained);
    MemoryIsValid(retained);
    assert ValidHeader(BareState(retained)) by {
      SnapshotIsNamed(retained);
    }
    assert IsGrouping(r.records, r.groups) by {
      NoGroups();
    }
    ValidStateIff(rules, BareState(retained));
  }

  lemma SnapshotIsNamed(retained: Records)
    ensures ValidHeader(BareState(retained))
  {
  }

  lemma NoGroups()
    ensures IsGrouping(map[], [])
  {
  }

  lemma BareIsCovered(rules: Rules, retained: Records)
    ensures ValidCoverage(rules, BareState(retained))
  {
  }

  lemma BareIsEnriched(retained: Records)
    ensures ValidEnrichments(BareState(retained).report)
  {
    assert ExpectedCVEs(map[]) == {};
  }

  lemma BareIsClosed(rules: Rules, retained: Records)
    ensures ValidClosing(rules, BareState(retained))
  {
    assert ScanSummary.Named(rules.canonical, [], [], [], []) == {};
  }

  lemma MemoryIsValid(retained: Records)
    requires retained == map[] || retained == map[NvdKey(NVD_ID) := NVD_RECORD]
    ensures ValidRetained(BareState(retained).report)
  {
    assert ValidText(NVD_ID) && IsCVE(NVD_ID);
  }
}
