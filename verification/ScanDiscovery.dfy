/** Finding the advisories of a scan: the package loop of `Run` and `matchAdvisory`
    (src/reposcan/run.go), against any behaviour of the OSV client and any cancellation. */
module ScanDiscovery {
  import opened ScanTypes
  import opened Text
  import opened ScanReport
  import opened ScanValidate

  datatype Fetch = Fetched(raw: Raw) | FetchFailed(text: string)
  datatype Lookup = LookupFound(raw: Raw) | LookupMissing | LookupFailed(text: string)
  datatype Answer = Answer(query: PackageVersion, ids: seq<string>, complete: bool, error: string)

  /** Everything outside the program that a run depends on.  Each advisory and each CVE is asked for
      at most once, so what the clients do is a function of the identifier; a cancellation during a
      call is one of its failures. */
  datatype World = World(
    osv: bool,
    nvd: bool,
    missingContext: bool,
    negativeInterval: bool,
    reached: bool,                // not cancelled before the batch query
    answers: seq<Answer>,         // what the batch query returns
    cancelledAt: nat -> bool,     // cancelled when a package is looked at
    advisory: string -> Fetch,
    lookup: string -> Lookup,
    cancelledEnd: bool,
    startedAt: int,
    finishedAt: int)

  /** One error after the other: neither is lost. */
  function JoinError(a: string, b: string): (r: string)
    ensures b != "" ==> r != ""
    ensures a <= r && |r| == |a| + |b| + (if a == "" then 0 else 2) && r[|r| - |b|..] == b
  {
    if a == "" then b else a + "; " + b
  }

  // ---------- advisories ----------

  datatype Detail = Loaded(advisory: Advisory) | Missing(text: string)

  /** What asking for an advisory comes to. */
  function DetailOf(w: World, id: string): Detail {
    match w.advisory(id)
    case FetchFailed(text) => Missing(text)
    case Fetched(raw) =>
      if !raw.Decoded? then Missing("decode OSV advisory")
      else if raw.advisory.id != id || !ValidText(id) then Missing("OSV advisory identity mismatch")
      else Loaded(raw.advisory)
  }

  /** The advisories asked for so far: the loaded ones with their records, and the failed ones. */
  datatype Book = Book(records: Records, details: map<string, Advisory>, failed: map<string, string>) {
    ghost predicate Backed(id: string) {
      id in details ==>
        && OsvKey(id) in records
        && records[OsvKey(id)].source.Osv?
        && records[OsvKey(id)].id == id
        && records[OsvKey(id)].raw.Decoded?
        && records[OsvKey(id)].raw.advisory == details[id]
        && ValidRecord(OsvKey(id), records[OsvKey(id)])
    }

    ghost predicate Ok() {
      && details.Keys !! failed.Keys
      && (forall id {:trigger Backed(id)} :: Backed(id))
      && forall k :: k in records ==> exists id :: id in details && k == OsvKey(id)
    }

    ghost predicate Settled(id: string) {
      !ValidText(id) || id in details || id in failed
    }

    /** next knows more, and nothing this book knows has changed there. */
    ghost predicate Within(next: Book) {
      && details.Keys <= next.details.Keys
      && failed.Keys <= next.failed.Keys
      && (forall k :: k in records ==> k in next.records && next.records[k] == records[k])
    }
  }

  lemma BackedKeys(book: Book, id: string)
    requires book.Ok()
    ensures OsvKey(id) in book.records <==> id in book.details
  {
    if OsvKey(id) in book.records {
      var j :| j in book.details && OsvKey(id) == OsvKey(j);
      KeysApart(id, j);
    }
    assert book.Backed(id);
  }

  /** Records of identifiers settled earlier are the same in any later book. */
  lemma SettledStays(book: Book, next: Book, id: string)
    requires book.Ok() && next.Ok() && book.Within(next) && (id in book.details || id in book.failed || !ValidText(id))
    ensures OsvKey(id) in book.records <==> OsvKey(id) in next.records
    ensures OsvKey(id) in book.records ==> next.records[OsvKey(id)] == book.records[OsvKey(id)]
  {
    BackedKeys(book, id);
    BackedKeys(next, id);
    assert next.Backed(id);
  }

  /** The record of an advisory: the document as it was served, with its aliases and its withdrawal. */
  ghost function OsvRecord(w: World, id: string): SourceRecord
    requires DetailOf(w, id).Loaded?
  {
    var raw := w.advisory(id).raw;
    SourceRecord(Osv, id, Uniq(raw.advisory.aliases), raw.advisory.withdrawn != "", raw)
  }

  /** What the book has of an advisory is what was served. */
  ghost predicate Shelved(w: World, book: Book, id: string) {
    id in book.details ==>
      && DetailOf(w, id) == Loaded(book.details[id])
      && OsvKey(id) in book.records && book.records[OsvKey(id)] == OsvRecord(w, id)
  }

  /** The book says what asking says. */
  ghost predicate Agrees(w: World, book: Book) {
    && (forall id {:trigger Shelved(w, book, id)} :: Shelved(w, book, id))
    && (forall id :: id in book.failed ==> DetailOf(w, id) == Missing(book.failed[id]))
  }

  /** The usable advisories among some identifiers. */
  ghost function LoadedAmong(w: World, ids: seq<string>): set<string> {
    set id | id in ids && ValidText(id) && DetailOf(w, id).Loaded?
  }

  method Load(w: World, id: string, book: Book) returns (next: Book, detail: Detail)
    requires book.Ok() && ValidText(id) && Agrees(w, book)
    ensures next.Ok() && book.Within(next) && Agrees(w, next)
    ensures detail == DetailOf(w, id)
    ensures next.details.Keys == book.details.Keys + if DetailOf(w, id).Loaded? then {id} else {}
    ensures detail.Loaded? ==> id in next.details && next.details[id] == detail.advisory
    ensures detail.Missing? ==> id in next.failed
  {
    next := book;
    assert Shelved(w, book, id);
    if id in book.details {
      return next, Loaded(book.details[id]);
    }
    if id in book.failed {
      return next, Missing(book.failed[id]);
    }
    match DetailOf(w, id) {
      case Missing(text) =>
        next := book.(failed := book.failed[id := text]);
        FailedOk(book, id, text);
        FailedAgrees(w, book, id, text);
        detail := Missing(text);
      case Loaded(a) =>
        var raw := w.advisory(id).raw;
        var aliases := Unique(a.aliases);
        var rec := SourceRecord(Osv, id, aliases, a.withdrawn != "", raw);
        next := book.(details := book.details[id := a], records := book.records[OsvKey(id) := rec]);
        LoadedOk(book, id, rec);
        LoadedAgrees(w, book, id);
        detail := Loaded(a);
    }
  }

  lemma FailedOk(book: Book, id: string, text: string)
    requires book.Ok() && id !in book.details
    ensures
      var next := book.(failed := book.failed[id := text]);
      next.Ok() && book.Within(next)
  {
    var next := book.(failed := book.failed[id := text]);
    forall j
      ensures next.Backed(j)
    {
      assert book.Backed(j);
    }
  }

  lemma FailedAgrees(w: World, book: Book, id: string, text: string)
    requires Agrees(w, book) && DetailOf(w, id) == Missing(text)
    ensures Agrees(w, book.(failed := book.failed[id := text]))
  {
    hide DetailOf;
    var next := book.(failed := book.failed[id := text]);
    forall j
      ensures Shelved(w, next, j)
    {
      assert Shelved(w, book, j);
    }
  }

  lemma LoadedAgrees(w: World, book: Book, id: string)
    requires Agrees(w, book) && DetailOf(w, id).Loaded? && id !in book.failed
    ensures
      var rec := OsvRecord(w, id);
      Agrees(w, book.(details := book.details[id := DetailOf(w, id).advisory], records := book.records[OsvKey(id) := rec]))
  {
    hide DetailOf, OsvRecord;
    var next := book.(details := book.details[id := DetailOf(w, id).advisory], records := book.records[OsvKey(id) := OsvRecord(w, id)]);
    forall j
      ensures Shelved(w, next, j)
    {
      assert Shelved(w, book, j);
      KeysApart(id, j);
    }
  }

  lemma LoadedOk(book: Book, id: string, rec: SourceRecord)
    requires book.Ok() && id !in book.details && id !in book.failed && ValidText(id)
    requires rec.source.Osv? && rec.id == id && rec.raw.Decoded? && rec.raw.advisory.id == id
    requires rec.aliases == Uniq(rec.raw.advisory.aliases) && rec.withdrawn == (rec.raw.advisory.withdrawn != "")
    ensures
      var next := book.(details := book.details[id := rec.raw.advisory], records := book.records[OsvKey(id) := rec]);
      next.Ok() && book.Within(next)
  {
    var next := book.(details := book.details[id := rec.raw.advisory], records := book.records[OsvKey(id) := rec]);
    BackedKeys(book, id);
    forall j
      ensures next.Backed(j)
    {
      assert book.Backed(j);
      KeysApart(id, j);
    }
    forall k | k in next.records
      ensures exists j :: j in next.details && k == OsvKey(j)
    {
      if k == OsvKey(id) {
        assert id in next.details;
      } else {
        var j :| j in book.details && k == OsvKey(j);
        assert j in next.details;
      }
    }
  }

  // ---------- one package ----------

  ghost predicate AllSettled(book: Book, ids: seq<string>) {
    forall i :: 0 <= i < |ids| ==> book.Settled(ids[i])
  }

  lemma {:induction false} MatchesStay(book: Book, next: Book, query: PackageVersion, ids: seq<string>)
    requires book.Ok() && next.Ok() && book.Within(next) && AllSettled(book, ids)
    ensures ExpectedMatches(next.records, query, ids) == ExpectedMatches(book.records, query, ids)
    ensures AllSettled(next, ids)
  {
    if ids != [] {
      var last := |ids| - 1;
      assert ids[last] == ids[..|ids|][last];
      MatchesStay(book, next, query, ids[..last]);
      SettledStays(book, next, ids[last]);
    }
  }

  /** How far the result of one package is, after the first n of its advisories were read: an error
      is recorded exactly when it is incomplete, and nothing missing leaves it complete. */
  ghost predicate Read(book: Book, q: PackageResult, n: nat)
    requires n <= |q.ids|
  {
    && q.runtimeImpact == UNKNOWN_IMPACT && q.workspace == UNAVAILABLE && q.dependencyPath == UNAVAILABLE
    && (q.complete <==> q.error == "")
    && AllSettled(book, q.ids[..n])
    && (q.complete ==> forall i :: 0 <= i < n ==> q.ids[i] in book.details)
    && q.matches == ExpectedMatches(book.records, q.query, q.ids[..n])
    && (forall i :: 0 <= i < |q.matches| && q.matches[i].reason != "" ==> !q.complete)
    && q.outcome == if HasAffected(q.matches) then AffectedVersionMatch else Unknown
  }

  lemma ReadSkips(book: Book, q: PackageResult, n: nat)
    requires n < |q.ids| && Read(book, q, n) && book.Ok()
    requires !ValidText(q.ids[n]) && !q.complete
    ensures Read(book, q, n + 1)
  {
    BackedKeys(book, q.ids[n]);
    NotLoaded(book, q.ids[n]);
    assert q.ids[..n + 1][..n] == q.ids[..n];
  }

  lemma NotLoaded(book: Book, id: string)
    requires book.Ok() && !ValidText(id)
    ensures id !in book.details
  {
    assert book.Backed(id);
  }

  lemma ReadFails(book: Book, next: Book, q: PackageResult, n: nat, error: string)
    requires n < |q.ids| && Read(book, q, n) && book.Ok() && next.Ok() && book.Within(next)
    requires q.ids[n] in next.failed && error != ""
    ensures Read(next, q.(complete := false, error := error), n + 1)
  {
    MatchesStay(book, next, q.query, q.ids[..n]);
    BackedKeys(next, q.ids[n]);
    assert q.ids[..n + 1][..n] == q.ids[..n];
  }

  lemma HasAffectedMore(matches: seq<Match>, m: Match)
    ensures HasAffected(matches + [m]) <==> HasAffected(matches) || m.outcome == AffectedVersionMatch
  {
  }

  /** The result with one more piece of evidence. */
  ghost function WithMatch(q: PackageResult, m: Match, error: string): PackageResult {
    var noted := if m.reason != "" then q.(complete := false, error := error) else q;
    noted.(matches := q.matches + [m],
           outcome := if m.outcome == AffectedVersionMatch then AffectedVersionMatch else q.outcome)
  }

  lemma ReadMatches(book: Book, next: Book, q: PackageResult, n: nat, error: string)
    requires n < |q.ids| && Read(book, q, n) && book.Ok() && next.Ok() && book.Within(next)
    requires q.ids[n] in next.details && error != ""
    ensures Read(next, WithMatch(q, MatchOf(q.query, next.details[q.ids[n]]), error), n + 1)
  {
    hide MatchOf, HasAffected, ValidText;
    MatchesStay(book, next, q.query, q.ids[..n]);
    assert next.Backed(q.ids[n]);
    assert q.ids[..n + 1][..n] == q.ids[..n];
    HasAffectedMore(q.matches, MatchOf(q.query, next.details[q.ids[n]]));
  }

  /** An advisory that was read and is about the queried package. */
  ghost predicate Clean(w: World, query: PackageVersion, id: string) {
    ValidText(id) && DetailOf(w, id).Loaded? && MatchOf(query, DetailOf(w, id).advisory).reason == ""
  }

  ghost predicate AllClean(w: World, query: PackageVersion, ids: seq<string>) {
    forall i :: 0 <= i < |ids| ==> Clean(w, query, ids[i])
  }

  lemma CleanMore(w: World, query: PackageVersion, ids: seq<string>, n: nat)
    requires n < |ids|
    ensures AllClean(w, query, ids[..n + 1]) <==> AllClean(w, query, ids[..n]) && Clean(w, query, ids[n])
    ensures LoadedAmong(w, ids[..n + 1]) ==
            LoadedAmong(w, ids[..n]) + if ValidText(ids[n]) && DetailOf(w, ids[n]).Loaded? then {ids[n]} else {}
  {
    assert ids[..n + 1] == ids[..n] + [ids[n]];
    assert forall i :: 0 <= i < n ==> ids[..n + 1][i] == ids[..n][i];
    assert ids[..n + 1][n] == ids[n];
  }

  /** What an advisory adds to the error of a package, if anything: why it could not be had, or that it is
      about something else. */
  ghost function Complaint(w: World, query: PackageVersion, id: string): string {
    if !ValidText(id) then ""
    else
      match DetailOf(w, id)
      case Missing(text) => "OSV " + id + ": " + text
      case Loaded(a) =>
        var reason := MatchOf(query, a).reason;
        if reason == "" then "" else "OSV " + id + " for " + query.ecosystem + " " + query.name + "@" + query.version + ": " + reason
  }

  /** An error with all complaints about some advisories behind it, in order. */
  ghost function Noted(w: World, query: PackageVersion, error: string, ids: seq<string>): string {
    if ids == [] then error
    else
      var before, c := Noted(w, query, error, ids[..|ids| - 1]), Complaint(w, query, ids[|ids| - 1]);
      if c == "" then before else JoinError(before, c)
  }

  lemma NotedMore(w: World, query: PackageVersion, error: string, ids: seq<string>, n: nat)
    requires n < |ids|
    ensures
      var before, c := Noted(w, query, error, ids[..n]), Complaint(w, query, ids[n]);
      Noted(w, query, error, ids[..n + 1]) == if c == "" then before else JoinError(before, c)
  {
    hide Complaint;
    assert ids[..n + 1][..n] == ids[..n] && ids[..n + 1][n] == ids[n];
  }

  /** Reads the next advisory of a package. */
  method ReadOne(w: World, start: PackageResult, n: nat, book: Book, warnings: seq<string>)
    returns (q: PackageResult, next: Book, noted: seq<string>)
    requires n < |start.ids| && book.Ok() && Agrees(w, book) && Read(book, start, n)
    requires start.complete ==> ValidText(start.ids[n])
    ensures next.Ok() && book.Within(next) && Agrees(w, next)
    ensures next.details.Keys == book.details.Keys + if ValidText(start.ids[n]) && DetailOf(w, start.ids[n]).Loaded? then {start.ids[n]} else {}
    ensures q.complete <==> start.complete && Clean(w, start.query, start.ids[n])
    ensures
      var c := Complaint(w, start.query, start.ids[n]);
      q.error == if c == "" then start.error else JoinError(start.error, c)
    ensures q.ids == start.ids && q.query == start.query && q.origins == start.origins && Read(next, q, n + 1)
    ensures warnings <= noted
  {
    hide Agrees, DetailOf, Read;
    q, next, noted := start, book, warnings;
    var id := q.ids[n];
    if !ValidText(id) {
      ReadSkips(book, q, n);
      return;
    }
    var detail;
    next, detail := Load(w, id, book);
    match detail {
      case Missing(text) =>
        var error := JoinError(q.error, "OSV " + id + ": " + text);
        ReadFails(book, next, q, n, error);
        q := q.(complete := false, error := error);
      case Loaded(a) =>
        var m := MatchAdvisory(q.query, a);
        var discrepancy := "OSV " + id + " for " + q.query.ecosystem + " " + q.query.name + "@" + q.query.version + ": " + m.reason;
        var error := JoinError(q.error, discrepancy);
        ReadMatches(book, next, q, n, error);
        if m.reason != "" {
          q := q.(complete := false, error := error);
          noted := noted + [discrepancy];
        }
        q := q.(matches := q.matches + [m]);
        if m.outcome == AffectedVersionMatch {
          q := q.(outcome := m.outcome);
        }
    }
  }

  lemma WithinOn(a: Book, b: Book, c: Book)
    ensures a.Within(a)
    ensures a.Within(b) && b.Within(c) ==> a.Within(c)
  {
  }

  lemma NothingRead(w: World, start: PackageResult)
    ensures AllClean(w, start.query, start.ids[..0]) && LoadedAmong(w, start.ids[..0]) == {}
    ensures Noted(w, start.query, start.error, start.ids[..0]) == start.error
  {
  }

  /** Reads the advisories of one package. */
  method ReadEvidence(w: World, start: PackageResult, book: Book, warnings: seq<string>)
    returns (q: PackageResult, next: Book, noted: seq<string>)
    requires book.Ok() && Agrees(w, book) && Read(book, start, 0)
    requires start.complete ==> forall i :: 0 <= i < |start.ids| ==> ValidText(start.ids[i])
    ensures next.Ok() && book.Within(next) && Agrees(w, next)
    ensures next.details.Keys == book.details.Keys + LoadedAmong(w, start.ids)
    ensures q.complete <==> start.complete && AllClean(w, start.query, start.ids)
    ensures q.error == Noted(w, start.query, start.error, start.ids)
    ensures q.ids == start.ids && q.query == start.query && q.origins == start.origins && Read(next, q, |q.ids|)
    ensures warnings <= noted
  {
    hide Read, Clean, AllClean, LoadedAmong, ValidText, Agrees, Book.Ok, Book.Within, Noted, Complaint;
    WithinOn(book, book, book);
    NothingRead(w, start);
    q, next, noted := start, book, warnings;
    for n := 0 to |start.ids|
      invariant next.Ok() && book.Within(next) && warnings <= noted && Agrees(w, next)
      invariant next.details.Keys == book.details.Keys + LoadedAmong(w, start.ids[..n])
      invariant q.complete <==> start.complete && AllClean(w, start.query, start.ids[..n])
      invariant q.error == Noted(w, start.query, start.error, start.ids[..n])
      invariant q.ids == start.ids && q.query == start.query && q.origins == start.origins && Read(next, q, n)
    {
      CleanMore(w, start.query, start.ids, n);
      NotedMore(w, start.query, start.error, start.ids, n);
      ghost var before := next;
      q, next, noted := ReadOne(w, q, n, next, noted);
      WithinOn(book, before, next);
    }
    assert start.ids[..|start.ids|] == start.ids;
  }

  /** The finished result of one package. */
  ghost predicate Done(book: Book, q: PackageResult) {
    && q.runtimeImpact == UNKNOWN_IMPACT && q.workspace == UNAVAILABLE && q.dependencyPath == UNAVAILABLE
    && (q.complete <==> q.error == "")
    && AllSettled(book, q.ids)
    && (q.complete ==> forall i :: 0 <= i < |q.ids| ==> q.ids[i] in book.details)
    && q.matches == ExpectedMatches(book.records, q.query, q.ids)
    && (forall i :: 0 <= i < |q.matches| && q.matches[i].reason != "" ==> !q.complete)
    && q.outcome == ExpectedOutcome(q)
  }

  lemma DoneStays(book: Book, next: Book, q: PackageResult)
    requires book.Ok() && next.Ok() && book.Within(next) && Done(book, q)
    ensures Done(next, q)
  {
    MatchesStay(book, next, q.query, q.ids);
  }

  function Blank(p: PlannedQuery): PackageResult {
    PackageResult(p.query, p.origins, UNAVAILABLE, UNAVAILABLE, false, "", Unknown, [], [], UNKNOWN_IMPACT)
  }

  /** An answer that cannot be used leaves the result incomplete with a reason. */
  lemma BlankIsDone(book: Book, p: PlannedQuery, error: string)
    requires error != ""
    ensures Done(book, Blank(p).(error := error))
  {
  }

  /** The error of an answer: its own, one more for each identifier that is not valid text, and one if it
      is incomplete without saying why. */
  function AcceptedError(answer: Answer): string {
    var error := InvalidIds(answer.error, answer.ids);
    if error == "" && !answer.complete then "OSV discovery incomplete" else error
  }

  function InvalidIds(error: string, ids: seq<string>): string {
    if ids == [] then error
    else
      var before := InvalidIds(error, ids[..|ids| - 1]);
      if ValidText(ids[|ids| - 1]) then before else JoinError(before, "OSV returned invalid advisory ID")
  }

  /** What the answer says before its advisories are read: complete only without any error. */
  method Accept(p: PlannedQuery, answer: Answer, ghost book: Book) returns (q: PackageResult)
    ensures q.query == p.query && q.origins == p.origins && Read(book, q, 0)
    ensures q.ids == Uniq(answer.ids) && q.error == AcceptedError(answer)
    ensures q.complete <==> answer.complete && answer.error == "" && forall i :: 0 <= i < |answer.ids| ==> ValidText(answer.ids[i])
    ensures q.complete ==> forall i :: 0 <= i < |q.ids| ==> ValidText(q.ids[i])
  {
    hide ValidText, InvalidIds;
    var ids := Unique(answer.ids);
    assert answer.ids[..0] == [];
    InvalidNone(answer.error);
    q := Blank(p).(complete := answer.complete && answer.error == "", error := answer.error, ids := ids);
    for i := 0 to |answer.ids|
      invariant q == Blank(p).(complete := q.complete, error := q.error, ids := ids)
      invariant q.complete <==> answer.complete && answer.error == "" && forall j :: 0 <= j < i ==> ValidText(answer.ids[j])
      invariant q.complete ==> q.error == "" && forall j :: 0 <= j < i ==> ValidText(answer.ids[j])
      invariant q.error == InvalidIds(answer.error, answer.ids[..i])
    {
      InvalidMore(answer.error, answer.ids, i);
      if !ValidText(answer.ids[i]) {
        q := q.(complete := false, error := JoinError(q.error, "OSV returned invalid advisory ID"));
      }
    }
    assert answer.ids[..|answer.ids|] == answer.ids;
    NoInvalidIds(answer.error, answer.ids);
    if !q.complete && q.error == "" {
      q := q.(error := "OSV discovery incomplete");
    }
    assert q.ids[..0] == [];
    if q.complete {
      forall i | 0 <= i < |q.ids|
        ensures ValidText(q.ids[i])
      {
        assert q.ids[i] in q.ids;
        assert q.ids[i] in answer.ids;
      }
    }
  }

  lemma InvalidNone(error: string)
    ensures InvalidIds(error, []) == error
  {
  }

  lemma InvalidMore(error: string, ids: seq<string>, i: nat)
    requires i < |ids|
    ensures
      var before := InvalidIds(error, ids[..i]);
      InvalidIds(error, ids[..i + 1]) == if ValidText(ids[i]) then before else JoinError(before, "OSV returned invalid advisory ID")
  {
    hide ValidText;
    assert ids[..i + 1][..i] == ids[..i] && ids[..i + 1][i] == ids[i];
  }

  lemma {:induction false} NoInvalidIds(error: string, ids: seq<string>)
    ensures InvalidIds(error, ids) == "" <==> error == "" && forall i :: 0 <= i < |ids| ==> ValidText(ids[i])
  {
    hide ValidText;
    if ids != [] {
      NoInvalidIds(error, ids[..|ids| - 1]);
    }
  }

  lemma ReadIsDone(book: Book, q: PackageResult)
    requires Read(book, q, |q.ids|)
    ensures Done(book, if q.ids == [] && q.complete then q.(outcome := NoAdvisoryFound) else q)
  {
    assert q.ids[..|q.ids|] == q.ids;
  }

  /** The batch query gave an answer for the i-th package. */
  predicate Usable(w: World, plan: PlanReport, i: nat)
    requires i < |plan.queries|
  {
    w.osv && w.reached && |w.answers| == |plan.queries| && w.answers[i].query == plan.queries[i].query
  }

  ghost function AnsweredIds(w: World, plan: PlanReport, i: nat): seq<string>
    requires i < |plan.queries|
  {
    if Usable(w, plan, i) then Uniq(w.answers[i].ids) else []
  }

  /** What it takes for a package to be completely known. */
  ghost predicate CompleteBy(w: World, plan: PlanReport, i: nat)
    requires i < |plan.queries|
  {
    && Usable(w, plan, i)
    && w.answers[i].complete && w.answers[i].error == ""
    && AllClean(w, plan.queries[i].query, w.answers[i].ids)
  }

  /** The error of a package, for every way its answer can be unusable, and otherwise everything that is
      wrong with the answer and its advisories. */
  ghost function ErrorOf(w: World, plan: PlanReport, i: nat): string
    requires i < |plan.queries|
  {
    var count := if w.osv && w.reached then |w.answers| else 0;
    if !w.osv then "OSV discovery client not configured"
    else if count == 0 && w.cancelledAt(i) then "context canceled"
    else if count != |plan.queries| then "OSV query result count mismatch"
    else if w.answers[i].query != plan.queries[i].query then "OSV query identity mismatch"
    else Noted(w, plan.queries[i].query, AcceptedError(w.answers[i]), Uniq(w.answers[i].ids))
  }

  lemma UniqClean(w: World, query: PackageVersion, ids: seq<string>)
    requires forall i :: 0 <= i < |ids| ==> ValidText(ids[i])
    ensures AllClean(w, query, Uniq(ids)) <==> AllClean(w, query, ids)
  {
    if AllClean(w, query, Uniq(ids)) {
      forall i | 0 <= i < |ids|
        ensures Clean(w, query, ids[i])
      {
        assert ids[i] in ids && ids[i] in Uniq(ids);
        var j :| 0 <= j < |Uniq(ids)| && Uniq(ids)[j] == ids[i];
      }
    }
    if AllClean(w, query, ids) {
      forall j | 0 <= j < |Uniq(ids)|
        ensures Clean(w, query, Uniq(ids)[j])
      {
        assert Uniq(ids)[j] in Uniq(ids) && Uniq(ids)[j] in ids;
      }
    }
  }

  /** The result of one package, from whatever the batch query returned. */
  method RunQuery(w: World, plan: PlanReport, results: seq<Answer>, i: nat, book: Book, warnings: seq<string>)
    returns (q: PackageResult, next: Book, noted: seq<string>)
    requires i < |plan.queries| && book.Ok() && Agrees(w, book)
    requires results == if w.osv && w.reached then w.answers else []
    ensures next.Ok() && book.Within(next) && Done(next, q) && Agrees(w, next)
    ensures q.ids == AnsweredIds(w, plan, i) && (q.complete <==> CompleteBy(w, plan, i))
    ensures q.error == ErrorOf(w, plan, i)
    ensures next.details.Keys == book.details.Keys + LoadedAmong(w, AnsweredIds(w, plan, i))
    ensures q.query == plan.queries[i].query && q.origins == plan.queries[i].origins
    ensures warnings <= noted
  {
    var p := plan.queries[i];
    q, next, noted := Blank(p), book, warnings;
    BlankIsDone(book, p, "OSV discovery client not configured");
    BlankIsDone(book, p, "context canceled");
    BlankIsDone(book, p, "OSV query result count mismatch");
    BlankIsDone(book, p, "OSV query identity mismatch");
    if !w.osv {
      q := q.(error := "OSV discovery client not configured");
    } else if |results| == 0 && w.cancelledAt(i) {
      q := q.(error := "context canceled");
    } else if |results| != |plan.queries| {
      q := q.(error := "OSV query result count mismatch");
    } else if results[i].query != p.query {
      q := q.(error := "OSV query identity mismatch");
    } else {
      var start := Accept(p, results[i], book);
      if start.complete {
        UniqClean(w, p.query, results[i].ids);
      }
      q, next, noted := ReadEvidence(w, start, book, warnings);
      ReadIsDone(next, q);
      if |q.ids| == 0 && q.complete {
        q := q.(outcome := NoAdvisoryFound);
      }
    }
  }

  /** The advisories that the first n packages led to. */
  ghost function LoadedBy(w: World, plan: PlanReport, n: nat): set<string>
    requires n <= |plan.queries|
  {
    if n == 0 then {} else LoadedBy(w, plan, n - 1) + LoadedAmong(w, AnsweredIds(w, plan, n - 1))
  }

  /** All names of a served advisory. */
  ghost function NamesOf(w: World, id: string): seq<string> {
    [id] + if DetailOf(w, id).Loaded? then DetailOf(w, id).advisory.aliases else []
  }

  /** The CVEs that the served advisories go by. */
  ghost function ServedCVEs(w: World, ids: set<string>): set<string> {
    set id, x | id in ids && x in NamesOf(w, id) && IsCVE(x) :: x
  }

  /** The CVEs on record are those of the advisories that were served. */
  lemma RecordedCVEs(w: World, book: Book)
    requires book.Ok() && Agrees(w, book)
    ensures ExpectedCVEs(book.records) == ServedCVEs(w, book.details.Keys)
  {
    hide DetailOf, Agrees, Book.Ok, ServedCVEs;
    CVEsOfAll(book.records);
    forall x
      ensures x in CVEsOf(book.records, book.records.Keys) <==> x in ServedCVEs(w, book.details.Keys)
    {
      CVEsOfIs(book.records, book.records.Keys, x);
      RecordedCVE(w, book, x);
    }
  }

  lemma RecordedCVE(w: World, book: Book, x: string)
    requires book.Ok() && Agrees(w, book)
    ensures (exists k :: k in book.records && MentionsCVE(book.records[k], x)) <==> x in ServedCVEs(w, book.details.Keys)
  {
    hide IsCVE, DetailOf;
    if k :| k in book.records && MentionsCVE(book.records[k], x) {
      var id :| id in book.details && k == OsvKey(id);
      assert Shelved(w, book, id);
      MentionedIsNamed(w, id, x);
    }
    if x in ServedCVEs(w, book.details.Keys) {
      var id :| id in book.details && x in NamesOf(w, id) && IsCVE(x);
      assert Shelved(w, book, id);
      MentionedIsNamed(w, id, x);
      assert MentionsCVE(book.records[OsvKey(id)], x);
    }
  }

  lemma MentionedIsNamed(w: World, id: string, x: string)
    requires DetailOf(w, id).Loaded?
    ensures MentionsCVE(OsvRecord(w, id), x) <==> IsCVE(x) && x in NamesOf(w, id)
  {
  }

  /** The outcome of all packages. */
  datatype Discovery = Discovery(queries: seq<PackageResult>, book: Book, warnings: seq<string>, incomplete: bool) {
    ghost predicate For(plan: PlanReport, n: nat)
      requires n <= |plan.queries|
    {
      && book.Ok()
      && |queries| == n
      && (forall i :: 0 <= i < n ==> Done(book, queries[i]))
      && (forall i :: 0 <= i < n ==> queries[i].query == plan.queries[i].query && queries[i].origins == plan.queries[i].origins)
      && (!incomplete <==> forall i :: 0 <= i < n ==> queries[i].complete)
    }

    /** The packages are as the clients answered, and the records are the advisories they led to. */
    ghost predicate From(w: World, plan: PlanReport, n: nat)
      requires n <= |plan.queries| && |queries| == n
    {
      && Agrees(w, book)
      && book.details.Keys == LoadedBy(w, plan, n)
      && (forall i :: 0 <= i < n ==> queries[i].error == ErrorOf(w, plan, i))
      && forall i :: 0 <= i < n ==> queries[i].ids == AnsweredIds(w, plan, i) && (queries[i].complete <==> CompleteBy(w, plan, i))
    }
  }

  method RunQueries(w: World, plan: PlanReport, warnings: seq<string>) returns (d: Discovery)
    ensures d.For(plan, |plan.queries|) && d.From(w, plan, |plan.queries|) && warnings <= d.warnings
  {
    hide Done, CompleteBy, AnsweredIds, LoadedAmong, Usable, ErrorOf;
    var results: seq<Answer> := [];
    if w.osv && |plan.queries| > 0 && w.reached {
      results := w.answers;
    }
    d := Discovery([], Book(map[], map[], map[]), warnings, false);
    for i := 0 to |plan.queries|
      invariant d.For(plan, i) && d.From(w, plan, i) && warnings <= d.warnings
    {
      var q, next, noted := RunQuery(w, plan, results, i, d.book, d.warnings);
      forall j | 0 <= j < i
        ensures Done(next, d.queries[j])
      {
        DoneStays(d.book, next, d.queries[j]);
      }
      d := Discovery(d.queries + [q], next, noted, d.incomplete || !q.complete);
    }
  }
}
