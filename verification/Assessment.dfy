/** The deterministic checks of a match candidate (src/assessment/assessment.go): is the package there,
    and is the installed version affected.  What cannot be proved from the supplied facts is unknown. */
module Assessment {
  import opened ScanTypes
  import opened Strings
  import VersionRanges

  datatype Kind = AffectedPackage | AffectedProduct | AffectedContainer | AffectedInfrastructure | OtherKind(name: string)

  datatype Reason = PURLExact | PackageExact | OtherKnown | Unsupported

  datatype Target = Target(id: string, kind: Kind, purl: string, ecosystem: string, packageName: string,
                           constraints: seq<VersionRanges.Constraint>)

  datatype TargetMatch = TargetMatch(item: string, target: string, reason: Reason, status: VersionRanges.Status, installed: string)

  /** A product, container or infrastructure asset. */
  datatype OtherItem = OtherItem(id: string, version: string, path: string)

  datatype Facts = Facts(
    repositoryID: string, commitSHA: string, components: seq<Component>, others: seq<OtherItem>,
    vulnerabilityID: string, modifiedAt: int, affected: seq<Target>)

  datatype Candidate = Candidate(repositoryID: string, commitSHA: string, vulnerabilityID: string, revision: int, matches: seq<TargetMatch>)

  datatype Status = Unknown | NotFound | Confirmed | NotAffected

  datatype MatchReport = MatchReport(presence: Status, version: Status, conditional: bool)

  datatype Report = Report(presence: Status, version: Status, matches: seq<MatchReport>)

  // ---------- what the answers mean ----------

  predicate IsBlank(s: string) {
    Trim(s) == ""
  }

  predicate SameSnapshot(f: Facts, c: Candidate) {
    && !IsBlank(f.repositoryID) && !IsBlank(f.commitSHA) && !IsBlank(f.vulnerabilityID)
    && c.repositoryID == f.repositoryID && c.commitSHA == f.commitSHA
    && c.vulnerabilityID == f.vulnerabilityID && c.revision == f.modifiedAt
  }

  function ItemCount(f: Facts, id: string): nat {
    ComponentCount(f.components, id) + OtherCount(f.others, id)
  }

  function ComponentCount(cs: seq<Component>, id: string): nat {
    if cs == [] then 0 else ComponentCount(cs[..|cs| - 1], id) + if cs[|cs| - 1].id == id then 1 else 0
  }

  function OtherCount(items: seq<OtherItem>, id: string): nat {
    if items == [] then 0 else OtherCount(items[..|items| - 1], id) + if items[|items| - 1].id == id then 1 else 0
  }

  function TargetCount(ts: seq<Target>, id: string): nat {
    if ts == [] then 0 else TargetCount(ts[..|ts| - 1], id) + if ts[|ts| - 1].id == id then 1 else 0
  }

  function PairCount(ms: seq<TargetMatch>, item: string, target: string): nat {
    if ms == [] then 0
    else PairCount(ms[..|ms| - 1], item, target) + if ms[|ms| - 1].item == item && ms[|ms| - 1].target == target then 1 else 0
  }

  /** The last target of an identifier. */
  function TargetOf(ts: seq<Target>, id: string): Option<Target> {
    if ts == [] then None else if ts[|ts| - 1].id == id then Some(ts[|ts| - 1]) else TargetOf(ts[..|ts| - 1], id)
  }

  /** The version of the first item of an identifier, components before the rest. */
  function VersionOf(f: Facts, id: string): string {
    match FirstComponent(f.components, id)
    case Some(c) => c.version
    case None => OtherVersion(f.others, id)
  }

  function FirstComponent(cs: seq<Component>, id: string): Option<Component> {
    if cs == [] then None else if cs[0].id == id then Some(cs[0]) else FirstComponent(cs[1..], id)
  }

  function OtherVersion(items: seq<OtherItem>, id: string): string {
    if items == [] then "" else if items[0].id == id then items[0].version else OtherVersion(items[1..], id)
  }

  function FullName(c: Component): string {
    if c.namespace != "" && !(c.namespace + "/" <= c.name) then c.namespace + "/" + c.name else c.name
  }

  predicate IsPURL(s: string) {
    "pkg:" <= s && |s| > 4
  }

  predicate ExactComponent(c: Component, t: Target, reason: Reason) {
    && t.kind.AffectedPackage?
    && match reason
       case PURLExact => IsPURL(c.purl) && c.purl == t.purl
       case PackageExact =>
         && !IsBlank(c.name) && !IsBlank(c.ecosystem) && c.ecosystem == t.ecosystem && FullName(c) == t.packageName
         && !(c.purl != "" && t.purl != "" && c.purl != t.purl)
       case _ => false
  }

  /** A match whose references are there, unambiguous and not repeated. */
  predicate Resolvable(f: Facts, c: Candidate, m: TargetMatch) {
    && !IsBlank(m.item) && !IsBlank(m.target)
    && ItemCount(f, m.item) == 1 && TargetCount(f.affected, m.target) == 1 && PairCount(c.matches, m.item, m.target) == 1
  }

  predicate Proven(f: Facts, m: TargetMatch, t: Target) {
    exists i :: 0 <= i < |f.components| && f.components[i].id == m.item && ExactComponent(f.components[i], t, m.reason)
  }

  /** One match alone. */
  function MatchSpec(f: Facts, c: Candidate, m: TargetMatch): MatchReport {
    if !Resolvable(f, c, m) || TargetOf(f.affected, m.target).None? then MatchReport(Unknown, Unknown, true)
    else
      var t := TargetOf(f.affected, m.target).value;
      var proven := Proven(f, m, t);
      var presence := if m.reason.Unsupported? then Unknown else if proven then Confirmed else NotFound;
      var version :=
        if m.reason.Unsupported? || IsBlank(VersionOf(f, m.item)) || m.installed != VersionOf(f, m.item) || t.constraints == [] then Unknown
        else match m.status case Affected => Confirmed case NotAffected => NotAffected case VersionUnknown => Unknown;
      MatchReport(presence, version, !proven)
  }

  predicate AnyConfirmed(ms: seq<MatchReport>) {
    exists i :: 0 <= i < |ms| && ms[i].presence.Confirmed?
  }

  predicate AnyAffected(ms: seq<MatchReport>) {
    exists i :: 0 <= i < |ms| && ms[i].presence.Confirmed? && ms[i].version.Confirmed?
  }

  predicate AllAbsent(ms: seq<MatchReport>) {
    forall i :: 0 <= i < |ms| ==> ms[i].presence.NotFound?
  }

  predicate AllUnaffected(ms: seq<MatchReport>) {
    forall i :: 0 <= i < |ms| ==> ms[i].presence.Confirmed? && ms[i].version.NotAffected?
  }

  /** The whole answer: present if any match is, affected if any present one is, and cleared only if
      every match is of a present package and not affected. */
  predicate IsReport(f: Facts, c: Candidate, r: Report) {
    if !SameSnapshot(f, c) then r == Report(Unknown, Unknown, [])
    else if c.matches == [] then r == Report(NotFound, Unknown, [])
    else
      && |r.matches| == |c.matches|
      && (forall i :: 0 <= i < |c.matches| ==> r.matches[i] == MatchSpec(f, c, c.matches[i]))
      && r.presence == (if AnyConfirmed(r.matches) then Confirmed else if AllAbsent(r.matches) then NotFound else Unknown)
      && r.version == (if AnyAffected(r.matches) then Confirmed else if AllUnaffected(r.matches) then NotAffected else Unknown)
  }

  /** The two verdicts exclude each other: nothing is cleared while an affected package is confirmed. */
  lemma NeverBothWays(f: Facts, c: Candidate, r: Report)
    requires IsReport(f, c, r) && r.version.NotAffected?
    ensures r.presence.Confirmed? && forall i :: 0 <= i < |r.matches| ==> !r.matches[i].version.Confirmed?
  {
    assert r.matches[0].presence.Confirmed?;
  }

  // ---------- the checks ----------

  method CountItems(f: Facts) returns (counts: map<string, nat>)
    ensures forall id :: ItemCount(f, id) == if id in counts then counts[id] else 0
  {
    counts := map[];
    for i := 0 to |f.components|
      invariant forall id :: ComponentCount(f.components[..i], id) == if id in counts then counts[id] else 0
    {
      assert f.components[..i + 1][..i] == f.components[..i];
      var id := f.components[i].id;
      counts := counts[id := (if id in counts then counts[id] else 0) + 1];
    }
    assert f.components[..|f.components|] == f.components;
    for i := 0 to |f.others|
      invariant forall id :: ComponentCount(f.components, id) + OtherCount(f.others[..i], id) == if id in counts then counts[id] else 0
    {
      assert f.others[..i + 1][..i] == f.others[..i];
      var id := f.others[i].id;
      counts := counts[id := (if id in counts then counts[id] else 0) + 1];
    }
    assert f.others[..|f.others|] == f.others;
  }

  method IndexTargets(ts: seq<Target>) returns (targets: map<string, Target>, counts: map<string, nat>)
    ensures forall id :: TargetCount(ts, id) == if id in counts then counts[id] else 0
    ensures forall id :: TargetOf(ts, id) == if id in targets then Some(targets[id]) else None
  {
    targets, counts := map[], map[];
    for i := 0 to |ts|
      invariant forall id :: TargetCount(ts[..i], id) == if id in counts then counts[id] else 0
      invariant forall id :: TargetOf(ts[..i], id) == if id in targets then Some(targets[id]) else None
    {
      assert ts[..i + 1][..i] == ts[..i];
      var id := ts[i].id;
      targets := targets[id := ts[i]];
      counts := counts[id := (if id in counts then counts[id] else 0) + 1];
    }
    assert ts[..|ts|] == ts;
  }

  method CountPairs(ms: seq<TargetMatch>) returns (pairs: map<(string, string), nat>)
    ensures forall item, target :: PairCount(ms, item, target) == if (item, target) in pairs then pairs[(item, target)] else 0
  {
    pairs := map[];
    for i := 0 to |ms|
      invariant forall item, target :: PairCount(ms[..i], item, target) == if (item, target) in pairs then pairs[(item, target)] else 0
    {
      assert ms[..i + 1][..i] == ms[..i];
      var key := (ms[i].item, ms[i].target);
      pairs := pairs[key := (if key in pairs then pairs[key] else 0) + 1];
    }
    assert ms[..|ms|] == ms;
  }

  method AssessMatch(f: Facts, c: Candidate, m: TargetMatch, items: map<string, nat>, targets: map<string, Target>,
                     targetCounts: map<string, nat>, pairs: map<(string, string), nat>) returns (r: MatchReport)
    requires ItemCount(f, m.item) == if m.item in items then items[m.item] else 0
    requires TargetCount(f.affected, m.target) == if m.target in targetCounts then targetCounts[m.target] else 0
    requires TargetOf(f.affected, m.target) == if m.target in targets then Some(targets[m.target]) else None
    requires PairCount(c.matches, m.item, m.target) == if (m.item, m.target) in pairs then pairs[(m.item, m.target)] else 0
    ensures r == MatchSpec(f, c, m)
  {
    r := MatchReport(Unknown, Unknown, true);
    if IsBlank(m.item) || IsBlank(m.target) || m.item !in items || items[m.item] != 1
       || m.target !in targetCounts || targetCounts[m.target] != 1 || m.target !in targets
       || (m.item, m.target) !in pairs || pairs[(m.item, m.target)] != 1 {
      return;
    }
    var t := targets[m.target];
    r := r.(presence := NotFound);
    for i := 0 to |f.components|
      invariant r == if exists j :: 0 <= j < i && f.components[j].id == m.item && ExactComponent(f.components[j], t, m.reason)
                     then MatchReport(Confirmed, Unknown, false) else MatchReport(NotFound, Unknown, true)
    {
      if f.components[i].id == m.item && ExactComponent(f.components[i], t, m.reason) {
        r := r.(presence := Confirmed, conditional := false);
      }
    }
    var version := VersionOf(f, m.item);
    if m.reason.Unsupported? {
      r := r.(presence := Unknown);
    } else if !IsBlank(version) && m.installed == version && |t.constraints| > 0 {
      match m.status {
        case Affected => r := r.(version := Confirmed);
        case NotAffected => r := r.(version := NotAffected);
        case VersionUnknown =>
      }
    }
  }

  method Assess(f: Facts, c: Candidate) returns (r: Report)
    ensures IsReport(f, c, r)
  {
    r := Report(Unknown, Unknown, []);
    if !SameSnapshot(f, c) {
      return;
    }
    if |c.matches| == 0 {
      return r.(presence := NotFound);
    }
    r := AssessMatches(f, c, r);
    VerdictsApart(r.matches);
  }

  lemma VerdictsApart(ms: seq<MatchReport>)
    ensures ms != [] && AllAbsent(ms) ==> !AnyConfirmed(ms)
    ensures ms != [] && AllUnaffected(ms) ==> !AnyAffected(ms)
  {
  }

  lemma VerdictsNone()
    ensures !AnyConfirmed([]) && !AnyAffected([]) && AllAbsent([]) && AllUnaffected([])
  {
  }

  /** The loop over the matches, with the verdicts kept up to date. */
  method AssessMatches(f: Facts, c: Candidate, start: Report) returns (r: Report)
    requires c.matches != [] && start == Report(Unknown, Unknown, [])
    ensures |r.matches| == |c.matches| && forall i :: 0 <= i < |c.matches| ==> r.matches[i] == MatchSpec(f, c, c.matches[i])
    ensures r.presence == if AllAbsent(r.matches) then NotFound else if AnyConfirmed(r.matches) then Confirmed else Unknown
    ensures r.version == if AllUnaffected(r.matches) then NotAffected else if AnyAffected(r.matches) then Confirmed else Unknown
  {
    hide MatchSpec, AnyConfirmed, AnyAffected, AllAbsent, AllUnaffected;
    r := start;
    var items := CountItems(f);
    var targets, targetCounts := IndexTargets(f.affected);
    var pairs := CountPairs(c.matches);
    var allAbsent, allUnaffected := true, true;
    VerdictsNone();
    for i := 0 to |c.matches|
      invariant |r.matches| == i && forall j :: 0 <= j < i ==> r.matches[j] == MatchSpec(f, c, c.matches[j])
      invariant r.presence == if AnyConfirmed(r.matches) then Confirmed else Unknown
      invariant r.version == if AnyAffected(r.matches) then Confirmed else Unknown
      invariant allAbsent <==> AllAbsent(r.matches)
      invariant allUnaffected <==> AllUnaffected(r.matches)
    {
      var a := AssessMatch(f, c, c.matches[i], items, targets, targetCounts, pairs);
      VerdictsMore(r.matches, a);
      r := r.(matches := r.matches + [a]);
      if !a.presence.NotFound? {
        allAbsent := false;
      }
      if a.presence.Confirmed? {
        r := r.(presence := Confirmed);
        if a.version.Confirmed? {
          r := r.(version := Confirmed);
        }
      }
      if !a.presence.Confirmed? || !a.version.NotAffected? {
        allUnaffected := false;
      }
    }
    if allAbsent {
      r := r.(presence := NotFound);
    }
    if allUnaffected {
      r := r.(version := NotAffected);
    }
  }

  lemma VerdictsMore(ms: seq<MatchReport>, a: MatchReport)
    ensures AnyConfirmed(ms + [a]) <==> AnyConfirmed(ms) || a.presence.Confirmed?
    ensures AnyAffected(ms + [a]) <==> AnyAffected(ms) || (a.presence.Confirmed? && a.version.Confirmed?)
    ensures AllAbsent(ms + [a]) <==> AllAbsent(ms) && a.presence.NotFound?
    ensures AllUnaffected(ms + [a]) <==> AllUnaffected(ms) && a.presence.Confirmed? && a.version.NotAffected?
  {
    assert (ms + [a])[|ms|] == a;
    assert forall i :: 0 <= i < |ms| ==> (ms + [a])[i] == ms[i];
  }
}
