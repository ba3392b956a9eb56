/** What an assessment claims, said from the facts and the candidate alone: which references count,
    what proves that a package is there, and when a version verdict is taken over. */
module AssessmentClaims {
  import opened ScanTypes
  import opened Strings
  import VersionRanges
  import opened Assessment

  // ---------- identity ----------

  /** A component's name with its namespace in front, once. */
  lemma FullNameIs(c: Component)
    ensures FullName(c) == c.name || FullName(c) == c.namespace + "/" + c.name
    ensures c.namespace == "" ==> FullName(c) == c.name
    ensures c.namespace != "" ==> c.namespace + "/" <= FullName(c)
    ensures forall rest :: c.name == c.namespace + "/" + rest ==> FullName(c) == c.name
  {
    if rest :| c.name == c.namespace + "/" + rest {
      assert c.namespace + "/" <= c.name;
    }
  }

  /** A package URL has its scheme and something behind it. */
  lemma PURLIff(s: string)
    ensures IsPURL(s) <==> exists rest :: rest != "" && s == "pkg:" + rest
  {
    if IsPURL(s) {
      assert s == "pkg:" + s[4..];
    }
  }

  /** What proves that a component is the package of a target: the same package URL, or the same
      ecosystem and full name, unless their package URLs contradict it. */
  ghost predicate Identifies(c: Component, t: Target, reason: Reason) {
    && t.kind == AffectedPackage
    && ((reason == PURLExact && c.purl == t.purl && exists rest :: rest != "" && c.purl == "pkg:" + rest)
        || (reason == PackageExact && Trim(c.name) != "" && Trim(c.ecosystem) != "" && c.ecosystem == t.ecosystem
            && FullName(c) == t.packageName && (c.purl == "" || t.purl == "" || c.purl == t.purl)))
  }

  lemma ExactIdentifies(c: Component, t: Target, reason: Reason)
    ensures ExactComponent(c, t, reason) <==> Identifies(c, t, reason)
  {
    hide FullName, Trim;
    PURLIff(c.purl);
  }

  // ---------- references ----------

  ghost function ComponentsAt(cs: seq<Component>, id: string): set<nat> {
    set i: nat | i < |cs| && cs[i].id == id
  }

  ghost function OthersAt(items: seq<OtherItem>, id: string): set<nat> {
    set i: nat | i < |items| && items[i].id == id
  }

  ghost function TargetsAt(ts: seq<Target>, id: string): set<nat> {
    set i: nat | i < |ts| && ts[i].id == id
  }

  ghost function PairsAt(ms: seq<TargetMatch>, item: string, target: string): set<nat> {
    set i: nat | i < |ms| && ms[i].item == item && ms[i].target == target
  }

  lemma {:induction false} ComponentsCounted(cs: seq<Component>, id: string)
    ensures ComponentCount(cs, id) == |ComponentsAt(cs, id)|
  {
    if cs != [] {
      var n := |cs| - 1;
      ComponentsCounted(cs[..n], id);
      assert ComponentsAt(cs, id) == ComponentsAt(cs[..n], id) + if cs[n].id == id then {n} else {};
    }
  }

  lemma {:induction false} OthersCounted(items: seq<OtherItem>, id: string)
    ensures OtherCount(items, id) == |OthersAt(items, id)|
  {
    if items != [] {
      var n := |items| - 1;
      OthersCounted(items[..n], id);
      assert OthersAt(items, id) == OthersAt(items[..n], id) + if items[n].id == id then {n} else {};
    }
  }

  lemma {:induction false} TargetsCounted(ts: seq<Target>, id: string)
    ensures TargetCount(ts, id) == |TargetsAt(ts, id)|
  {
    if ts != [] {
      var n := |ts| - 1;
      TargetsCounted(ts[..n], id);
      assert TargetsAt(ts, id) == TargetsAt(ts[..n], id) + if ts[n].id == id then {n} else {};
    }
  }

  lemma {:induction false} PairsCounted(ms: seq<TargetMatch>, item: string, target: string)
    ensures PairCount(ms, item, target) == |PairsAt(ms, item, target)|
  {
    if ms != [] {
      var n := |ms| - 1;
      PairsCounted(ms[..n], item, target);
      assert PairsAt(ms, item, target) == PairsAt(ms[..n], item, target) + if ms[n].item == item && ms[n].target == target then {n} else {};
    }
  }

  /** A match is looked at when both its references are there exactly once and no other match of the
      candidate repeats it. */
  ghost predicate Stands(f: Facts, c: Candidate, m: TargetMatch) {
    && Trim(m.item) != "" && Trim(m.target) != ""
    && |ComponentsAt(f.components, m.item)| + |OthersAt(f.others, m.item)| == 1
    && |TargetsAt(f.affected, m.target)| == 1
    && |PairsAt(c.matches, m.item, m.target)| == 1
  }

  lemma ResolvableStands(f: Facts, c: Candidate, m: TargetMatch)
    ensures Resolvable(f, c, m) <==> Stands(f, c, m)
  {
    hide Trim;
    ComponentsCounted(f.components, m.item);
    OthersCounted(f.others, m.item);
    TargetsCounted(f.affected, m.target);
    PairsCounted(c.matches, m.item, m.target);
  }

  lemma {:induction false} TargetFound(ts: seq<Target>, id: string)
    ensures TargetOf(ts, id).None? <==> forall i :: 0 <= i < |ts| ==> ts[i].id != id
    ensures TargetOf(ts, id).Some? ==> TargetOf(ts, id).value in ts && TargetOf(ts, id).value.id == id
  {
    if ts != [] {
      TargetFound(ts[..|ts| - 1], id);
    }
  }

  lemma OneAtMost(s: set<nat>, i: nat, j: nat)
    requires |s| <= 1 && i in s && j in s
    ensures i == j
  {
    if i != j {
      assert {i, j} <= s;
      Smaller({i, j}, s);
    }
  }

  lemma {:induction false} Smaller(a: set<nat>, b: set<nat>)
    requires a <= b
    ensures |a| <= |b|
  {
    if a != {} {
      var x :| x in a;
      Smaller(a - {x}, b - {x});
    }
  }

  /** The one target that a match refers to. */
  lemma TargetIs(ts: seq<Target>, id: string, t: Target)
    requires |TargetsAt(ts, id)| == 1
    ensures TargetOf(ts, id) == Some(t) <==> t in ts && t.id == id
  {
    TargetFound(ts, id);
    var k :| k in TargetsAt(ts, id);
    if t in ts && t.id == id {
      var i :| 0 <= i < |ts| && ts[i] == t;
      var u := TargetOf(ts, id).value;
      var j :| 0 <= j < |ts| && ts[j] == u;
      OneAtMost(TargetsAt(ts, id), i, j);
    }
  }

  /** Some item of the facts has this identifier and this version. */
  ghost predicate Installed(f: Facts, id: string, version: string) {
    || (exists c :: c in f.components && c.id == id && c.version == version)
    || (exists o :: o in f.others && o.id == id && o.version == version)
  }

  lemma {:induction false} FirstFound(cs: seq<Component>, id: string)
    ensures FirstComponent(cs, id).None? <==> forall c :: c in cs ==> c.id != id
    ensures FirstComponent(cs, id).Some? ==> FirstComponent(cs, id).value in cs && FirstComponent(cs, id).value.id == id
  {
    if cs != [] {
      FirstFound(cs[1..], id);
      assert cs == [cs[0]] + cs[1..];
    }
  }

  lemma {:induction false} OtherFound(items: seq<OtherItem>, id: string)
    ensures (exists o :: o in items && o.id == id) ==> exists o :: o in items && o.id == id && o.version == OtherVersion(items, id)
  {
    if items != [] {
      OtherFound(items[1..], id);
      assert items == [items[0]] + items[1..];
    }
  }

  /** The version compared with is that of the one item referred to. */
  lemma VersionIs(f: Facts, id: string, version: string)
    requires |ComponentsAt(f.components, id)| + |OthersAt(f.others, id)| == 1
    ensures VersionOf(f, id) == version <==> Installed(f, id, version)
  {
    FirstFound(f.components, id);
    OtherFound(f.others, id);
    if |ComponentsAt(f.components, id)| == 1 {
      ComponentAlone(f, id);
    } else {
      OtherAlone(f, id);
    }
  }

  lemma ComponentAlone(f: Facts, id: string)
    requires |ComponentsAt(f.components, id)| == 1 && |OthersAt(f.others, id)| == 0
    ensures exists c :: c in f.components && c.id == id
    ensures forall c, d :: c in f.components && d in f.components && c.id == d.id == id ==> c == d
    ensures forall o :: o in f.others ==> o.id != id
  {
    var k :| k in ComponentsAt(f.components, id);
    assert f.components[k] in f.components;
    forall c, d | c in f.components && d in f.components && c.id == d.id == id
      ensures c == d
    {
      var i :| 0 <= i < |f.components| && f.components[i] == c;
      var j :| 0 <= j < |f.components| && f.components[j] == d;
      OneAtMost(ComponentsAt(f.components, id), i, j);
    }
    forall o | o in f.others
      ensures o.id != id
    {
      var i :| 0 <= i < |f.others| && f.others[i] == o;
      assert OthersAt(f.others, id) == {};
      assert i !in OthersAt(f.others, id);
    }
  }

  lemma OtherAlone(f: Facts, id: string)
    requires |ComponentsAt(f.components, id)| == 0 && |OthersAt(f.others, id)| == 1
    ensures exists o :: o in f.others && o.id == id
    ensures forall o, p :: o in f.others && p in f.others && o.id == p.id == id ==> o == p
    ensures forall c :: c in f.components ==> c.id != id
  {
    var k :| k in OthersAt(f.others, id);
    assert f.others[k] in f.others;
    forall o, p | o in f.others && p in f.others && o.id == p.id == id
      ensures o == p
    {
      var i :| 0 <= i < |f.others| && f.others[i] == o;
      var j :| 0 <= j < |f.others| && f.others[j] == p;
      OneAtMost(OthersAt(f.others, id), i, j);
    }
    forall c | c in f.components
      ensures c.id != id
    {
      var i :| 0 <= i < |f.components| && f.components[i] == c;
      assert ComponentsAt(f.components, id) == {};
      assert i !in ComponentsAt(f.components, id);
    }
  }

  // ---------- one match ----------

  /** Some component of the facts is the package that the match says it is. */
  ghost predicate Present(f: Facts, c: Candidate, m: TargetMatch) {
    Stands(f, c, m) && exists x, t :: x in f.components && x.id == m.item && t in f.affected && t.id == m.target && Identifies(x, t, m.reason)
  }

  /** The version verdict of the match is about the version that is installed, and about a target that
      says anything about versions. */
  ghost predicate Judged(f: Facts, c: Candidate, m: TargetMatch) {
    && Stands(f, c, m) && m.reason != Unsupported
    && Trim(m.installed) != "" && Installed(f, m.item, m.installed)
    && exists t :: t in f.affected && t.id == m.target && t.constraints != []
  }

  /** What is said of one match. */
  ghost predicate Says(f: Facts, c: Candidate, m: TargetMatch, r: MatchReport) {
    && (r.presence == Confirmed <==> Present(f, c, m))
    && (r.presence == NotFound <==> Stands(f, c, m) && m.reason != Unsupported && !Present(f, c, m))
    && r.presence != NotAffected && r.version != NotFound
    && (r.version == Confirmed <==> Judged(f, c, m) && m.status == VersionRanges.Affected)
    && (r.version == NotAffected <==> Judged(f, c, m) && m.status == VersionRanges.NotAffected)
    && (r.conditional <==> !Present(f, c, m))
  }

  lemma ProvenIsPresent(f: Facts, c: Candidate, m: TargetMatch, t: Target)
    requires Stands(f, c, m) && TargetOf(f.affected, m.target) == Some(t)
    ensures Proven(f, m, t) <==> Present(f, c, m)
    ensures t.constraints != [] <==> exists u :: u in f.affected && u.id == m.target && u.constraints != []
  {
    hide Identifies, ExactComponent;
    TargetIs(f.affected, m.target, t);
    forall u | u in f.affected && u.id == m.target
      ensures u == t
    {
      TargetIs(f.affected, m.target, u);
    }
    forall x
      ensures ExactComponent(x, t, m.reason) <==> Identifies(x, t, m.reason)
    {
      ExactIdentifies(x, t, m.reason);
    }
    if Proven(f, m, t) {
      var i :| 0 <= i < |f.components| && f.components[i].id == m.item && ExactComponent(f.components[i], t, m.reason);
      assert f.components[i] in f.components;
    }
    if Present(f, c, m) {
      var x, u :| x in f.components && x.id == m.item && u in f.affected && u.id == m.target && Identifies(x, u, m.reason);
      var i :| 0 <= i < |f.components| && f.components[i] == x;
    }
  }

  lemma UnsupportedIsNotPresent(f: Facts, c: Candidate, m: TargetMatch)
    requires m.reason == Unsupported
    ensures !Present(f, c, m)
  {
  }

  lemma MatchSays(f: Facts, c: Candidate, m: TargetMatch)
    ensures Says(f, c, m, MatchSpec(f, c, m))
  {
    hide Stands, Resolvable, Proven, Present, Installed;
    ResolvableStands(f, c, m);
    TargetFound(f.affected, m.target);
    if Stands(f, c, m) {
      StandsHasTarget(f, c, m);
      var t := TargetOf(f.affected, m.target).value;
      ProvenIsPresent(f, c, m, t);
      VersionIs(f, m.item, m.installed);
    } else {
      NotStandingIsNotPresent(f, c, m);
    }
    if m.reason == Unsupported {
      UnsupportedIsNotPresent(f, c, m);
    }
  }

  lemma NotStandingIsNotPresent(f: Facts, c: Candidate, m: TargetMatch)
    requires !Stands(f, c, m)
    ensures !Present(f, c, m)
  {
  }

  lemma StandsHasTarget(f: Facts, c: Candidate, m: TargetMatch)
    requires Stands(f, c, m)
    ensures TargetOf(f.affected, m.target).Some?
    ensures |ComponentsAt(f.components, m.item)| + |OthersAt(f.others, m.item)| == 1
  {
    TargetFound(f.affected, m.target);
    var k :| k in TargetsAt(f.affected, m.target);
  }

  // ---------- the whole answer ----------

  /** The candidate is about these facts, and these facts say what they are about. */
  ghost predicate AboutThese(f: Facts, c: Candidate) {
    && Trim(f.repositoryID) != "" && Trim(f.commitSHA) != "" && Trim(f.vulnerabilityID) != ""
    && c.repositoryID == f.repositoryID && c.commitSHA == f.commitSHA
    && c.vulnerabilityID == f.vulnerabilityID && c.revision == f.modifiedAt
  }

  /** The two verdicts: a package is confirmed by any match, and an affected version by any match with
      a confirmed package; absent or not affected is said only when every match says so. */
  lemma ReportClaims(f: Facts, c: Candidate, r: Report)
    requires IsReport(f, c, r)
    ensures r.presence == Confirmed <==> AboutThese(f, c) && exists m :: m in c.matches && Present(f, c, m)
    ensures r.presence == NotFound <==>
      AboutThese(f, c) && forall m :: m in c.matches ==> Stands(f, c, m) && m.reason != Unsupported && !Present(f, c, m)
    ensures r.version == Confirmed <==>
      AboutThese(f, c) && exists m :: m in c.matches && Present(f, c, m) && Judged(f, c, m) && m.status == VersionRanges.Affected
    ensures r.version == NotAffected <==>
      AboutThese(f, c) && c.matches != [] && forall m :: m in c.matches ==> Present(f, c, m) && Judged(f, c, m) && m.status == VersionRanges.NotAffected
  {
    hide MatchSpec, Trim, Present, Judged, Stands;
    forall i | 0 <= i < |r.matches|
      ensures Says(f, c, c.matches[i], r.matches[i])
    {
      MatchSays(f, c, c.matches[i]);
    }
    if SameSnapshot(f, c) && c.matches != [] {
      VerdictsClaims(f, c, r);
    }
  }

  lemma VerdictsClaims(f: Facts, c: Candidate, r: Report)
    requires c.matches != [] && |r.matches| == |c.matches|
    requires forall i :: 0 <= i < |r.matches| ==> Says(f, c, c.matches[i], r.matches[i])
    ensures AnyConfirmed(r.matches) <==> exists m :: m in c.matches && Present(f, c, m)
    ensures AllAbsent(r.matches) <==> forall m :: m in c.matches ==> Stands(f, c, m) && m.reason != Unsupported && !Present(f, c, m)
    ensures AnyAffected(r.matches) <==> exists m :: m in c.matches && Present(f, c, m) && Judged(f, c, m) && m.status == VersionRanges.Affected
    ensures AllUnaffected(r.matches) <==>
      forall m :: m in c.matches ==> Present(f, c, m) && Judged(f, c, m) && m.status == VersionRanges.NotAffected
    ensures AllAbsent(r.matches) ==> !AnyConfirmed(r.matches)
    ensures AllUnaffected(r.matches) ==> !AnyAffected(r.matches)
  {
    hide Present, Judged, Stands;
    VerdictsApart(r.matches);
    forall i | 0 <= i < |c.matches|
      ensures c.matches[i] in c.matches && Says(f, c, c.matches[i], r.matches[i])
    {
    }
  }
}
