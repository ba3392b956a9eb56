module VersionRanges {
  // Evaluating version constraints: `VersionEvaluator.Evaluate` (src/ecosystem/npm/version.go) and
  // `Versions.Evaluate` (src/ecosystem/versions/versions.go).  A list of constraints is a union of
  // ranges; the answer is three-valued, since a constraint may not be understood.

  import opened ScanTypes
  import opened Strings
  import opened SemVer

  datatype Constraint = Constraint(
    scheme: string, expression: string, startIncluding: string, startExcluding: string,
    endIncluding: string, endExcluding: string)

  datatype Status = Affected | NotAffected | VersionUnknown

  // ---------- what a constraint means ----------

  predicate NpmScheme(scheme: string) {
    var s := Lower(Trim(scheme));
    s == "npm" || s == "semver" || s == "cpe"
  }

  /** A bound that is absent, or a version. */
  predicate IsBound(text: string) {
    Trim(text) == "" || Parse(Trim(text)).Some?
  }

  function Given(text: string): Option<Version> {
    if Trim(text) == "" then None else Parse(Trim(text))
  }

  /** A constraint that is understood: a known scheme, something said, no end stated twice, and
      every version in it well-formed. */
  predicate Applicable(c: Constraint) {
    && NpmScheme(c.scheme)
    && !(Trim(c.expression) == "" && Trim(c.startIncluding) == "" && Trim(c.startExcluding) == ""
         && Trim(c.endIncluding) == "" && Trim(c.endExcluding) == "")
    && !(Trim(c.startIncluding) != "" && Trim(c.startExcluding) != "")
    && !(Trim(c.endIncluding) != "" && Trim(c.endExcluding) != "")
    && IsBound(c.expression) && IsBound(c.startIncluding) && IsBound(c.startExcluding)
    && IsBound(c.endIncluding) && IsBound(c.endExcluding)
  }

  predicate AtMost(v: Version, w: Version)
    requires ValidVersion(v) && ValidVersion(w)
  {
    v == w || Precedes(v, w)
  }

  /** The versions in the range of an understood constraint. */
  ghost predicate Contains(c: Constraint, v: Version)
    requires ValidVersion(v)
  {
    && (Given(c.expression).Some? ==> v == Given(c.expression).value)
    && (Given(c.startIncluding).Some? ==> From(c.startIncluding, v))
    && (Given(c.startExcluding).Some? ==> After(c.startExcluding, v))
    && (Given(c.endIncluding).Some? ==> UpTo(c.endIncluding, v))
    && (Given(c.endExcluding).Some? ==> Before(c.endExcluding, v))
  }

  lemma GivenIsValid(text: string)
    ensures Given(text).Some? ==> ValidVersion(Given(text).value)
  {
  }

  predicate From(bound: string, v: Version)
    requires ValidVersion(v) && Given(bound).Some?
  {
    GivenIsValid(bound);
    AtMost(Given(bound).value, v)
  }

  predicate After(bound: string, v: Version)
    requires ValidVersion(v) && Given(bound).Some?
  {
    GivenIsValid(bound);
    Precedes(Given(bound).value, v)
  }

  predicate UpTo(bound: string, v: Version)
    requires ValidVersion(v) && Given(bound).Some?
  {
    GivenIsValid(bound);
    AtMost(v, Given(bound).value)
  }

  predicate Before(bound: string, v: Version)
    requires ValidVersion(v) && Given(bound).Some?
  {
    GivenIsValid(bound);
    Precedes(v, Given(bound).value)
  }

  /** A range without an exact version has no holes. */
  lemma RangesAreConvex(c: Constraint, low: Version, v: Version, high: Version)
    requires ValidVersion(low) && ValidVersion(v) && ValidVersion(high)
    requires Trim(c.expression) == "" && Contains(c, low) && Contains(c, high)
    requires AtMost(low, v) && AtMost(v, high)
    ensures Contains(c, v)
  {
    if Given(c.startIncluding).Some? {
      GivenIsValid(c.startIncluding);
      AtMostTransitive(Given(c.startIncluding).value, low, v);
    }
    if Given(c.startExcluding).Some? {
      GivenIsValid(c.startExcluding);
      AtMostTransitive(Given(c.startExcluding).value, low, v);
    }
    if Given(c.endIncluding).Some? {
      GivenIsValid(c.endIncluding);
      AtMostTransitive(v, high, Given(c.endIncluding).value);
    }
    if Given(c.endExcluding).Some? {
      GivenIsValid(c.endExcluding);
      AtMostTransitive(v, high, Given(c.endExcluding).value);
    }
  }

  lemma AtMostTransitive(u: Version, v: Version, w: Version)
    requires ValidVersion(u) && ValidVersion(v) && ValidVersion(w) && AtMost(u, v) && AtMost(v, w)
    ensures AtMost(u, w)
    ensures Precedes(u, v) || Precedes(v, w) ==> Precedes(u, w)
  {
    if Precedes(u, v) && Precedes(v, w) {
      PrecedesTransitive(u, v, w);
    }
  }

  // ---------- evaluating one ----------

  method ReadBound(text: string) returns (ok: bool, given: Option<Version>)
    ensures ok <==> IsBound(text)
    ensures ok ==> given == Given(text)
    ensures given.Some? ==> ValidVersion(given.value)
  {
    GivenIsValid(text);
    if Trim(text) == "" {
      return true, None;
    }
    given := ReadVersion(Trim(text));
    ok := given.Some?;
  }

  method EvaluateConstraint(installed: Version, c: Constraint) returns (matches: bool, applicable: bool)
    requires ValidVersion(installed)
    ensures applicable <==> Applicable(c)
    ensures matches <==> Applicable(c) && Contains(c, installed)
  {
    if !NpmScheme(c.scheme) {
      return false, false;
    }
    var expression, startIncluding, startExcluding := Trim(c.expression), Trim(c.startIncluding), Trim(c.startExcluding);
    var endIncluding, endExcluding := Trim(c.endIncluding), Trim(c.endExcluding);
    if expression == "" && startIncluding == "" && startExcluding == "" && endIncluding == "" && endExcluding == "" {
      return false, false;
    }
    if startIncluding != "" && startExcluding != "" {
      return false, false;
    }
    if endIncluding != "" && endExcluding != "" {
      return false, false;
    }
    var exactOK, exact := ReadBound(c.expression);
    var fromOK, from := ReadBound(c.startIncluding);
    var afterOK, after := ReadBound(c.startExcluding);
    var upToOK, upTo := ReadBound(c.endIncluding);
    var beforeOK, before := ReadBound(c.endExcluding);
    if !exactOK || !fromOK || !afterOK || !upToOK || !beforeOK {
      return false, false;
    }
    matches := Within(installed, exact, from, after, upTo, before);
    applicable := true;
  }

  /** The comparisons, in the order the code makes them. */
  method Within(installed: Version, exact: Option<Version>, from: Option<Version>, after: Option<Version>,
                upTo: Option<Version>, before: Option<Version>) returns (r: bool)
    requires ValidVersion(installed)
    requires (exact.Some? ==> ValidVersion(exact.value)) && (from.Some? ==> ValidVersion(from.value))
    requires (after.Some? ==> ValidVersion(after.value)) && (upTo.Some? ==> ValidVersion(upTo.value))
    requires before.Some? ==> ValidVersion(before.value)
    ensures r <==>
      && (exact.Some? ==> installed == exact.value)
      && (from.Some? ==> AtMost(from.value, installed))
      && (after.Some? ==> Precedes(after.value, installed))
      && (upTo.Some? ==> AtMost(installed, upTo.value))
      && (before.Some? ==> Precedes(installed, before.value))
  {
    hide Precedes, ValidVersion;
    if exact.Some? {
      var d := CompareVersions(installed, exact.value);
      if d != 0 {
        return false;
      }
    }
    if from.Some? {
      PrecedesTotal(installed, from.value);
      var d := CompareVersions(installed, from.value);
      if d < 0 {
        return false;
      }
    }
    if after.Some? {
      PrecedesTotal(installed, after.value);
      var d := CompareVersions(installed, after.value);
      if d <= 0 {
        return false;
      }
    }
    if upTo.Some? {
      PrecedesTotal(installed, upTo.value);
      var d := CompareVersions(installed, upTo.value);
      if d > 0 {
        return false;
      }
    }
    if before.Some? {
      PrecedesTotal(installed, before.value);
      var d := CompareVersions(installed, before.value);
      if d >= 0 {
        return false;
      }
    }
    r := true;
  }

  // ---------- evaluating a list ----------

  predicate NpmEcosystem(ecosystem: string) {
    Lower(Trim(ecosystem)) == "npm"
  }

  /** Some understood constraint contains the installed version. */
  ghost predicate Hits(installed: string, cs: seq<Constraint>) {
    Parse(installed).Some? && exists i :: 0 <= i < |cs| && HitBy(installed, cs[i])
  }

  ghost predicate HitBy(installed: string, c: Constraint)
    requires Parse(installed).Some?
  {
    ParsedIsValid(installed);
    Applicable(c) && Contains(c, Parse(installed).value)
  }

  /** Every constraint is understood, and none contains the installed version. */
  ghost predicate Misses(installed: string, cs: seq<Constraint>) {
    && Parse(installed).Some? && cs != []
    && forall i :: 0 <= i < |cs| ==> Applicable(cs[i]) && !HitBy(installed, cs[i])
  }

  /** What the answer is, whatever the order of the constraints. */
  ghost function StatusOf(ecosystem: string, installed: string, cs: seq<Constraint>): Status {
    if NpmEcosystem(ecosystem) && Hits(installed, cs) then Status.Affected
    else if NpmEcosystem(ecosystem) && Misses(installed, cs) then NotAffected
    else VersionUnknown
  }

  method Evaluate(ecosystem: string, installed: string, cs: seq<Constraint>) returns (r: Status)
    ensures r == StatusOf(ecosystem, installed, cs)
  {
    hide Applicable, Contains, ValidVersion, Parse;
    if Lower(Trim(ecosystem)) != "npm" || |cs| == 0 {
      return VersionUnknown;
    }
    var version := ReadVersion(installed);
    if version.None? {
      return VersionUnknown;
    }
    ParsedIsValid(installed);
    var hasUnknown, hasApplicable := false, false;
    for i := 0 to |cs|
      invariant forall j :: 0 <= j < i ==> !HitBy(installed, cs[j])
      invariant hasUnknown <==> exists j :: 0 <= j < i && !Applicable(cs[j])
      invariant hasApplicable <==> exists j :: 0 <= j < i && Applicable(cs[j])
    {
      var matches, applicable := EvaluateConstraint(version.value, cs[i]);
      if !applicable {
        hasUnknown := true;
        continue;
      }
      hasApplicable := true;
      if matches {
        assert HitBy(installed, cs[i]);
        return Status.Affected;
      }
    }
    if hasUnknown || !hasApplicable {
      assert !Applicable(cs[0]) || hasUnknown;
      return VersionUnknown;
    }
    r := NotAffected;
  }

  /** The order of the constraints, and their repetitions, do not matter. */
  lemma OrderDoesNotMatter(ecosystem: string, installed: string, a: seq<Constraint>, b: seq<Constraint>)
    requires forall c :: c in a <==> c in b
    ensures StatusOf(ecosystem, installed, a) == StatusOf(ecosystem, installed, b)
  {
    if Parse(installed).Some? {
      AsSets(installed, a);
      AsSets(installed, b);
      assert a == [] ==> b == [] by {
        if b != [] {
          assert b[0] in a;
        }
      }
      assert b == [] ==> a == [] by {
        if a != [] {
          assert a[0] in b;
        }
      }
    }
  }

  lemma AsSets(installed: string, cs: seq<Constraint>)
    requires Parse(installed).Some?
    ensures Hits(installed, cs) <==> exists c :: c in cs && HitBy(installed, c)
    ensures Misses(installed, cs) <==> cs != [] && forall c :: c in cs ==> Applicable(c) && !HitBy(installed, c)
  {
  }

  // ---------- with exact OSV evidence ----------

  /** An OSV query sample for exactly the installed spelling. */
  predicate OsvHit(pinned: (string, string) -> bool, ecosystem: string, installed: string, c: Constraint) {
    && c.scheme == "osv" && pinned(ecosystem, installed) && c.expression == installed
    && c.startIncluding == "" && c.startExcluding == "" && c.endIncluding == "" && c.endExcluding == ""
  }

  ghost function OneStatus(pinned: (string, string) -> bool, ecosystem: string, installed: string, c: Constraint): Status {
    if c.scheme == "osv" then (if OsvHit(pinned, ecosystem, installed, c) then Status.Affected else VersionUnknown)
    else StatusOf(ecosystem, installed, [c])
  }

  /** Alternatives: affected if any is, not affected only if all say so. */
  ghost function MixedStatus(pinned: (string, string) -> bool, ecosystem: string, installed: string, cs: seq<Constraint>): Status {
    if exists i :: 0 <= i < |cs| && OneStatus(pinned, ecosystem, installed, cs[i]).Affected? then Status.Affected
    else if cs != [] && forall i :: 0 <= i < |cs| ==> OneStatus(pinned, ecosystem, installed, cs[i]).NotAffected? then NotAffected
    else VersionUnknown
  }

  method EvaluateMixed(pinned: (string, string) -> bool, ecosystem: string, installed: string, cs: seq<Constraint>) returns (r: Status)
    ensures r == MixedStatus(pinned, ecosystem, installed, cs)
  {
    hide StatusOf;
    if |cs| == 0 {
      return VersionUnknown;
    }
    var unknown := false;
    for i := 0 to |cs|
      invariant forall j :: 0 <= j < i ==> !OneStatus(pinned, ecosystem, installed, cs[j]).Affected?
      invariant unknown <==> exists j :: 0 <= j < i && OneStatus(pinned, ecosystem, installed, cs[j]).VersionUnknown?
    {
      var c := cs[i];
      var status := VersionUnknown;
      if c.scheme == "osv" {
        if pinned(ecosystem, installed) && c.expression == installed && c.startIncluding == "" && c.startExcluding == ""
           && c.endIncluding == "" && c.endExcluding == "" {
          status := Status.Affected;
        }
      } else {
        status := Evaluate(ecosystem, installed, [c]);
      }
      if status == Status.Affected {
        return status;
      }
      unknown := unknown || status == VersionUnknown;
    }
    if unknown {
      return VersionUnknown;
    }
    r := NotAffected;
  }

  /** Without OSV evidence the two evaluators agree. */
  lemma EvaluatorsAgree(pinned: (string, string) -> bool, ecosystem: string, installed: string, cs: seq<Constraint>)
    requires forall i :: 0 <= i < |cs| ==> cs[i].scheme != "osv"
    ensures MixedStatus(pinned, ecosystem, installed, cs) == StatusOf(ecosystem, installed, cs)
  {
    hide StatusOf;
    forall i | 0 <= i < |cs|
      ensures OneStatus(pinned, ecosystem, installed, cs[i]) == StatusOf(ecosystem, installed, [cs[i]])
    {
    }
    ListFromOnes(ecosystem, installed, cs);
  }

  /** The answer for a list comes from the answers for its constraints alone. */
  lemma ListFromOnes(ecosystem: string, installed: string, cs: seq<Constraint>)
    ensures StatusOf(ecosystem, installed, cs).Affected? <==>
      exists i :: 0 <= i < |cs| && StatusOf(ecosystem, installed, [cs[i]]).Affected?
    ensures StatusOf(ecosystem, installed, cs).NotAffected? <==>
      cs != [] && forall i :: 0 <= i < |cs| ==> StatusOf(ecosystem, installed, [cs[i]]).NotAffected?
  {
    hide Applicable, Contains, Parse;
    forall i | 0 <= i < |cs|
      ensures StatusOf(ecosystem, installed, [cs[i]]).Affected? <==>
        NpmEcosystem(ecosystem) && Parse(installed).Some? && HitBy(installed, cs[i])
      ensures StatusOf(ecosystem, installed, [cs[i]]).NotAffected? <==>
        NpmEcosystem(ecosystem) && Parse(installed).Some? && Applicable(cs[i]) && !HitBy(installed, cs[i])
    {
      OneAlone(ecosystem, installed, cs[i]);
    }
    if NpmEcosystem(ecosystem) && Hits(installed, cs) {
      var i :| 0 <= i < |cs| && HitBy(installed, cs[i]);
      assert StatusOf(ecosystem, installed, [cs[i]]).Affected?;
    }
    if cs != [] && forall i :: 0 <= i < |cs| ==> StatusOf(ecosystem, installed, [cs[i]]).NotAffected? {
      assert StatusOf(ecosystem, installed, [cs[0]]).NotAffected?;
    }
    if NpmEcosystem(ecosystem) && Misses(installed, cs) {
      forall i | 0 <= i < |cs|
        ensures StatusOf(ecosystem, installed, [cs[i]]).NotAffected?
      {
        assert Applicable(cs[i]) && !HitBy(installed, cs[i]);
      }
    }
  }

  lemma OneAlone(ecosystem: string, installed: string, c: Constraint)
    ensures StatusOf(ecosystem, installed, [c]).Affected? <==>
      NpmEcosystem(ecosystem) && Parse(installed).Some? && HitBy(installed, c)
    ensures StatusOf(ecosystem, installed, [c]).NotAffected? <==>
      NpmEcosystem(ecosystem) && Parse(installed).Some? && Applicable(c) && !HitBy(installed, c)
  {
    assert [c][0] == c;
  }

  /** An OSV sample that does not match is never evidence of not being affected. */
  lemma OsvNeverExcludes(pinned: (string, string) -> bool, ecosystem: string, installed: string, cs: seq<Constraint>, i: nat)
    requires i < |cs| && cs[i].scheme == "osv"
    ensures !MixedStatus(pinned, ecosystem, installed, cs).NotAffected?
  {
  }

  /** A list says affected through a sample of exactly the installed version, or through a range that holds it;
      not affected only when it has ranges alone and each leaves it out. */
  lemma MixedIff(pinned: (string, string) -> bool, ecosystem: string, installed: string, cs: seq<Constraint>)
    ensures MixedStatus(pinned, ecosystem, installed, cs) == Status.Affected <==>
      || (pinned(ecosystem, installed) && Constraint("osv", installed, "", "", "", "") in cs)
      || exists c :: c in cs && c.scheme != "osv" && StatusOf(ecosystem, installed, [c]) == Status.Affected
    ensures MixedStatus(pinned, ecosystem, installed, cs) == NotAffected <==>
      cs != [] && forall c :: c in cs ==> c.scheme != "osv" && StatusOf(ecosystem, installed, [c]) == NotAffected
  {
    hide StatusOf;
    forall c
      ensures OneStatus(pinned, ecosystem, installed, c) == Status.Affected <==>
        || (pinned(ecosystem, installed) && c == Constraint("osv", installed, "", "", "", ""))
        || (c.scheme != "osv" && StatusOf(ecosystem, installed, [c]) == Status.Affected)
      ensures OneStatus(pinned, ecosystem, installed, c) == NotAffected <==>
        c.scheme != "osv" && StatusOf(ecosystem, installed, [c]) == NotAffected
    {
    }
    assert (exists i :: 0 <= i < |cs| && OneStatus(pinned, ecosystem, installed, cs[i]).Affected?) <==>
      exists c :: c in cs && OneStatus(pinned, ecosystem, installed, c).Affected?;
    assert (forall i :: 0 <= i < |cs| ==> OneStatus(pinned, ecosystem, installed, cs[i]).NotAffected?) <==>
      forall c :: c in cs ==> OneStatus(pinned, ecosystem, installed, c).NotAffected?;
    assert MixedStatus(pinned, ecosystem, installed, cs) == NotAffected ==> cs[0] in cs;
    if cs != [] && forall c :: c in cs ==> c.scheme != "osv" && StatusOf(ecosystem, installed, [c]) == NotAffected {
      forall c | c in cs
        ensures !OneStatus(pinned, ecosystem, installed, c).Affected?
      {
      }
    }
  }

  // ---------- the bounds of a range ----------

  lemma PrintedGiven(v: Version)
    requires ValidVersion(v)
    ensures Trim(Print(v)) == Print(v) != "" && Given(Print(v)) == Some(v) && IsBound(Print(v))
  {
    hide Print, ValidVersion, Parse;
    PrintEnds(v);
    SpaceIsNoDigit(Print(v)[0]);
    TrimmedAlready(Print(v));
    RoundTrip(v);
  }

  lemma SpaceIsNoDigit(c: char)
    ensures IsDigit(c) ==> !IsSpace(c)
  {
  }

  lemma NothingGiven()
    ensures Trim("") == "" && Given("").None? && IsBound("")
  {
  }

  /** Each bound alone: a start that is included or not, an end that is included or not, and one exact
      version. */
  lemma BoundsMean(scheme: string, b: Version, v: Version)
    requires ValidVersion(b) && ValidVersion(v)
    ensures
      var text := Print(b);
      && (Contains(Constraint(scheme, "", text, "", "", ""), v) <==> v == b || Precedes(b, v))
      && (Contains(Constraint(scheme, "", "", text, "", ""), v) <==> Precedes(b, v))
      && (Contains(Constraint(scheme, "", "", "", text, ""), v) <==> v == b || Precedes(v, b))
      && (Contains(Constraint(scheme, "", "", "", "", text), v) <==> Precedes(v, b))
      && (Contains(Constraint(scheme, text, "", "", "", ""), v) <==> v == b)
  {
    hide Print, ValidVersion, Precedes, Given;
    PrintedGiven(b);
    NothingGiven();
  }

  /** The schemes that are understood, by their plain names. */
  lemma SchemesAre(scheme: string)
    requires scheme != "" && !IsSpace(scheme[0]) && !IsSpace(scheme[|scheme| - 1])
    requires forall i :: 0 <= i < |scheme| ==> !('A' <= scheme[i] <= 'Z')
    ensures NpmScheme(scheme) <==> scheme in {"npm", "semver", "cpe"}
  {
    TrimmedAlready(scheme);
    LowerAlready(scheme);
  }

  /** The everyday range, from a first affected version up to the fixed one: it is answered for every
      version, and decided by where the version stands. */
  lemma FixedRange(installed: Version, first: Version, fixed: Version)
    requires ValidVersion(installed) && ValidVersion(first) && ValidVersion(fixed)
    ensures
      var range := [Constraint("npm", "", Print(first), "", "", Print(fixed))];
      var answer := StatusOf("npm", Print(installed), range);
      if (installed == first || Precedes(first, installed)) && Precedes(installed, fixed) then answer == Status.Affected
      else answer == NotAffected
  {
    hide Print, ValidVersion, Precedes, Given, Parse, NpmScheme, StatusOf;
    RoundTrip(installed);
    PrintedGiven(first);
    PrintedGiven(fixed);
    NothingGiven();
    NpmIsNpm();
    var c := Constraint("npm", "", Print(first), "", "", Print(fixed));
    assert Applicable(c);
    OneAlone("npm", Print(installed), c);
    AnswerOfOne(Print(installed), c);
  }

  lemma NpmIsNpm()
    ensures NpmScheme("npm") && NpmEcosystem("npm")
  {
    TrimmedAlready("npm");
    LowerAlready("npm");
  }

  lemma AnswerOfOne(installed: string, c: Constraint)
    requires Parse(installed).Some? && Applicable(c)
    ensures StatusOf("npm", installed, [c]) == if HitBy(installed, c) then Status.Affected else NotAffected
  {
    hide Parse, Applicable, Contains;
    NpmIsNpm();
    OneAlone("npm", installed, c);
  }

  /** When a constraint has no answer: its scheme is not known, it says nothing or one of its ends twice, or
      something in it is not a version. */
  lemma UnknownIff(installed: Version, c: Constraint)
    requires ValidVersion(installed)
    ensures
      var texts := {c.expression, c.startIncluding, c.startExcluding, c.endIncluding, c.endExcluding};
      StatusOf("npm", Print(installed), [c]) == VersionUnknown <==>
        || Lower(Trim(c.scheme)) !in {"npm", "semver", "cpe"}
        || (forall t :: t in texts ==> Trim(t) == "")
        || (Trim(c.startIncluding) != "" && Trim(c.startExcluding) != "")
        || (Trim(c.endIncluding) != "" && Trim(c.endExcluding) != "")
        || exists t :: t in texts && Trim(t) != "" && forall v :: !Spells(Trim(t), v)
  {
    hide Print, ValidVersion, Parse, StatusOf, HitBy, Applicable, Spells, Lower, Trim;
    RoundTrip(installed);
    AnsweredIff(Print(installed), c);
    ApplicableIff(c);
  }

  lemma AnsweredIff(installed: string, c: Constraint)
    requires Parse(installed).Some?
    ensures StatusOf("npm", installed, [c]) != VersionUnknown <==> Applicable(c)
  {
    hide Parse, Applicable, Contains;
    NpmIsNpm();
    OneAlone("npm", installed, c);
  }

  lemma ApplicableIff(c: Constraint)
    ensures
      var texts := {c.expression, c.startIncluding, c.startExcluding, c.endIncluding, c.endExcluding};
      Applicable(c) <==>
        && Lower(Trim(c.scheme)) in {"npm", "semver", "cpe"}
        && (exists t :: t in texts && Trim(t) != "")
        && (Trim(c.startIncluding) == "" || Trim(c.startExcluding) == "")
        && (Trim(c.endIncluding) == "" || Trim(c.endExcluding) == "")
        && forall t :: t in texts && Trim(t) != "" ==> exists v :: Spells(Trim(t), v)
  {
    hide Parse, Spells, Lower, Trim, IsBound;
    forall t
      ensures IsBound(t) <==> Trim(t) == "" || exists v :: Spells(Trim(t), v)
    {
      BoundIff(t);
    }
    var texts := {c.expression, c.startIncluding, c.startExcluding, c.endIncluding, c.endExcluding};
    assert c.expression in texts && c.startIncluding in texts && c.startExcluding in texts && c.endIncluding in texts && c.endExcluding in texts;
  }

  lemma BoundIff(t: string)
    ensures IsBound(t) <==> Trim(t) == "" || exists v :: Spells(Trim(t), v)
  {
    hide Spells;
    if Parse(Trim(t)).Some? {
      ParseSpells(Trim(t), Parse(Trim(t)).value);
    }
    if v :| Spells(Trim(t), v) {
      ParseSpells(Trim(t), v);
    }
  }

  /** Constraints without an answer never exclude, and do not change what the others say. */
  lemma UnansweredSaysNothing(ecosystem: string, installed: string, before: seq<Constraint>, c: Constraint, rest: seq<Constraint>)
    requires StatusOf(ecosystem, installed, [c]) == VersionUnknown
    ensures StatusOf(ecosystem, installed, before + [c] + rest) != NotAffected
    ensures StatusOf(ecosystem, installed, before + [c] + rest) == Status.Affected <==> StatusOf(ecosystem, installed, before + rest) == Status.Affected
  {
    hide NpmEcosystem, Applicable, Contains, Parse;
    var all := before + [c] + rest;
    OneAlone(ecosystem, installed, c);
    assert all[|before|] == c;
    if Parse(installed).Some? && NpmEcosystem(ecosystem) {
      assert !Applicable(c) && !HitBy(installed, c);
      if i :| 0 <= i < |all| && HitBy(installed, all[i]) {
        var j := if i < |before| then i else i - 1;
        assert (before + rest)[j] == all[i];
      }
      if j :| 0 <= j < |before + rest| && HitBy(installed, (before + rest)[j]) {
        var i := if j < |before| then j else j + 1;
        assert all[i] == (before + rest)[j];
      }
    }
  }
}
