module SemVer {
  // Semantic versions (src/ecosystem/npm/version.go): parsing against the printed form, and the
  // comparison against precedence as section 11 of Semantic Versioning 2.0.0 defines it.

  import opened ScanTypes
  import opened Text
  import opened Strings

  datatype Identifier = Identifier(value: string, numeric: bool)

  datatype Version = Version(major: string, minor: string, patch: string, prerelease: seq<Identifier>)

  // ---------- grammar ----------

  predicate AllDigits(s: string) {
    forall i :: 0 <= i < |s| ==> IsDigit(s[i])
  }

  /** A number without leading zeros. */
  predicate IsNumber(s: string) {
    s != "" && AllDigits(s) && (|s| > 1 ==> s[0] != '0')
  }

  predicate IsIdentifierChar(c: char) {
    IsDigit(c) || 'A' <= c <= 'Z' || 'a' <= c <= 'z' || c == '-'
  }

  predicate IsIdentifier(s: string) {
    s != "" && forall i :: 0 <= i < |s| ==> IsIdentifierChar(s[i])
  }

  predicate ValidIdentifier(x: Identifier) {
    IsIdentifier(x.value) && (x.numeric <==> AllDigits(x.value)) && (x.numeric ==> IsNumber(x.value))
  }

  predicate ValidVersion(v: Version) {
    && IsNumber(v.major) && IsNumber(v.minor) && IsNumber(v.patch)
    && forall i :: 0 <= i < |v.prerelease| ==> ValidIdentifier(v.prerelease[i])
  }

  function Texts(ids: seq<Identifier>): (r: seq<string>)
    ensures |r| == |ids| && forall i :: 0 <= i < |ids| ==> r[i] == ids[i].value
  {
    seq(|ids|, i requires 0 <= i < |ids| => ids[i].value)
  }

  function PrintCore(v: Version): string {
    Join([v.major, v.minor, v.patch], '.')
  }

  function Print(v: Version): string {
    if v.prerelease == [] then PrintCore(v) else PrintCore(v) + "-" + Join(Texts(v.prerelease), '.')
  }

  /** Build metadata: dot-separated identifiers. */
  predicate IsDotted(s: string) {
    forall i :: 0 <= i < |Split(s, '.')| ==> IsIdentifier(Split(s, '.')[i])
  }

  predicate IsBuild(s: string) {
    s == "" || (s[0] == '+' && IsDotted(s[1..]))
  }

  /** The text without surrounding space and without one leading v. */
  function Body(s: string): string {
    var t := Trim(s);
    if t != "" && t[0] == 'v' then t[1..] else t
  }

  /** s is a spelling of v. */
  ghost predicate Spells(s: string, v: Version) {
    ValidVersion(v) && exists build :: IsBuild(build) && Body(s) == Print(v) + build
  }

  // ---------- precedence ----------

  function Digit(c: char): nat
    requires IsDigit(c)
  {
    c as int - '0' as int
  }

  /** The number that digits stand for. */
  function Value(s: string): nat
    requires AllDigits(s)
  {
    if s == "" then 0 else 10 * Value(s[..|s| - 1]) + Digit(s[|s| - 1])
  }

  predicate IdentifierLess(x: Identifier, y: Identifier)
    requires ValidIdentifier(x) && ValidIdentifier(y)
  {
    if x.numeric && y.numeric then Value(x.value) < Value(y.value)
    else if x.numeric != y.numeric then x.numeric
    else Less(x.value, y.value)
  }

  predicate ValidIdentifiers(a: seq<Identifier>) {
    forall i :: 0 <= i < |a| ==> ValidIdentifier(a[i])
  }

  /** Left to right; what is equal so far and longer goes after. */
  predicate IdentifiersLess(a: seq<Identifier>, b: seq<Identifier>)
    requires ValidIdentifiers(a) && ValidIdentifiers(b)
  {
    b != [] && (a == [] || IdentifierLess(a[0], b[0]) || (a[0] == b[0] && IdentifiersLess(a[1..], b[1..])))
  }

  /** Section 11: major, minor and patch numerically; a prerelease before the release. */
  predicate Precedes(v: Version, w: Version)
    requires ValidVersion(v) && ValidVersion(w)
  {
    if Value(v.major) != Value(w.major) then Value(v.major) < Value(w.major)
    else if Value(v.minor) != Value(w.minor) then Value(v.minor) < Value(w.minor)
    else if Value(v.patch) != Value(w.patch) then Value(v.patch) < Value(w.patch)
    else if v.prerelease == [] then false
    else w.prerelease == [] || IdentifiersLess(v.prerelease, w.prerelease)
  }

  // ---------- numbers: shorter is smaller, equally long compares as text ----------

  function Pow10(n: nat): nat {
    if n == 0 then 1 else 10 * Pow10(n - 1)
  }

  lemma {:induction false} ValueBelow(s: string)
    requires AllDigits(s)
    ensures Value(s) < Pow10(|s|)
  {
    if s != "" {
      ValueBelow(s[..|s| - 1]);
    }
  }

  lemma {:induction false} ValueAtLeast(s: string)
    requires IsNumber(s) && s[0] != '0'
    ensures Pow10(|s| - 1) <= Value(s)
  {
    if |s| > 1 {
      ValueAtLeast(s[..|s| - 1]);
    } else {
      assert s[..0] == "";
    }
  }

  lemma {:induction false} Pow10Grows(m: nat, n: nat)
    requires m <= n
    ensures Pow10(m) <= Pow10(n)
  {
    if m < n {
      Pow10Grows(m, n - 1);
    }
  }

  lemma {:induction false} ShorterIsSmaller(a: string, b: string)
    requires IsNumber(a) && IsNumber(b) && |a| < |b|
    ensures Value(a) < Value(b)
  {
    ValueBelow(a);
    Pow10Grows(|a|, |b| - 1);
    ValueAtLeast(b);
  }

  /** Text order looked at from the end. */
  lemma {:induction false} LessByLast(a: string, b: string)
    requires |a| == |b| > 0
    ensures
      var m := |a| - 1;
      Less(a, b) <==> Less(a[..m], b[..m]) || (a[..m] == b[..m] && a[m] < b[m])
  {
    var m := |a| - 1;
    if m > 0 {
      LessByLast(a[1..], b[1..]);
      assert a[1..][..m - 1] == a[..m][1..] && b[1..][..m - 1] == b[..m][1..];
      assert a[..m] == [a[0]] + a[..m][1..] && b[..m] == [b[0]] + b[..m][1..];
    } else {
      assert a[1..] == "" && b[1..] == "";
    }
  }

  lemma {:induction false} SameLengthByText(a: string, b: string)
    requires AllDigits(a) && AllDigits(b) && |a| == |b|
    ensures Less(a, b) <==> Value(a) < Value(b)
    ensures a == b <==> Value(a) == Value(b)
  {
    if a != "" {
      var m := |a| - 1;
      SameLengthByText(a[..m], b[..m]);
      LessByLast(a, b);
      assert a == a[..m] + [a[m]] && b == b[..m] + [b[m]];
    }
  }

  lemma SameValueSameText(a: string, b: string)
    requires IsNumber(a) && IsNumber(b) && Value(a) == Value(b)
    ensures a == b
  {
    if |a| < |b| {
      ShorterIsSmaller(a, b);
    } else if |b| < |a| {
      ShorterIsSmaller(b, a);
    } else {
      SameLengthByText(a, b);
    }
  }

  function Sign(less: bool, greater: bool): int {
    if less then -1 else if greater then 1 else 0
  }

  /** Length first, then text: numeric order, however long the numbers. */
  method CompareNumericIdentifier(left: string, right: string) returns (r: int)
    requires IsNumber(left) && IsNumber(right)
    ensures r == Sign(Value(left) < Value(right), Value(left) > Value(right))
  {
    if |left| < |right| {
      ShorterIsSmaller(left, right);
      return -1;
    }
    if |left| > |right| {
      ShorterIsSmaller(right, left);
      return 1;
    }
    SameLengthByText(left, right);
    SameLengthByText(right, left);
    if Less(left, right) {
      return -1;
    }
    if Less(right, left) {
      return 1;
    }
    r := 0;
    LessTotal(left, right);
  }

  // ---------- precedence is a total order ----------

  lemma IdentifierTotal(x: Identifier, y: Identifier)
    requires ValidIdentifier(x) && ValidIdentifier(y)
    ensures IdentifierLess(x, y) || IdentifierLess(y, x) || x == y
    ensures !(IdentifierLess(x, y) && IdentifierLess(y, x))
    ensures !IdentifierLess(x, x)
  {
    LessIrreflexive(x.value);
    if x.numeric && y.numeric {
      if Value(x.value) == Value(y.value) {
        SameValueSameText(x.value, y.value);
      }
    } else {
      LessTotal(x.value, y.value);
      if Less(x.value, y.value) {
        LessAsymmetric(x.value, y.value);
      }
    }
  }

  lemma IdentifierTransitive(x: Identifier, y: Identifier, z: Identifier)
    requires ValidIdentifier(x) && ValidIdentifier(y) && ValidIdentifier(z)
    requires IdentifierLess(x, y) && IdentifierLess(y, z)
    ensures IdentifierLess(x, z)
  {
    if !x.numeric && !y.numeric && !z.numeric {
      LessTransitive(x.value, y.value, z.value);
    }
  }

  lemma {:induction false} IdentifiersTotal(a: seq<Identifier>, b: seq<Identifier>)
    requires ValidIdentifiers(a) && ValidIdentifiers(b)
    ensures IdentifiersLess(a, b) || IdentifiersLess(b, a) || a == b
    ensures !(IdentifiersLess(a, b) && IdentifiersLess(b, a))
    ensures !IdentifiersLess(a, a)
  {
    if a != [] {
      IdentifierTotal(a[0], a[0]);
      IdentifiersTotal(a[1..], a[1..]);
    }
    if a != [] && b != [] {
      IdentifierTotal(a[0], b[0]);
      IdentifiersTotal(a[1..], b[1..]);
      assert a == [a[0]] + a[1..] && b == [b[0]] + b[1..];
    }
  }

  lemma {:induction false} IdentifiersTransitive(a: seq<Identifier>, b: seq<Identifier>, c: seq<Identifier>)
    requires ValidIdentifiers(a) && ValidIdentifiers(b) && ValidIdentifiers(c)
    requires IdentifiersLess(a, b) && IdentifiersLess(b, c)
    ensures IdentifiersLess(a, c)
  {
    if a != [] {
      if IdentifierLess(a[0], b[0]) && IdentifierLess(b[0], c[0]) {
        IdentifierTransitive(a[0], b[0], c[0]);
      } else if a[0] == b[0] == c[0] {
        IdentifiersTransitive(a[1..], b[1..], c[1..]);
      }
    }
  }

  lemma PrecedesTotal(v: Version, w: Version)
    requires ValidVersion(v) && ValidVersion(w)
    ensures Precedes(v, w) || Precedes(w, v) || v == w
    ensures !(Precedes(v, w) && Precedes(w, v))
    ensures !Precedes(v, v)
  {
    IdentifiersTotal(v.prerelease, w.prerelease);
    IdentifiersTotal(v.prerelease, v.prerelease);
    if Value(v.major) == Value(w.major) && Value(v.minor) == Value(w.minor) && Value(v.patch) == Value(w.patch) {
      SameValueSameText(v.major, w.major);
      SameValueSameText(v.minor, w.minor);
      SameValueSameText(v.patch, w.patch);
    }
  }

  lemma PrecedesTransitive(u: Version, v: Version, w: Version)
    requires ValidVersion(u) && ValidVersion(v) && ValidVersion(w)
    requires Precedes(u, v) && Precedes(v, w)
    ensures Precedes(u, w)
  {
    if u.prerelease != [] && v.prerelease != [] && w.prerelease != []
       && IdentifiersLess(u.prerelease, v.prerelease) && IdentifiersLess(v.prerelease, w.prerelease) {
      IdentifiersTransitive(u.prerelease, v.prerelease, w.prerelease);
    }
  }

  // ---------- comparing ----------

  lemma {:induction false} CommonPrefix(a: seq<Identifier>, b: seq<Identifier>, i: nat)
    requires ValidIdentifiers(a) && ValidIdentifiers(b) && i <= |a| && i <= |b| && a[..i] == b[..i]
    ensures IdentifiersLess(a, b) <==> IdentifiersLess(a[i..], b[i..])
    decreases i
  {
    if i == 0 {
      assert a[0..] == a && b[0..] == b;
    } else {
      assert a[0] == a[..i][0] && b[0] == b[..i][0];
      IdentifierTotal(a[0], b[0]);
      assert a[1..][..i - 1] == a[..i][1..] && b[1..][..i - 1] == b[..i][1..];
      CommonPrefix(a[1..], b[1..], i - 1);
      assert a[1..][i - 1..] == a[i..] && b[1..][i - 1..] == b[i..];
    }
  }

  method ComparePrerelease(left: seq<Identifier>, right: seq<Identifier>) returns (r: int)
    requires ValidIdentifiers(left) && ValidIdentifiers(right)
    ensures r == if left == [] && right == [] then 0 else if left == [] then 1 else if right == [] then -1
                 else Sign(IdentifiersLess(left, right), IdentifiersLess(right, left))
  {
    if |left| == 0 && |right| == 0 {
      return 0;
    }
    if |left| == 0 {
      return 1;
    }
    if |right| == 0 {
      return -1;
    }
    var length := |left|;
    if |right| < length {
      length := |right|;
    }
    for i := 0 to length
      invariant left[..i] == right[..i]
    {
      CommonPrefix(left, right, i);
      CommonPrefix(right, left, i);
      r := CompareIdentifier(left[i], right[i]);
      IdentifierTotal(left[i], right[i]);
      if r != 0 {
        return;
      }
      assert left[..i + 1] == left[..i] + [left[i]] && right[..i + 1] == right[..i] + [right[i]];
    }
    CommonPrefix(left, right, length);
    CommonPrefix(right, left, length);
    if |left| < |right| {
      return -1;
    }
    if |left| > |right| {
      return 1;
    }
    r := 0;
  }

  method CompareIdentifier(x: Identifier, y: Identifier) returns (r: int)
    requires ValidIdentifier(x) && ValidIdentifier(y)
    ensures r == Sign(IdentifierLess(x, y), IdentifierLess(y, x))
    ensures r == 0 <==> x == y
  {
    IdentifierTotal(x, y);
    if x.numeric && y.numeric {
      r := CompareNumericIdentifier(x.value, y.value);
      return;
    }
    if x.numeric != y.numeric {
      if x.numeric {
        return -1;
      }
      return 1;
    }
    if Less(x.value, y.value) {
      return -1;
    }
    if Less(y.value, x.value) {
      return 1;
    }
    r := 0;
  }

  /** compareSemanticVersions decides precedence, and is zero only for the same version. */
  method CompareVersions(left: Version, right: Version) returns (r: int)
    requires ValidVersion(left) && ValidVersion(right)
    ensures r == Sign(Precedes(left, right), Precedes(right, left))
    ensures r == 0 <==> left == right
  {
    PrecedesTotal(left, right);
    r := CompareNumericIdentifier(left.major, right.major);
    if r != 0 {
      return;
    }
    r := CompareNumericIdentifier(left.minor, right.minor);
    if r != 0 {
      return;
    }
    r := CompareNumericIdentifier(left.patch, right.patch);
    if r != 0 {
      return;
    }
    r := ComparePrerelease(left.prerelease, right.prerelease);
  }

  // ---------- parsing ----------

  function MakeIdentifier(part: string): Identifier {
    Identifier(part, AllDigits(part))
  }

  function MakeIdentifiers(parts: seq<string>): (ids: seq<Identifier>)
    ensures |ids| == |parts| && forall i :: 0 <= i < |ids| ==> ids[i] == MakeIdentifier(parts[i])
  {
    seq(|parts|, i requires 0 <= i < |parts| => MakeIdentifier(parts[i]))
  }

  predicate LeadingZero(part: string) {
    AllDigits(part) && |part| > 1 && part[0] == '0'
  }

  function ParsePrerelease(s: string): Option<seq<Identifier>> {
    var parts := Split(s, '.');
    if IsDotted(s) && forall i :: 0 <= i < |parts| ==> !LeadingZero(parts[i]) then
      Some(MakeIdentifiers(parts))
    else None
  }

  function ParseCore(core: string, prerelease: seq<Identifier>): Option<Version> {
    var parts := Split(core, '.');
    if |parts| == 3 && IsNumber(parts[0]) && IsNumber(parts[1]) && IsNumber(parts[2]) then
      Some(Version(parts[0], parts[1], parts[2], prerelease))
    else None
  }

  function ParsePrecedence(t: string): Option<Version> {
    var hyphen := Find(t, '-');
    if hyphen == |t| then ParseCore(t, [])
    else
      var prerelease := ParsePrerelease(t[hyphen + 1..]);
      if prerelease.None? then None else ParseCore(t[..hyphen], prerelease.value)
  }

  predicate HasSpace(t: string) {
    exists i :: 0 <= i < |t| && (t[i] == ' ' || t[i] == '\t' || t[i] == '\r' || t[i] == '\n')
  }

  function ParseBody(t: string): Option<Version> {
    if t == "" || HasSpace(t) then None
    else
      var plus := Find(t, '+');
      if plus < |t| && !(Lacks(t[plus + 1..], '+') && IsDotted(t[plus + 1..])) then None
      else ParsePrecedence(t[..plus])
  }

  /** parseSemanticVersion; ParseSpells says what it accepts. */
  function Parse(s: string): Option<Version> {
    ParseBody(Body(s))
  }

  predicate IsPlain(c: char) {
    IsIdentifierChar(c) || c == '.' || c == '+'
  }

  predicate Plain(s: string) {
    forall i :: 0 <= i < |s| ==> IsPlain(s[i])
  }

  lemma {:induction false} JoinPlain(parts: seq<string>)
    requires parts != [] && forall i :: 0 <= i < |parts| ==> Plain(parts[i])
    ensures Plain(Join(parts, '.'))
  {
    if |parts| > 1 {
      JoinPlain(parts[1..]);
    }
  }

  lemma NumberIsIdentifier(s: string)
    requires IsNumber(s)
    ensures IsIdentifier(s) && Lacks(s, '.') && Lacks(s, '-') && Lacks(s, '+') && Plain(s)
  {
  }

  lemma IdentifierLacks(s: string)
    requires IsIdentifier(s)
    ensures Lacks(s, '.') && Lacks(s, '+') && Plain(s)
  {
  }

  lemma CoreText(v: Version)
    requires ValidVersion(v)
    ensures var core := PrintCore(v); Lacks(core, '-') && Lacks(core, '+') && Plain(core) && core != ""
    ensures ParseCore(PrintCore(v), v.prerelease) == Some(v)
  {
    var parts := [v.major, v.minor, v.patch];
    NumberIsIdentifier(v.major);
    NumberIsIdentifier(v.minor);
    NumberIsIdentifier(v.patch);
    JoinLacks(parts, '.', '-');
    JoinLacks(parts, '.', '+');
    JoinPlain(parts);
    SplitJoin(parts, '.');
    assert |PrintCore(v)| > |v.major|;
  }

  lemma PrereleaseText(ids: seq<Identifier>)
    requires ids != [] && ValidIdentifiers(ids)
    ensures var text := Join(Texts(ids), '.'); Lacks(text, '+') && Plain(text) && ParsePrerelease(text) == Some(ids)
  {
    var parts := Texts(ids);
    forall i | 0 <= i < |parts|
      ensures IsIdentifier(parts[i]) && Lacks(parts[i], '.') && Lacks(parts[i], '+') && Plain(parts[i]) && !LeadingZero(parts[i])
      ensures MakeIdentifier(parts[i]) == ids[i]
    {
      assert ValidIdentifier(ids[i]);
      IdentifierLacks(parts[i]);
    }
    JoinLacks(parts, '.', '+');
    JoinPlain(parts);
    SplitJoin(parts, '.');
    assert MakeIdentifiers(parts) == ids;
  }

  /** A printed version parses back. */
  lemma ParsePrinted(v: Version)
    requires ValidVersion(v)
    ensures ParsePrecedence(Print(v)) == Some(v) && Lacks(Print(v), '+') && Plain(Print(v)) && Print(v) != ""
  {
    hide ParseCore, PrintCore, ParsePrerelease;
    CoreText(v);
    var core := PrintCore(v);
    if v.prerelease == [] {
      FindIs(core, '-', |core|);
    } else {
      var text := Join(Texts(v.prerelease), '.');
      PrereleaseText(v.prerelease);
      assert Print(v) == core + ['-'] + text;
      FindIs(Print(v), '-', |core|);
      assert Print(v)[..|core|] == core && Print(v)[|core| + 1..] == text;
    }
  }

  lemma BuildText(build: string)
    requires IsBuild(build) && build != ""
    ensures Lacks(build[1..], '+') && Plain(build)
  {
    var rest := build[1..];
    JoinSplit(rest, '.');
    forall i | 0 <= i < |Split(rest, '.')|
      ensures Lacks(Split(rest, '.')[i], '+') && Plain(Split(rest, '.')[i])
    {
      IdentifierLacks(Split(rest, '.')[i]);
    }
    JoinLacks(Split(rest, '.'), '.', '+');
    JoinPlain(Split(rest, '.'));
    assert build == [build[0]] + rest;
  }

  lemma ParseComplete(t: string, v: Version, build: string)
    requires ValidVersion(v) && IsBuild(build) && t == Print(v) + build
    ensures ParseBody(t) == Some(v)
  {
    hide ParsePrecedence, Print, ValidVersion;
    ParsePrinted(v);
    var n := |Print(v)|;
    if build != "" {
      BuildText(build);
      assert t[n + 1..] == build[1..];
    }
    assert Plain(t) by {
      forall i | 0 <= i < |t|
        ensures IsPlain(t[i])
      {
        if i >= n {
          assert t[i] == build[i - n];
        }
      }
    }
    assert !HasSpace(t);
    FindIs(t, '+', n);
    assert t[..n] == Print(v);
  }

  lemma PrereleaseSound(s: string)
    requires ParsePrerelease(s).Some?
    ensures var ids := ParsePrerelease(s).value; ids != [] && ValidIdentifiers(ids) && Join(Texts(ids), '.') == s
  {
    var ids := ParsePrerelease(s).value;
    JoinSplit(s, '.');
    assert Texts(ids) == Split(s, '.');
  }

  lemma PrecedenceSound(t: string)
    requires ParsePrecedence(t).Some?
    ensures var v := ParsePrecedence(t).value; ValidVersion(v) && Print(v) == t
  {
    var v := ParsePrecedence(t).value;
    var hyphen := Find(t, '-');
    var core := t[..hyphen];
    assert hyphen == |t| ==> core == t;
    JoinSplit(core, '.');
    assert [v.major, v.minor, v.patch] == Split(core, '.');
    if hyphen < |t| {
      PrereleaseSound(t[hyphen + 1..]);
      assert t == core + ['-'] + t[hyphen + 1..];
    }
  }

  lemma ParseSound(t: string)
    requires ParseBody(t).Some?
    ensures
      var v := ParseBody(t).value;
      var plus := Find(t, '+');
      ValidVersion(v) && IsBuild(t[plus..]) && t == Print(v) + t[plus..]
  {
    hide ParsePrecedence, Print, ValidVersion;
    var plus := Find(t, '+');
    PrecedenceSound(t[..plus]);
    if plus < |t| {
      assert t[plus..][1..] == t[plus + 1..];
    }
  }

  /** Exactly the spellings of a version parse, and to that version: its printed form, perhaps with
      build metadata, a leading v and surrounding space. */
  lemma ParseSpells(s: string, v: Version)
    ensures Parse(s) == Some(v) <==> Spells(s, v)
  {
    var t := Body(s);
    if Parse(s) == Some(v) {
      ParseSound(t);
      assert IsBuild(t[Find(t, '+')..]);
    }
    if Spells(s, v) {
      var build :| IsBuild(build) && t == Print(v) + build;
      ParseComplete(t, v, build);
    }
  }

  lemma ParsedIsValid(s: string)
    requires Parse(s).Some?
    ensures ValidVersion(Parse(s).value)
  {
  }

  /** Printing a version and parsing it again gives it back, with or without a leading v. */
  lemma RoundTrip(v: Version)
    requires ValidVersion(v)
    ensures Parse(Print(v)) == Some(v) && Parse("v" + Print(v)) == Some(v)
  {
    hide Print, ValidVersion, ParseBody;
    ParsePrinted(v);
    PrintEnds(v);
    var text := Print(v);
    assert IsBuild("") && text == text + "";
    TrimmedAlready(text);
    TrimmedAlready("v" + text);
    assert ("v" + text)[1..] == text;
    ParseComplete(text, v, "");
  }

  lemma PrintEnds(v: Version)
    requires ValidVersion(v)
    ensures Print(v) != "" && IsDigit(Print(v)[0]) && !IsSpace(Print(v)[|Print(v)| - 1])
  {
    ParsePrinted(v);
    assert IsPlain(Print(v)[|Print(v)| - 1]);
    assert PrintCore(v)[0] == v.major[0];
  }

  method ValidCoreNumber(value: string) returns (ok: bool)
    ensures ok <==> IsNumber(value)
  {
    if value == "" || (|value| > 1 && value[0] == '0') {
      return false;
    }
    for i := 0 to |value|
      invariant forall j :: 0 <= j < i ==> IsDigit(value[j])
    {
      if value[i] < '0' || value[i] > '9' {
        return false;
      }
    }
    ok := true;
  }

  method ValidDotIdentifiers(value: string) returns (ok: bool)
    ensures ok <==> IsDotted(value)
  {
    var parts := Split(value, '.');
    if value == "" {
      assert !IsIdentifier(parts[0]);
      return false;
    }
    for i := 0 to |parts|
      invariant forall j :: 0 <= j < i ==> IsIdentifier(parts[j])
    {
      if parts[i] == "" {
        return false;
      }
      for j := 0 to |parts[i]|
        invariant forall k :: 0 <= k < j ==> IsIdentifierChar(parts[i][k])
      {
        if !IsIdentifierChar(parts[i][j]) {
          return false;
        }
      }
    }
    ok := true;
  }

  method ReadPrerelease(value: string) returns (r: Option<seq<Identifier>>)
    ensures r == ParsePrerelease(value)
  {
    var dotted := ValidDotIdentifiers(value);
    if !dotted {
      return None;
    }
    var parts := Split(value, '.');
    var result: seq<Identifier> := [];
    for i := 0 to |parts|
      invariant |result| == i && forall j :: 0 <= j < i ==> result[j] == MakeIdentifier(parts[j]) && !LeadingZero(parts[j])
    {
      var numeric := true;
      var j := 0;
      while j < |parts[i]| && numeric
        invariant j <= |parts[i]|
        invariant numeric ==> forall k :: 0 <= k < j ==> IsDigit(parts[i][k])
        invariant !numeric ==> !AllDigits(parts[i])
      {
        if parts[i][j] < '0' || parts[i][j] > '9' {
          numeric := false;
        }
        j := j + 1;
      }
      if numeric && |parts[i]| > 1 && parts[i][0] == '0' {
        assert LeadingZero(parts[i]);
        return None;
      }
      result := result + [Identifier(parts[i], numeric)];
    }
    assert result == MakeIdentifiers(parts);
    r := Some(result);
  }

  method ReadVersion(s: string) returns (r: Option<Version>)
    ensures r == Parse(s)
    ensures r.Some? ==> Spells(s, r.value)
  {
    var value := Trim(s);
    if value != "" && value[0] == 'v' {
      value := value[1..];
    }
    if value == "" || HasSpace(value) {
      return None;
    }
    var plus := Find(value, '+');
    if plus < |value| {
      var dotted := ValidDotIdentifiers(value[plus + 1..]);
      if !Lacks(value[plus + 1..], '+') || !dotted {
        return None;
      }
    }
    var precedence := value[..plus];
    var hyphen := Find(precedence, '-');
    var prerelease: Option<seq<Identifier>> := Some([]);
    if hyphen < |precedence| {
      prerelease := ReadPrerelease(precedence[hyphen + 1..]);
      if prerelease.None? {
        return None;
      }
    }
    var core := precedence[..hyphen];
    assert hyphen == |precedence| ==> core == precedence;
    r := ReadCore(core, prerelease.value);
    if r.Some? {
      ParseSpells(s, r.value);
    }
  }

  method ReadCore(core: string, prerelease: seq<Identifier>) returns (r: Option<Version>)
    ensures r == ParseCore(core, prerelease)
  {
    var parts := Split(core, '.');
    if |parts| != 3 {
      return None;
    }
    for i := 0 to 3
      invariant forall j :: 0 <= j < i ==> IsNumber(parts[j])
    {
      var ok := ValidCoreNumber(parts[i]);
      if !ok {
        assert i == 0 || i == 1 || i == 2;
        return None;
      }
    }
    r := Some(Version(parts[0], parts[1], parts[2], prerelease));
  }
}
