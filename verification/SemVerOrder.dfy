/** What precedence means, read off two versions side by side: the rules of section 11 of Semantic
    Versioning 2.0.0, each without the recursion that compares, and the chain of versions that section
    gives as its example. */
module SemVerOrder {
  import opened ScanTypes
  import opened Text
  import opened Strings
  import opened SemVer

  /** The digits are what they should be. */
  lemma DigitsAre(c: char)
    ensures IsDigit(c) <==> c in "0123456789"
  {
  }

  /** ASCII letters, digits and the hyphen. */
  lemma IdentifierCharsAre(c: char)
    ensures IsIdentifierChar(c) <==>
      || c in "0123456789-" || c in "ABCDEFGHIJKLM" || c in "NOPQRSTUVWXYZ" || c in "abcdefghijklm" || c in "nopqrstuvwxyz"
  {
  }

  /** One identifier goes before another: both numbers, and the smaller one; a number and a text; or
      both texts, and the one that sorts first. */
  ghost predicate Below(x: string, y: string) {
    if AllDigits(x) then (if AllDigits(y) then Value(x) < Value(y) else true)
    else !AllDigits(y) && Less(x, y)
  }

  lemma IdentifierBelow(x: Identifier, y: Identifier)
    requires ValidIdentifier(x) && ValidIdentifier(y)
    ensures IdentifierLess(x, y) <==> Below(x.value, y.value)
  {
  }

  /** The lists agree on their first k identifiers, and then the one is at its end or goes before. */
  ghost predicate FirstDifference(a: seq<Identifier>, b: seq<Identifier>, k: nat) {
    && k <= |a| && k < |b| && a[..k] == b[..k]
    && (k == |a| || Below(a[k].value, b[k].value))
  }

  lemma {:induction false} DecidedByFirstDifference(a: seq<Identifier>, b: seq<Identifier>)
    requires ValidIdentifiers(a) && ValidIdentifiers(b)
    ensures IdentifiersLess(a, b) <==> exists k: nat :: FirstDifference(a, b, k)
  {
    hide Below, IdentifierLess;
    if a == [] || b == [] {
      if b != [] {
        assert FirstDifference(a, b, 0);
      }
    } else {
      IdentifierBelow(a[0], b[0]);
      DecidedByFirstDifference(a[1..], b[1..]);
      if IdentifierLess(a[0], b[0]) {
        assert FirstDifference(a, b, 0);
      }
      if a[0] == b[0] && IdentifiersLess(a[1..], b[1..]) {
        var k: nat :| FirstDifference(a[1..], b[1..], k);
        assert a[..k + 1] == [a[0]] + a[1..][..k] && b[..k + 1] == [b[0]] + b[1..][..k];
        assert FirstDifference(a, b, k + 1);
      }
      if k: nat :| FirstDifference(a, b, k) {
        if k > 0 {
          assert a[..k][0] == a[0] && b[..k][0] == b[0];
          assert a[1..][..k - 1] == a[..k][1..] && b[1..][..k - 1] == b[..k][1..];
          assert FirstDifference(a[1..], b[1..], k - 1);
        }
      }
    }
  }

  /** Major, minor and patch decide in this order, as numbers; then a version with a prerelease goes
      before the one without; then the first difference of the prereleases decides. */
  lemma PrecedesIff(v: Version, w: Version)
    requires ValidVersion(v) && ValidVersion(w)
    ensures Precedes(v, w) <==>
      || Value(v.major) < Value(w.major)
      || (v.major == w.major && Value(v.minor) < Value(w.minor))
      || (v.major == w.major && v.minor == w.minor && Value(v.patch) < Value(w.patch))
      || (v.major == w.major && v.minor == w.minor && v.patch == w.patch && v.prerelease != []
          && (w.prerelease == [] || exists k: nat :: FirstDifference(v.prerelease, w.prerelease, k)))
  {
    DecidedByFirstDifference(v.prerelease, w.prerelease);
    if Value(v.major) == Value(w.major) {
      SameValueSameText(v.major, w.major);
      if Value(v.minor) == Value(w.minor) {
        SameValueSameText(v.minor, w.minor);
        if Value(v.patch) == Value(w.patch) {
          SameValueSameText(v.patch, w.patch);
        }
      }
    }
  }

  function Release(prerelease: seq<Identifier>): Version {
    Version("1", "0", "0", prerelease)
  }

  const ALPHA := Identifier("alpha", false)
  const BETA := Identifier("beta", false)
  const RC := Identifier("rc", false)
  const ONE := Identifier("1", true)
  const TWO := Identifier("2", true)
  const ELEVEN := Identifier("11", true)

  /** 1.0.0-alpha < 1.0.0-alpha.1 < 1.0.0-alpha.beta < 1.0.0-beta < 1.0.0-beta.2 < 1.0.0-beta.11
      < 1.0.0-rc.1 < 1.0.0. */
  const CHAIN: seq<seq<Identifier>> :=
    [[ALPHA], [ALPHA, ONE], [ALPHA, BETA], [BETA], [BETA, TWO], [BETA, ELEVEN], [RC, ONE], []]

  lemma ValuesAre()
    ensures Value("1") == 1 && Value("2") == 2 && Value("11") == 11
  {
    assert "1"[..0] == "" && "2"[..0] == "" && "11"[..1] == "1";
    assert Value("") == 0;
  }

  lemma TextsAre()
    ensures Below("1", "beta") && Below("2", "11") && Below("alpha", "beta") && Below("beta", "rc")
    ensures ValidIdentifiers([ALPHA, BETA, RC, ONE, TWO, ELEVEN])
  {
    ValuesAre();
    assert "alpha"[0] == 'a' && "beta"[0] == 'b' && "rc"[0] == 'r';
    assert !AllDigits("alpha") && !AllDigits("beta") && !AllDigits("rc");
  }

  /** Where each prerelease of the chain first differs from the next. */
  const PLACES: seq<nat> := [1, 1, 0, 1, 1, 0]

  lemma ExampleDiffers(i: nat)
    requires i < |PLACES|
    ensures FirstDifference(CHAIN[i], CHAIN[i + 1], PLACES[i])
  {
    hide Below;
    TextsAre();
  }

  lemma ExampleValid(i: nat)
    requires i < |CHAIN|
    ensures ValidVersion(Release(CHAIN[i]))
  {
    hide IsIdentifier, AllDigits;
    TextsAre();
    var all := [ALPHA, BETA, RC, ONE, TWO, ELEVEN];
    assert forall k :: 0 <= k < |all| ==> ValidIdentifier(all[k]);
    assert ValidIdentifier(all[0]) && ValidIdentifier(all[1]) && ValidIdentifier(all[2]);
    assert ValidIdentifier(all[3]) && ValidIdentifier(all[4]) && ValidIdentifier(all[5]);
    NumbersAre();
  }

  lemma NumbersAre()
    ensures IsNumber("0") && IsNumber("1") && !IsNumber("01") && !IsNumber("") && !IsNumber("1a")
  {
    assert "01"[0] == '0' && "1a"[1] == 'a';
  }

  lemma ExampleChain(i: nat)
    requires i + 1 < |CHAIN|
    ensures ValidVersion(Release(CHAIN[i])) && ValidVersion(Release(CHAIN[i + 1]))
    ensures Precedes(Release(CHAIN[i]), Release(CHAIN[i + 1]))
  {
    hide ValidVersion, FirstDifference, Precedes, Value;
    ExampleValid(i);
    ExampleValid(i + 1);
    PrecedesIff(Release(CHAIN[i]), Release(CHAIN[i + 1]));
    if i < |PLACES| {
      ExampleDiffers(i);
    }
  }
}
