/** Splitting, joining, searching and trimming text, as Go's strings package does. */
module Strings {
  import opened ScanTypes

  /** The first position of c, or the length. */
  function Find(s: string, c: char): (i: nat)
    ensures i <= |s| && (forall j :: 0 <= j < i ==> s[j] != c) && (i < |s| ==> s[i] == c)
  {
    if s == "" || s[0] == c then 0 else 1 + Find(s[1..], c)
  }

  lemma FindIs(s: string, c: char, i: nat)
    requires i <= |s| && (forall j :: 0 <= j < i ==> s[j] != c) && (i < |s| ==> s[i] == c)
    ensures Find(s, c) == i
  {
  }

  predicate Lacks(s: string, c: char) {
    forall i :: 0 <= i < |s| ==> s[i] != c
  }

  function Split(s: string, c: char): (parts: seq<string>)
    ensures parts != []
    decreases |s|
  {
    var i := Find(s, c);
    if i == |s| then [s] else [s[..i]] + Split(s[i + 1..], c)
  }

  function Join(parts: seq<string>, c: char): string
    requires parts != []
  {
    if |parts| == 1 then parts[0] else parts[0] + [c] + Join(parts[1..], c)
  }

  lemma {:induction false} JoinSplit(s: string, c: char)
    ensures Join(Split(s, c), c) == s
    ensures forall i :: 0 <= i < |Split(s, c)| ==> Lacks(Split(s, c)[i], c)
    decreases |s|
  {
    var i := Find(s, c);
    if i < |s| {
      JoinSplit(s[i + 1..], c);
      assert Split(s, c)[1..] == Split(s[i + 1..], c);
      assert s == s[..i] + [c] + s[i + 1..];
    }
  }

  lemma {:induction false} SplitJoin(parts: seq<string>, c: char)
    requires parts != [] && forall i :: 0 <= i < |parts| ==> Lacks(parts[i], c)
    ensures Split(Join(parts, c), c) == parts
  {
    var s := Join(parts, c);
    if |parts| == 1 {
      FindIs(s, c, |s|);
      assert parts == [parts[0]];
    } else {
      FindIs(s, c, |parts[0]|);
      assert s[..|parts[0]|] == parts[0] && s[|parts[0]| + 1..] == Join(parts[1..], c);
      SplitJoin(parts[1..], c);
      assert parts == [parts[0]] + parts[1..];
    }
  }

  /** No character of the joined text comes from anywhere but the parts and the separators. */
  lemma {:induction false} JoinLacks(parts: seq<string>, c: char, d: char)
    requires parts != [] && c != d && forall i :: 0 <= i < |parts| ==> Lacks(parts[i], d)
    ensures Lacks(Join(parts, c), d)
  {
    if |parts| > 1 {
      JoinLacks(parts[1..], c, d);
    }
  }

  function TrimLeft(s: string): string {
    if s != "" && IsSpace(s[0]) then TrimLeft(s[1..]) else s
  }

  function TrimRight(s: string): string {
    if s != "" && IsSpace(s[|s| - 1]) then TrimRight(s[..|s| - 1]) else s
  }

  function Trim(s: string): string {
    TrimRight(TrimLeft(s))
  }

  predicate AllSpace(s: string) {
    forall i :: 0 <= i < |s| ==> IsSpace(s[i])
  }

  lemma {:induction false} LeftCut(s: string) returns (a: string)
    ensures s == a + TrimLeft(s) && AllSpace(a)
    ensures TrimLeft(s) != "" ==> !IsSpace(TrimLeft(s)[0])
  {
    if s != "" && IsSpace(s[0]) {
      a := LeftCut(s[1..]);
      assert s == [s[0]] + s[1..];
      a := [s[0]] + a;
    } else {
      a := "";
    }
  }

  lemma {:induction false} RightCut(s: string) returns (b: string)
    ensures s == TrimRight(s) + b && AllSpace(b)
    ensures TrimRight(s) != "" ==> !IsSpace(TrimRight(s)[|TrimRight(s)| - 1])
  {
    if s != "" && IsSpace(s[|s| - 1]) {
      var n := |s| - 1;
      b := RightCut(s[..n]);
      assert s == s[..n] + [s[n]];
      b := b + [s[n]];
    } else {
      b := "";
    }
  }

  /** Trimming cuts off the spaces at both ends, and nothing else. */
  lemma TrimCuts(s: string) returns (a: string, b: string)
    ensures s == a + Trim(s) + b && AllSpace(a) && AllSpace(b)
    ensures Trim(s) != "" ==> !IsSpace(Trim(s)[0]) && !IsSpace(Trim(s)[|Trim(s)| - 1])
  {
    a := LeftCut(s);
    b := RightCut(TrimLeft(s));
    assert s == a + Trim(s) + b;
    if Trim(s) != "" {
      assert TrimLeft(s)[0] == Trim(s)[0];
    }
  }

  /** Nothing is left of blank text, and of no other. */
  lemma TrimmedAway(s: string)
    ensures Trim(s) == "" <==> AllSpace(s)
  {
    var a, b := TrimCuts(s);
    if Trim(s) != "" {
      assert s[|a|] == Trim(s)[0];
    }
  }

  /** The control and the white space characters by their code points. */
  lemma CodePoints(c: char)
    ensures IsControl(c) <==> c as int <= 31 || 127 <= c as int <= 159
    ensures IsSpace(c) <==>
      || 9 <= c as int <= 13 || c as int in {32, 133, 160, 5760, 8232, 8233, 8239, 8287, 12288}
      || 8192 <= c as int <= 8202
  {
  }

  /** Valid text is what trimming leaves as it is: not empty, not padded, no control characters. */
  lemma ValidTextIff(s: string)
    ensures ValidText(s) <==> s != "" && Trim(s) == s && forall i :: 0 <= i < |s| ==> !IsControl(s[i])
  {
    var a, b := TrimCuts(s);
    if ValidText(s) {
      TrimmedAlready(s);
    }
  }

  /** A CVE identifier is put together from a year of four digits and a number of at least four. */
  lemma CVEIff(s: string)
    ensures IsCVE(s) <==>
      exists year: string, number: string ::
        && s == "CVE-" + year + "-" + number && |year| == 4 && |number| >= 4
        && forall i :: 0 <= i < |year + number| ==> '0' <= (year + number)[i] <= '9'
  {
    if IsCVE(s) {
      var year, number := s[4..8], s[9..];
      assert s == s[..4] + year + [s[8]] + number;
      assert s == "CVE-" + year + "-" + number;
    }
    if year: string, number: string :|
      && s == "CVE-" + year + "-" + number && |year| == 4 && |number| >= 4
      && forall i :: 0 <= i < |year + number| ==> '0' <= (year + number)[i] <= '9'
    {
      forall i | 4 <= i < 8
        ensures IsDigit(s[i])
      {
        assert s[i] == (year + number)[i - 4];
      }
      forall i | 9 <= i < |s|
        ensures IsDigit(s[i])
      {
        assert s[i] == (year + number)[i - 5];
      }
    }
  }

  lemma TrimmedAlready(s: string)
    requires s == "" || (!IsSpace(s[0]) && !IsSpace(s[|s| - 1]))
    ensures Trim(s) == s
  {
  }

  function Lower(s: string): string {
    if s == "" then "" else [if 'A' <= s[0] <= 'Z' then (s[0] as int + 32) as char else s[0]] + Lower(s[1..])
  }

  /** Lower case changes the letters A to Z into a to z, one by one, and nothing else. */
  lemma {:induction false} LowerIs(s: string)
    ensures |Lower(s)| == |s|
    ensures forall i :: 0 <= i < |s| ==>
      if 'A' <= s[i] <= 'Z' then 'a' <= Lower(s)[i] <= 'z' && Lower(s)[i] as int - 'a' as int == s[i] as int - 'A' as int
      else Lower(s)[i] == s[i]
  {
    if s != "" {
      LowerIs(s[1..]);
    }
  }

  lemma LowerAlready(s: string)
    requires forall i :: 0 <= i < |s| ==> !('A' <= s[i] <= 'Z')
    ensures Lower(s) == s
  {
    LowerIs(s);
  }
}
