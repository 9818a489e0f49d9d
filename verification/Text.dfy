/** Option, and the text rules the importers share. Characters are ASCII. */
module Text {

  datatype Option<+T> = None | Some(value: T) {
    function GetOr(default: T): T {
      match this
      case None => default
      case Some(v) => v
    }
  }

  predicate IsSpace(c: char) {
    c in " \t\n\r"
  }

  function LowerChar(c: char): char {
    if 'A' <= c <= 'Z' then c - 'A' + 'a' else c
  }

  function Lower(s: string): (r: string)
    ensures |r| == |s|
  {
    if s == "" then "" else [LowerChar(s[0])] + Lower(s[1..])
  }

  function LStrip(s: string): string {
    if s != "" && IsSpace(s[0]) then LStrip(s[1..]) else s
  }

  function RStrip(s: string): string {
    if s != "" && IsSpace(s[|s|-1]) then RStrip(s[..|s|-1]) else s
  }

  function Strip(s: string): string {
    LStrip(RStrip(s))
  }

  /** Nothing to strip: the text neither starts nor ends with a blank. */
  predicate Trimmed(s: string) {
    s == "" || (!IsSpace(s[0]) && !IsSpace(s[|s|-1]))
  }

  lemma StripTrimmed(s: string)
    requires Trimmed(s)
    ensures Strip(s) == s
  {
  }

  lemma {:induction false} LStripTrims(s: string)
    ensures LStrip(s) == "" || !IsSpace(LStrip(s)[0])
    ensures s != "" && !IsSpace(s[|s|-1]) ==> LStrip(s) != "" && LStrip(s)[|LStrip(s)|-1] == s[|s|-1]
  {
    if s != "" && IsSpace(s[0]) {
      LStripTrims(s[1..]);
    }
  }

  lemma {:induction false} RStripTrims(s: string)
    ensures RStrip(s) == "" || !IsSpace(RStrip(s)[|RStrip(s)|-1])
  {
    if s != "" && IsSpace(s[|s|-1]) {
      RStripTrims(s[..|s|-1]);
    }
  }

  /** Stripping leaves trimmed text, and is the identity exactly there. */
  lemma StripTrims(s: string)
    ensures Trimmed(Strip(s))
    ensures Strip(s) == s <==> Trimmed(s)
  {
    RStripTrims(s);
    LStripTrims(RStrip(s));
    if Trimmed(s) {
      StripTrimmed(s);
    }
  }

  function SplitDots(s: string): (parts: seq<string>)
    ensures |parts| >= 1
  {
    if s == "" then [""]
    else
      var rest := SplitDots(s[1..]);
      if s[0] == '.' then [""] + rest
      else [[s[0]] + rest[0]] + rest[1..]
  }

  predicate IsOctet(s: string) {
    1 <= |s| <= 3 && forall i :: 0 <= i < |s| ==> '0' <= s[i] <= '9'
  }

  predicate IsIpv4(s: string) {
    var parts := SplitDots(s);
    |parts| == 4 && forall i :: 0 <= i < 4 ==> IsOctet(parts[i])
  }

  // ── what the text rules do ────────────────────────────────────────────────

  lemma {:induction false} LowerAt(s: string, i: nat)
    requires i < |s|
    ensures Lower(s)[i] == if 'A' <= s[i] <= 'Z' then s[i] - 'A' + 'a' else s[i]
  {
    if i > 0 {
      LowerAt(s[1..], i - 1);
    }
  }

  predicate Blank(s: string) {
    forall i :: 0 <= i < |s| ==> s[i] == ' ' || s[i] == '\t' || s[i] == '\n' || s[i] == '\r'
  }

  lemma {:induction false} LStripCuts(s: string) returns (a: string)
    ensures Blank(a) && s == a + LStrip(s)
  {
    a := "";
    if s != "" && IsSpace(s[0]) {
      var rest := LStripCuts(s[1..]);
      a := [s[0]] + rest;
      assert s == [s[0]] + s[1..];
    }
  }

  lemma {:induction false} RStripCuts(s: string) returns (b: string)
    ensures Blank(b) && s == RStrip(s) + b
  {
    b := "";
    if s != "" && IsSpace(s[|s|-1]) {
      var rest := RStripCuts(s[..|s|-1]);
      b := rest + [s[|s|-1]];
      assert s == s[..|s|-1] + [s[|s|-1]];
    }
  }

  /** Blanks go from both ends and nothing else does. */
  lemma StripCuts(s: string) returns (a: string, b: string)
    ensures Blank(a) && Blank(b) && s == a + Strip(s) + b && Trimmed(Strip(s))
  {
    b := RStripCuts(s);
    a := LStripCuts(RStrip(s));
    StripTrims(s);
  }

  function Joined(parts: seq<string>): string
    requires |parts| >= 1
  {
    if |parts| == 1 then parts[0] else parts[0] + "." + Joined(parts[1..])
  }

  /** The parts between the dots. */
  lemma {:induction false} DotsSplit(s: string)
    ensures Joined(SplitDots(s)) == s
    ensures forall i :: 0 <= i < |SplitDots(s)| ==> '.' !in SplitDots(s)[i]
  {
    if s != "" {
      var rest, parts := SplitDots(s[1..]), SplitDots(s);
      DotsSplit(s[1..]);
      assert s == [s[0]] + s[1..];
      if s[0] == '.' {
        assert parts == [""] + rest && parts[1..] == rest;
      } else {
        assert parts[1..] == rest[1..] && parts[0] == [s[0]] + rest[0];
      }
    }
  }
}
