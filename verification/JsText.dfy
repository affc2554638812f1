/** String operations of the host language that the text algorithms below rely on. */
module JsText {

  /** White space as `trim` and the regular expression class \s see it. */
  predicate IsSpace(c: char) {
    || c == ' ' || 9 as char <= c <= 13 as char || c == 0xA0 as char
    || c == 0x1680 as char || (0x2000 as char <= c <= 0x200A as char)
    || c == 0x2028 as char || c == 0x2029 as char || c == 0x202F as char
    || c == 0x205F as char || c == 0x3000 as char || c == 0xFEFF as char
  }

  predicate Blank(s: string) {
    forall i | 0 <= i < |s| :: IsSpace(s[i])
  }

  predicate NoBreak(s: string) {
    forall i | 0 <= i < |s| :: s[i] != '\n'
  }

  ghost predicate NoBreaks(lines: seq<string>) {
    forall i | 0 <= i < |lines| :: NoBreak(lines[i])
  }

  function TrimStart(s: string): (r: string)
    ensures |r| <= |s| && r == s[|s|-|r|..]
    ensures r != "" ==> !IsSpace(r[0])
  {
    if s == "" || !IsSpace(s[0]) then s else TrimStart(s[1..])
  }

  function TrimEnd(s: string): (r: string)
    ensures |r| <= |s| && r == s[..|r|]
    ensures r != "" ==> !IsSpace(r[|r|-1])
  {
    if s == "" || !IsSpace(s[|s|-1]) then s else TrimEnd(s[..|s|-1])
  }

  function Trim(s: string): (r: string)
    ensures |r| <= |s|
  {
    TrimEnd(TrimStart(s))
  }

  lemma {:induction false} StartDropped(s: string)
    ensures Blank(s[..|s|-|TrimStart(s)|])
  {
    if s != "" && IsSpace(s[0]) {
      StartDropped(s[1..]);
      var n := |s| - |TrimStart(s)|;
      assert forall i | 1 <= i < n :: s[i] == s[1..][..n-1][i-1];
    }
  }

  lemma {:induction false} EndDropped(s: string)
    ensures Blank(s[|TrimEnd(s)|..])
  {
    if s != "" && IsSpace(s[|s|-1]) {
      EndDropped(s[..|s|-1]);
      var n := |TrimEnd(s)|;
      assert forall i | n <= i < |s| - 1 :: s[i] == s[..|s|-1][n..][i-n];
    }
  }

  /** What is cut off is white space, and what is left has none at its ends. */
  lemma TrimMeans(s: string) returns (i: nat, j: nat)
    ensures i <= j <= |s| && Trim(s) == s[i..j] && Blank(s[..i]) && Blank(s[j..])
    ensures i < j ==> !IsSpace(s[i]) && !IsSpace(s[j-1])
  {
    var t := TrimStart(s);
    StartDropped(s);
    EndDropped(t);
    i, j := |s| - |t|, |s| - |t| + |Trim(s)|;
    assert s[i..j] == t[..|Trim(s)|];
    assert s[j..] == t[|Trim(s)|..];
  }

  lemma TrimFixed(s: string)
    requires s == "" || (!IsSpace(s[0]) && !IsSpace(s[|s|-1]))
    ensures Trim(s) == s
  {
  }

  /** A trimmed text starts with something visible. */
  lemma TrimmedStart(s: string)
    ensures Trim(s) != "" ==> !IsSpace(Trim(s)[0])
  {
    var t := TrimStart(s);
    if Trim(s) != "" {
      assert Trim(s)[0] == t[0];
    }
  }

  /** Index of the first line feed, or |s|. */
  function LineEnd(s: string): (n: nat)
    ensures n <= |s| && (forall i | 0 <= i < n :: s[i] != '\n') && (n < |s| ==> s[n] == '\n')
  {
    if s == "" || s[0] == '\n' then 0 else LineEnd(s[1..]) + 1
  }

  /** s.split("\n") */
  function SplitLines(s: string): (lines: seq<string>)
    ensures lines != [] && NoBreaks(lines)
    decreases |s|
  {
    var n := LineEnd(s);
    if n == |s| then [s]
    else [s[..n]] + SplitLines(s[n+1..])
  }

  /** lines.join("\n") */
  function JoinLines(lines: seq<string>): string {
    if lines == [] then ""
    else if |lines| == 1 then lines[0]
    else lines[0] + "\n" + JoinLines(lines[1..])
  }

  /** s.replace(/\n{3,}/g, "\n\n") */
  function CollapseLines(s: string): string {
    if s == "" then ""
    else if |s| >= 3 && s[0] == '\n' && s[1] == '\n' && s[2] == '\n' then CollapseLines(s[1..])
    else [s[0]] + CollapseLines(s[1..])
  }

  /** Never more than two line feeds in a row are left. */
  lemma {:induction false} CollapsedHasNoGap(s: string, i: nat)
    requires i + 2 < |CollapseLines(s)|
    ensures var r := CollapseLines(s); !(r[i] == '\n' && r[i+1] == '\n' && r[i+2] == '\n')
    decreases |s|
  {
    if |s| >= 3 && s[0] == '\n' && s[1] == '\n' && s[2] == '\n' {
      CollapsedHasNoGap(s[1..], i);
    } else {
      var rest := CollapseLines(s[1..]);
      assert CollapseLines(s) == [s[0]] + rest;
      if i > 0 {
        CollapsedHasNoGap(s[1..], i - 1);
      } else {
        CollapseStart(s[1..]);
      }
    }
  }

  /** A collapsed text starts as the text does, as far as two characters. */
  lemma {:induction false} CollapseStart(s: string)
    ensures |CollapseLines(s)| >= 1 ==> s != "" && CollapseLines(s)[0] == s[0]
    ensures |CollapseLines(s)| >= 2 ==> |s| >= 2 && CollapseLines(s)[1] == s[1]
    decreases |s|
  {
    if |s| >= 3 && s[0] == '\n' && s[1] == '\n' && s[2] == '\n' {
      CollapseStart(s[1..]);
    } else if s != "" {
      CollapseStart(s[1..]);
    }
  }

  predicate EndsWith(s: string, suffix: string) {
    |suffix| <= |s| && s[|s|-|suffix|..] == suffix
  }
}
