/**
 * Text in a PDF content stream: the escaper of src/routing/invoicePdfGuard.ts
 * and, as its partner, a reader of literal strings written from section
 * 7.3.4.2 of ISO 32000-1. A `char` stands for one UTF-16 code unit on the way
 * in and for one Latin-1 byte on the way out.
 */
module PdfText {
  import opened Common

  // ------------------------------------------------------------------
  // Decimal numbers
  // ------------------------------------------------------------------

  predicate IsDigit(c: char) {
    '0' <= c <= '9'
  }

  predicate AllDigits(s: string) {
    forall i | 0 <= i < |s| :: IsDigit(s[i])
  }

  function Decimal(n: nat): (s: string)
    ensures s != [] && AllDigits(s)
  {
    if n < 10 then ['0' + n as char]
    else Decimal(n / 10) + ['0' + (n % 10) as char]
  }

  function ValueOf(s: string): nat
    requires AllDigits(s)
  {
    if s == [] then 0
    else
      ValueOf(s[..|s|-1]) * 10 + (s[|s|-1] as int - '0' as int)
  }

  lemma {:induction false} DecimalRoundTrip(n: nat)
    ensures ValueOf(Decimal(n)) == n
  {
    if n >= 10 {
      DecimalRoundTrip(n / 10);
      var s := Decimal(n);
      assert s[..|s|-1] == Decimal(n / 10);
    } else {
      assert Decimal(n)[..0] == [];
    }
  }

  function Power10(k: nat): nat {
    if k == 0 then 1 else 10 * Power10(k - 1)
  }

  /** A number has at most k digits exactly when it is below 10^k. */
  lemma {:induction false} DecimalLength(n: nat, k: nat)
    requires k > 0
    ensures |Decimal(n)| <= k <==> n < Power10(k)
  {
    if n >= 10 {
      if k == 1 {
        assert Power10(1) == 10 * Power10(0);
        assert |Decimal(n / 10)| >= 1;
      } else {
        DecimalLength(n / 10, k - 1);
      }
    } else {
      PowerPositive(k - 1);
    }
  }

  lemma PowerPositive(k: nat)
    ensures Power10(k) >= 1
  {
  }

  /** String(n).padStart(width, "0") */
  function PadStart(s: string, width: nat): string {
    if |s| >= width then s else seq(width - |s|, _ => '0') + s
  }

  lemma {:induction false} LeadingZeros(k: nat, s: string)
    requires AllDigits(s)
    ensures AllDigits(seq(k, _ => '0') + s)
    ensures ValueOf(seq(k, _ => '0') + s) == ValueOf(s)
    decreases |s| + k
  {
    var zeros := seq(k, _ => '0');
    if s == [] {
      assert zeros + s == zeros;
      if k > 0 {
        assert zeros[..k-1] == seq(k - 1, _ => '0') + [];
        LeadingZeros(k - 1, []);
      }
    } else {
      LeadingZeros(k, s[..|s|-1]);
      assert (zeros + s)[..|zeros + s| - 1] == zeros + s[..|s|-1];
    }
  }

  // ------------------------------------------------------------------
  // Escaping
  // ------------------------------------------------------------------

  predicate Printable(c: char) {
    ' ' <= c <= '~'
  }

  /** Replace every character outside printable ASCII. */
  function Ascii(t: string): (r: string)
    ensures |r| == |t| && forall i | 0 <= i < |t| :: Printable(r[i]) && r[i] == if Printable(t[i]) then t[i] else '?'
  {
    seq(|t|, i requires 0 <= i < |t| => if Printable(t[i]) then t[i] else '?')
  }

  function ReplaceAll(s: string, c: char, replacement: string): string {
    if s == [] then [] else (if s[0] == c then replacement else [s[0]]) + ReplaceAll(s[1..], c, replacement)
  }

  function PdfEscape(text: string): string {
    ReplaceAll(ReplaceAll(ReplaceAll(Ascii(text), '\\', "\\\\"), '(', "\\("), ')', "\\)")
  }

  /** One pass: a backslash before each of the three special characters. */
  function EscapeOnce(s: string): string {
    if s == [] then []
    else EscapeChar(s[0]) + EscapeOnce(s[1..])
  }

  function EscapeChar(c: char): string {
    if c in "\\()" then ['\\', c] else [c]
  }

  lemma {:induction false} ReplaceAllAppend(s: string, t: string, c: char, replacement: string)
    ensures ReplaceAll(s + t, c, replacement) == ReplaceAll(s, c, replacement) + ReplaceAll(t, c, replacement)
  {
    if s == [] {
      assert s + t == t;
    } else {
      assert (s + t)[1..] == s[1..] + t;
      ReplaceAllAppend(s[1..], t, c, replacement);
    }
  }

  lemma {:induction false} ThreePassesAreOne(s: string)
    ensures ReplaceAll(ReplaceAll(ReplaceAll(s, '\\', "\\\\"), '(', "\\("), ')', "\\)") == EscapeOnce(s)
  {
    if s != [] {
      ThreePassesAreOne(s[1..]);
      var head := if s[0] == '\\' then "\\\\" else [s[0]];
      var tail := ReplaceAll(s[1..], '\\', "\\\\");
      ReplaceAllAppend(head, tail, '(', "\\(");
      ReplaceAllAppend(ReplaceAll(head, '(', "\\("), ReplaceAll(tail, '(', "\\("), ')', "\\)");
      SpecialHeads(s[0]);
    }
  }

  lemma SpecialHeads(c: char)
    ensures var head := if c == '\\' then "\\\\" else [c];
            ReplaceAll(ReplaceAll(head, '(', "\\("), ')', "\\)") == EscapeChar(c)
  {
    if c == '\\' {
      ReplaceAllAppend("\\", "\\", '(', "\\(");
      ReplaceAllAppend("\\", "\\", ')', "\\)");
      assert "\\" + "\\" == "\\\\";
    } else if c == '(' {
      ReplaceAllAppend("\\", "(", ')', "\\)");
      assert "\\" + "(" == "\\(";
    }
  }

  /** The escaped text of any input is printable ASCII only. */
  lemma {:induction false} EscapedIsPrintable(s: string)
    requires forall i | 0 <= i < |s| :: Printable(s[i])
    ensures forall i | 0 <= i < |EscapeOnce(s)| :: Printable(EscapeOnce(s)[i])
  {
    if s != [] {
      EscapedIsPrintable(s[1..]);
    }
  }

  // ------------------------------------------------------------------
  // Reading a literal string (section 7.3.4.2 of ISO 32000-1)
  // ------------------------------------------------------------------

  datatype Read = Read(text: string, rest: string)

  predicate IsOctal(c: char) {
    '0' <= c <= '7'
  }

  /** The octal digits of an escape: one to three of them. */
  function OctalLength(s: string): (n: nat)
    ensures n <= 3 && n <= |s| && forall i | 0 <= i < n :: IsOctal(s[i])
  {
    if s == [] || !IsOctal(s[0]) then 0
    else if |s| == 1 || !IsOctal(s[1]) then 1
    else if |s| == 2 || !IsOctal(s[2]) then 2
    else 3
  }

  function OctalValue(s: string): (v: nat)
    requires forall c | c in s :: IsOctal(c)
  {
    if s == [] then 0
    else
      assert s[|s|-1] in s && IsOctal(s[|s|-1]);
      assert forall c | c in s[..|s|-1] :: c in s;
      OctalValue(s[..|s|-1]) * 8 + (s[|s|-1] as int - '0' as int)
  }

  /** The character an escape stands for and how much of the input it used;
      a backslash before an end of line stands for nothing. */
  function ReadEscape(s: string): (r: (string, nat))
    requires s != []
    ensures 1 <= r.1 <= |s|
  {
    var c := s[0];
    if c == 'n' then ("\n", 1)
    else if c == 'r' then ("\r", 1)
    else if c == 't' then ("\t", 1)
    else if c == 'b' then ([8 as char], 1)
    else if c == 'f' then ([12 as char], 1)
    else if c == '\r' && |s| > 1 && s[1] == '\n' then ("", 2)
    else if c == '\r' || c == '\n' then ("", 1)
    else if IsOctal(c) then ([(OctalValue(s[..OctalLength(s)]) % 256) as char], OctalLength(s))
    else ([c], 1)
  }

  /** Read up to the parenthesis that closes the string; `s` starts after the
      opening one and `depth` counts balanced parentheses inside the text. */
  function ReadLiteral(s: string, depth: nat): (r: Option<Read>)
    ensures r.Some? ==> |r.value.rest| < |s|
    decreases |s|
  {
    if s == [] then None
    else if s[0] == '\\' then
      if |s| == 1 then None
      else
        var (text, used) := ReadEscape(s[1..]);
        Prepend(text, ReadLiteral(s[1 + used..], depth))
    else if s[0] == '(' then Prepend("(", ReadLiteral(s[1..], depth + 1))
    else if s[0] == ')' then
      if depth == 0 then Some(Read("", s[1..]))
      else Prepend(")", ReadLiteral(s[1..], depth - 1))
    else if s[0] == '\r' && |s| > 1 && s[1] == '\n' then Prepend("\n", ReadLiteral(s[2..], depth))
    else if s[0] == '\r' then Prepend("\n", ReadLiteral(s[1..], depth))
    else Prepend([s[0]], ReadLiteral(s[1..], depth))
  }

  function Prepend(text: string, r: Option<Read>): Option<Read> {
    if r.None? then None else Some(Read(text + r.value.text, r.value.rest))
  }

  /** Reading one escaped character. */
  lemma ReadsBackOne(c: char, tail: string)
    requires Printable(c)
    ensures ReadLiteral(EscapeChar(c) + tail, 0) == Prepend([c], ReadLiteral(tail, 0))
  {
    if c in "\\()" {
      var s := ['\\', c] + tail;
      assert s[1..] == [c] + tail && s[2..] == tail;
      assert ReadEscape(s[1..]) == ([c], 1);
    } else {
      assert ([c] + tail)[1..] == tail;
    }
  }

  lemma ReadsBackEnd(rest: string)
    ensures ReadLiteral(")" + rest, 0) == Some(Read("", rest))
  {
    assert (")" + rest)[1..] == rest;
  }

  lemma EscapeSplits(a: string, end: string)
    requires a != []
    ensures EscapeOnce(a) + end == EscapeChar(a[0]) + (EscapeOnce(a[1..]) + end)
    ensures [a[0]] + a[1..] == a
  {
    Regroup(EscapeChar(a[0]), EscapeOnce(a[1..]), end);
  }

  lemma {:induction false} ReadsBackEscaped(a: string, end: string, rest: string)
    requires forall c | c in a :: Printable(c)
    requires ReadLiteral(end, 0) == Some(Read("", rest))
    ensures ReadLiteral(EscapeOnce(a) + end, 0) == Some(Read(a, rest))
  {
    if a == [] {
      assert EscapeOnce(a) + end == end;
    } else {
      assert a[0] in a && Printable(a[0]);
      assert forall c | c in a[1..] :: c in a;
      ReadsBackEscaped(a[1..], end, rest);
      ReadsBackOne(a[0], EscapeOnce(a[1..]) + end);
      EscapeSplits(a, end);
    }
  }

  /** Escaping then reading gives every text back, non-ASCII as `?`, and stops at the end of the string. */
  lemma StringRoundTrip(text: string, rest: string)
    ensures ReadLiteral(PdfEscape(text) + ")" + rest, 0) == Some(Read(Ascii(text), rest))
  {
    ThreePassesAreOne(Ascii(text));
    ReadsBackEnd(rest);
    ReadsBackEscaped(Ascii(text), ")" + rest, rest);
    assert PdfEscape(text) + ")" + rest == PdfEscape(text) + (")" + rest);
  }

  // ------------------------------------------------------------------
  // Content streams
  // ------------------------------------------------------------------

  datatype Font = F1 | F2

  datatype Line = Line(text: string, font: Font, size: nat, gap: nat)

  function FontName(f: Font): string {
    match f case F1 => "F1" case F2 => "F2"
  }

  function FontCommand(line: Line): string {
    "/" + FontName(line.font) + " " + Decimal(line.size) + " Tf"
  }

  function MoveCommand(line: Line, first: bool): string {
    if first then "72 740 Td" else "0 -" + Decimal(line.gap) + " Td"
  }

  function LineCommands(line: Line, first: bool): seq<string> {
    if line.text == "" then []
    else [FontCommand(line), MoveCommand(line, first), "(" + PdfEscape(line.text) + ") Tj"]
  }

  function Commands(lines: seq<Line>, first: bool): seq<string> {
    if lines == [] then []
    else LineCommands(lines[0], first) + Commands(lines[1..], first && lines[0].text == "")
  }

  function Join(parts: seq<string>): string {
    if parts == [] then "" else parts[0] + Tail(parts[1..])
  }

  function Tail(parts: seq<string>): string {
    if parts == [] then "" else "\n" + parts[0] + Tail(parts[1..])
  }

  function ContentStream(lines: seq<Line>): string {
    Join(["BT"] + Commands(lines, true) + ["ET"])
  }

  lemma NextLine(lines: seq<Line>, i: nat, first: bool)
    requires i < |lines|
    ensures Commands(lines[i..], first)
         == LineCommands(lines[i], first) + Commands(lines[i+1..], first && lines[i].text == "")
  {
    assert lines[i..][0] == lines[i] && lines[i..][1..] == lines[i+1..];
  }

  lemma PushThree(before: seq<string>, a: string, b: string, c: string, later: seq<string>)
    ensures before + [a] + [b] + [c] + later == before + ([a, b, c] + later)
  {
  }

  /** The loop that collects the drawing commands. */
  method RenderContent(lines: seq<Line>) returns (stream: string)
    ensures stream == ContentStream(lines)
  {
    var commands := ["BT"];
    var first := true;
    assert lines[0..] == lines;
    for i := 0 to |lines|
      invariant commands + Commands(lines[i..], first) == ["BT"] + Commands(lines, true)
    {
      var line := lines[i];
      NextLine(lines, i, first);
      ghost var before, later := commands, Commands(lines[i+1..], first && line.text == "");
      if line.text == "" {
        assert [] + later == later;
        continue;
      }
      var font := FontCommand(line);
      var move := MoveCommand(line, first);
      var show := "(" + PdfEscape(line.text) + ") Tj";
      commands := commands + [font];
      commands := commands + [move];
      commands := commands + [show];
      PushThree(before, font, move, show, later);
      first := false;
    }
    assert lines[|lines|..] == [];
    assert commands + [] == commands;
    commands := commands + ["ET"];
    stream := Join(commands);
  }

  /** Every string a content stream shows, in order: skip to `(`, read the literal, go on after it. */
  function ReadShown(s: string): seq<string>
    decreases |s|
  {
    if s == [] then []
    else if s[0] == '(' then
      match ReadLiteral(s[1..], 0)
      case None => []
      case Some(r) => [r.text] + ReadShown(r.rest)
    else ReadShown(s[1..])
  }

  function ShownTexts(lines: seq<Line>): seq<string> {
    if lines == [] then []
    else (if lines[0].text == "" then [] else [Ascii(lines[0].text)]) + ShownTexts(lines[1..])
  }

  lemma {:induction false} SkipPlain(p: string, s: string)
    requires '(' !in p
    ensures ReadShown(p + s) == ReadShown(s)
  {
    if p == [] {
      assert p + s == s;
    } else {
      assert (p + s)[1..] == p[1..] + s;
      SkipPlain(p[1..], s);
    }
  }

  lemma NoParenthesis(line: Line, first: bool)
    ensures '(' !in FontCommand(line) && '(' !in MoveCommand(line, first)
  {
    assert '(' !in Decimal(line.size) by { assert AllDigits(Decimal(line.size)); }
    assert '(' !in Decimal(line.gap) by { assert AllDigits(Decimal(line.gap)); }
  }

  /** What a shown line adds to the stream: plain operators around one literal string. */
  lemma LineText(line: Line, first: bool) returns (plain: string)
    requires line.text != ""
    ensures '(' !in plain
    ensures Tail(LineCommands(line, first)) == plain + "(" + PdfEscape(line.text) + ") Tj"
  {
    var font, move := FontCommand(line), MoveCommand(line, first);
    TailOfThree(font, move, "(" + PdfEscape(line.text) + ") Tj");
    plain := "\n" + font + "\n" + move + "\n";
    NoParenthesis(line, first);
  }

  lemma ShownLine(line: Line, first: bool, rest: string)
    requires line.text != ""
    ensures ReadShown(Tail(LineCommands(line, first)) + rest) == [Ascii(line.text)] + ReadShown(rest)
  {
    var plain := LineText(line, first);
    var shown := PdfEscape(line.text) + ")" + (" Tj" + rest);
    assert Tail(LineCommands(line, first)) + rest == plain + ("(" + shown);
    SkipPlain(plain, "(" + shown);
    StringRoundTrip(line.text, " Tj" + rest);
    assert ("(" + shown)[1..] == shown;
    SkipPlain(" Tj", rest);
  }

  lemma TailOfThree(a: string, b: string, c: string)
    ensures Tail([a, b, c]) == "\n" + a + "\n" + b + "\n" + c
  {
    assert [a, b, c][1..] == [b, c] && [b, c][1..] == [c] && [c][1..] == [];
    assert Tail([c]) == "\n" + c;
    assert Tail([b, c]) == "\n" + b + Tail([c]);
  }

  lemma {:induction false} TailAppend(a: seq<string>, b: seq<string>)
    ensures Tail(a + b) == Tail(a) + Tail(b)
  {
    if a == [] {
      assert a + b == b;
    } else {
      assert (a + b)[1..] == a[1..] + b;
      TailAppend(a[1..], b);
    }
  }

  lemma {:induction false} ShownCommands(lines: seq<Line>, first: bool, rest: string)
    ensures ReadShown(Tail(Commands(lines, first)) + rest) == ShownTexts(lines) + ReadShown(rest)
  {
    if lines == [] {
      assert Tail(Commands(lines, first)) + rest == rest;
    } else {
      var next := first && lines[0].text == "";
      var here, later := LineCommands(lines[0], first), Tail(Commands(lines[1..], next));
      ShownCommands(lines[1..], next, rest);
      TailAppend(here, Commands(lines[1..], next));
      Regroup(Tail(here), later, rest);
      ShownFirst(lines[0], first, later + rest);
      Regroup(if lines[0].text == "" then [] else [Ascii(lines[0].text)], ShownTexts(lines[1..]), ReadShown(rest));
    }
  }

  lemma ShownFirst(line: Line, first: bool, rest: string)
    ensures ReadShown(Tail(LineCommands(line, first)) + rest)
         == (if line.text == "" then [] else [Ascii(line.text)]) + ReadShown(rest)
  {
    if line.text == "" {
      assert Tail(LineCommands(line, first)) + rest == rest;
    } else {
      ShownLine(line, first, rest);
    }
  }

  /** Reading a content stream gives the non-empty lines back, in order. */
  lemma StreamShowsLines(lines: seq<Line>)
    ensures ReadShown(ContentStream(lines)) == ShownTexts(lines)
  {
    var cmds := Commands(lines, true);
    assert (["BT"] + cmds + ["ET"])[1..] == cmds + ["ET"];
    TailAppend(cmds, ["ET"]);
    assert Tail(["ET"]) == "\nET" by { assert ["ET"][1..] == []; }
    assert ContentStream(lines) == "BT" + (Tail(cmds) + "\nET");
    SkipPlain("BT", Tail(cmds) + "\nET");
    ShownCommands(lines, true, "\nET");
    SkipPlain("\nET", []);
    assert "\nET" + [] == "\nET";
  }
}
