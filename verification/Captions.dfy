/**
 * The caption of a document sent to WhatsApp (src/routing/sanitizer.ts:
 * documentCaption, splitFailureNote, shortenCaptionBody, clipAtBoundary).
 */
module Captions {
  import opened Common
  import opened JsText

  const DOCUMENT_CAPTION_MAX_CHARS := 320
  const DOCUMENT_CAPTION_MAX_LINES := 4
  const WHATSAPP_CAPTION_HARD_MAX := 1024

  // ------------------------------------------------------------------
  // Counting lines that say something
  // ------------------------------------------------------------------

  /** Lines with a visible character, counted at the first one of each line;
      `counted` says the current line was counted already. */
  function Visible(s: string, counted: bool): nat {
    if s == "" then 0
    else if s[0] == '\n' then Visible(s[1..], false)
    else if IsSpace(s[0]) then Visible(s[1..], counted)
    else (if counted then 0 else 1) + Visible(s[1..], true)
  }

  function NonBlankLines(s: string): nat {
    Visible(s, false)
  }

  function NonBlank(lines: seq<string>): nat {
    if lines == [] then 0 else (if Blank(lines[0]) then 0 else 1) + NonBlank(lines[1..])
  }

  lemma {:induction false} VisibleBound(s: string)
    ensures Visible(s, true) <= Visible(s, false) <= Visible(s, true) + 1
  {
    if s != "" {
      VisibleBound(s[1..]);
    }
  }

  lemma {:induction false} VisiblePrefix(s: string, n: nat, counted: bool)
    requires n <= |s|
    ensures Visible(s[..n], counted) <= Visible(s, counted)
  {
    if n > 0 {
      assert s[..n][1..] == s[1..][..n-1];
      VisiblePrefix(s[1..], n - 1, if s[0] == '\n' then false else if IsSpace(s[0]) then counted else true);
    }
  }

  lemma {:induction false} VisibleSuffix(s: string, n: nat)
    requires n <= |s|
    ensures Visible(s[n..], false) <= Visible(s, false)
    decreases n
  {
    if n > 0 {
      VisibleSuffix(s[1..], n - 1);
      assert s[1..][n-1..] == s[n..];
      VisibleBound(s[1..]);
    }
  }

  /** Cutting a piece out of a text never adds lines. */
  lemma SliceHasNoMoreLines(s: string, i: nat, j: nat)
    requires i <= j <= |s|
    ensures NonBlankLines(s[i..j]) <= NonBlankLines(s)
  {
    VisiblePrefix(s, j, false);
    VisibleSuffix(s[..j], i);
    assert s[..j][i..] == s[i..j];
  }

  lemma TrimHasNoMoreLines(s: string)
    ensures NonBlankLines(Trim(s)) <= NonBlankLines(s)
  {
    var i, j := TrimMeans(s);
    SliceHasNoMoreLines(s, i, j);
  }

  lemma {:induction false} CollapseKeepsLines(s: string, counted: bool)
    ensures Visible(CollapseLines(s), counted) == Visible(s, counted)
    ensures |CollapseLines(s)| <= |s|
    decreases |s|
  {
    if s != "" {
      if |s| >= 3 && s[0] == '\n' && s[1] == '\n' && s[2] == '\n' {
        CollapseKeepsLines(s[1..], counted);
      } else {
        CollapseKeepsLines(s[1..], if s[0] == '\n' then false else if IsSpace(s[0]) then counted else true);
        assert ([s[0]] + CollapseLines(s[1..]))[1..] == CollapseLines(s[1..]);
      }
    }
  }

  lemma {:induction false} VisibleAcrossLines(a: string, b: string, counted: bool)
    ensures Visible(a + "\n" + b, counted) == Visible(a, counted) + Visible(b, false)
  {
    if a == "" {
      assert (a + "\n" + b)[1..] == b;
    } else {
      assert (a + "\n" + b)[1..] == a[1..] + "\n" + b;
      VisibleAcrossLines(a[1..], b, if a[0] == '\n' then false else if IsSpace(a[0]) then counted else true);
    }
  }

  lemma {:induction false} OneLine(s: string, counted: bool)
    requires NoBreak(s)
    ensures Visible(s, counted) == if counted || Blank(s) then 0 else 1
  {
    if s != "" {
      OneLine(s[1..], if IsSpace(s[0]) then counted else true);
      assert s == [s[0]] + s[1..];
    }
  }

  lemma {:induction false} JoinedLines(lines: seq<string>)
    requires NoBreaks(lines)
    ensures NonBlankLines(JoinLines(lines)) == NonBlank(lines)
  {
    if lines != [] {
      OneLine(lines[0], false);
      if |lines| > 1 {
        assert NoBreaks(lines[1..]);
        JoinedLines(lines[1..]);
        VisibleAcrossLines(lines[0], JoinLines(lines[1..]), false);
      } else {
        assert lines[1..] == [];
      }
    }
  }

  lemma JoinCons(line: string, lines: seq<string>)
    requires lines != []
    ensures JoinLines([line] + lines) == line + "\n" + JoinLines(lines)
  {
    assert ([line] + lines)[1..] == lines;
  }

  lemma CutAtBreak(s: string, n: nat)
    requires n < |s| && s[n] == '\n'
    ensures s == s[..n] + "\n" + s[n+1..]
  {
  }

  lemma {:induction false} SplitJoin(s: string)
    ensures JoinLines(SplitLines(s)) == s
    decreases |s|
  {
    var n := LineEnd(s);
    if n < |s| {
      SplitJoin(s[n+1..]);
      JoinCons(s[..n], SplitLines(s[n+1..]));
      CutAtBreak(s, n);
    }
  }

  lemma SplitCounts(s: string)
    ensures NonBlank(SplitLines(s)) == NonBlankLines(s)
  {
    SplitJoin(s);
    JoinedLines(SplitLines(s));
  }

  // ------------------------------------------------------------------
  // Clipping at a boundary
  // ------------------------------------------------------------------

  predicate SentenceEndAt(s: string, i: nat)
    requires i < |s|
  {
    (s[i] == '.' || s[i] == '!' || s[i] == '?') && (i + 1 == |s| || IsSpace(s[i+1]))
  }

  /** One past the last sentence end, or 0. */
  function LastSentenceEnd(s: string, n: nat): (e: nat)
    requires n <= |s|
    ensures e <= n
    ensures e > 0 ==> SentenceEndAt(s, e - 1)
    ensures forall i | e <= i < n :: !SentenceEndAt(s, i)
  {
    if n == 0 then 0 else if SentenceEndAt(s, n - 1) then n else LastSentenceEnd(s, n - 1)
  }

  /** Where the text's last word ends: s.replace(/\s+\S*$/, "") keeps this much. */
  function LastWordCut(s: string): (n: nat)
    ensures n <= |s|
  {
    if forall i | 0 <= i < |s| :: !IsSpace(s[i]) then |s|
    else |TrimEnd(DropLastWord(s))|
  }

  function DropLastWord(s: string): (r: string)
    ensures |r| <= |s| && r == s[..|r|]
  {
    if s == "" || IsSpace(s[|s|-1]) then s else DropLastWord(s[..|s|-1])
  }

  predicate NoSpace(s: string) {
    forall i | 0 <= i < |s| :: !IsSpace(s[i])
  }

  lemma {:induction false} DroppedIsAWord(s: string)
    ensures var r := DropLastWord(s); NoSpace(s[|r|..]) && (r != "" ==> IsSpace(r[|r|-1]))
  {
    if s != "" && !IsSpace(s[|s|-1]) {
      var front := s[..|s|-1];
      DroppedIsAWord(front);
      var n := |DropLastWord(s)|;
      assert forall i | n <= i < |front| :: s[i] == front[n..][i-n];
    }
  }

  /** A text with white space is cut in front of the last white space and the word behind it. */
  lemma WordCutMeans(s: string) returns (m: nat)
    ensures LastWordCut(s) <= m <= |s| && Blank(s[LastWordCut(s)..m]) && NoSpace(s[m..])
    ensures if NoSpace(s) then LastWordCut(s) == |s|
            else LastWordCut(s) < m && (LastWordCut(s) > 0 ==> !IsSpace(s[LastWordCut(s)-1]))
  {
    var r := DropLastWord(s);
    if NoSpace(s) {
      m := |s|;
    } else {
      m := |r|;
      DroppedIsAWord(s);
      EndDropped(r);
      var n := LastWordCut(s);
      assert s[n..m] == r[n..];
    }
  }

  /** How much of the slice the clip keeps before trimming. */
  function ClipPoint(slice: string): (n: nat)
    ensures n <= |slice|
  {
    var e := LastSentenceEnd(slice, |slice|);
    if e >= 40 then e
    else
      var word := LastWordCut(slice);
      if |Trim(slice[..word])| >= 40 then word else |slice|
  }

  function ClipAtBoundary(text: string, max: nat): string {
    if |text| <= max then text else Trim(text[..ClipPoint(text[..max])])
  }

  /** Trimming an opening of the text gives a piece of it. */
  lemma TrimmedOpening(text: string, n: nat) returns (i: nat, j: nat)
    requires n <= |text|
    ensures i <= j <= n && Trim(text[..n]) == text[i..j]
  {
    i, j := TrimMeans(text[..n]);
    SliceOfOpening(text, n, i, j);
  }

  lemma SliceOfOpening(text: string, n: nat, i: nat, j: nat)
    requires i <= j <= n <= |text|
    ensures text[..n][i..j] == text[i..j]
  {
  }

  /** The clip is a piece of the text within the limit. */
  lemma ClipIsSlice(text: string, max: nat) returns (i: nat, j: nat)
    ensures i <= j <= |text| && ClipAtBoundary(text, max) == text[i..j]
    ensures |ClipAtBoundary(text, max)| <= max
  {
    if |text| <= max {
      i, j := 0, |text|;
    } else {
      var n := ClipPoint(text[..max]);
      i, j := TrimmedOpening(text, n);
    }
  }

  /** The clip ends where a sentence ends when the limit leaves room for one of 40 characters. */
  lemma ClipEndsASentence(text: string, max: nat)
    requires |text| > max && LastSentenceEnd(text[..max], max) >= 40
    ensures ClipAtBoundary(text, max) == Trim(text[..LastSentenceEnd(text[..max], max)])
    ensures exists i | 0 <= i < max :: SentenceEndAt(text[..max], i) && forall k | i < k < max :: !SentenceEndAt(text[..max], k)
  {
    var e := LastSentenceEnd(text[..max], max);
    assert SentenceEndAt(text[..max], e - 1);
  }

  method FindSentenceEnd(slice: string) returns (lastSentenceEnd: int)
    ensures lastSentenceEnd == if LastSentenceEnd(slice, |slice|) == 0 then -1 else LastSentenceEnd(slice, |slice|)
  {
    lastSentenceEnd := -1;
    for i := 0 to |slice|
      invariant lastSentenceEnd == if LastSentenceEnd(slice, i) == 0 then -1 else LastSentenceEnd(slice, i)
    {
      if SentenceEndAt(slice, i) {
        lastSentenceEnd := i + 1;
      }
    }
  }

  method FindClipPoint(slice: string) returns (n: nat)
    ensures n == ClipPoint(slice)
  {
    var lastSentenceEnd := FindSentenceEnd(slice);
    if lastSentenceEnd >= 40 { return lastSentenceEnd; }
    var cut := LastWordCut(slice);
    var word := Trim(slice[..cut]);
    n := if |word| >= 40 then cut else |slice|;
  }

  method Clip(text: string, max: nat) returns (clipped: string)
    ensures clipped == ClipAtBoundary(text, max)
  {
    if |text| <= max { return text; }
    var n := FindClipPoint(text[..max]);
    clipped := Trim(text[..n]);
  }

  // ------------------------------------------------------------------
  // Shortening the body
  // ------------------------------------------------------------------

  /** What one line leaves behind when `count` visible lines were kept already. */
  function KeptHere(line: string, count: nat): seq<string> {
    if !Blank(line) then [TrimEnd(line)]
    else if 0 < count < DOCUMENT_CAPTION_MAX_LINES then [""]
    else []
  }

  function Counted(line: string, count: nat): nat {
    if Blank(line) then count else count + 1
  }

  /** The lines kept from here on. */
  function KeepLines(lines: seq<string>, count: nat): seq<string> {
    if lines == [] then []
    else if !Blank(lines[0]) && count >= DOCUMENT_CAPTION_MAX_LINES then []
    else KeptHere(lines[0], count) + KeepLines(lines[1..], Counted(lines[0], count))
  }

  predicate FitsCaption(trimmed: string) {
    |trimmed| <= DOCUMENT_CAPTION_MAX_CHARS && NonBlankLines(trimmed) <= DOCUMENT_CAPTION_MAX_LINES
  }

  /** The opening lines of a text, blank runs collapsed. */
  function Opening(trimmed: string): string {
    Trim(CollapseLines(JoinLines(KeepLines(SplitLines(trimmed), 0))))
  }

  function ShortenCaptionBody(text: string): string {
    var trimmed := Trim(text);
    if FitsCaption(trimmed) then trimmed else ClipAtBoundary(Opening(trimmed), DOCUMENT_CAPTION_MAX_CHARS)
  }

  lemma KeptHereIsClean(line: string, count: nat, more: seq<string>)
    requires NoBreak(line) && NoBreaks(more)
    ensures NoBreaks(KeptHere(line, count) + more)
    ensures NonBlank(KeptHere(line, count) + more) == NonBlank(more) + if Blank(line) then 0 else 1
  {
    var here := KeptHere(line, count);
    if here == [] {
      assert here + more == more;
    } else {
      assert (here + more)[1..] == more;
      TrimEndKeepsBlank(line);
    }
  }

  lemma {:induction false} KeptLines(lines: seq<string>, count: nat)
    requires count <= DOCUMENT_CAPTION_MAX_LINES && NoBreaks(lines)
    ensures NoBreaks(KeepLines(lines, count))
    ensures NonBlank(KeepLines(lines, count)) <= DOCUMENT_CAPTION_MAX_LINES - count
    decreases |lines|
  {
    if lines != [] && (Blank(lines[0]) || count < DOCUMENT_CAPTION_MAX_LINES) {
      assert NoBreaks(lines[1..]);
      var next := Counted(lines[0], count);
      KeptLines(lines[1..], next);
      KeptHereIsClean(lines[0], count, KeepLines(lines[1..], next));
    }
  }

  /** The lines that say something, with their trailing space removed. */
  function VisibleLines(lines: seq<string>): seq<string> {
    if lines == [] then []
    else (if Blank(lines[0]) then [] else [TrimEnd(lines[0])]) + VisibleLines(lines[1..])
  }

  lemma {:induction false} TrimEndKeepsBlank(s: string)
    ensures Blank(TrimEnd(s)) <==> Blank(s)
    ensures TrimEnd(TrimEnd(s)) == TrimEnd(s)
  {
    if s != "" && IsSpace(s[|s|-1]) {
      TrimEndKeepsBlank(s[..|s|-1]);
    }
  }

  lemma VisibleHere(line: string, count: nat, more: seq<string>)
    ensures VisibleLines(KeptHere(line, count) + more) == (if Blank(line) then [] else [TrimEnd(line)]) + VisibleLines(more)
  {
    var here := KeptHere(line, count);
    if here == [] {
      assert here + more == more;
    } else {
      assert (here + more)[1..] == more;
      TrimEndKeepsBlank(line);
    }
  }

  function FirstOf<T>(s: seq<T>, n: nat): seq<T> {
    if |s| <= n then s else s[..n]
  }

  lemma FirstOfCons<T>(head: T, s: seq<T>, n: nat)
    requires n > 0
    ensures FirstOf([head] + s, n) == [head] + FirstOf(s, n - 1)
  {
  }

  /** What is kept are the first visible lines, in order, up to the limit. */
  lemma {:induction false} KeptAreTheFirst(lines: seq<string>, count: nat)
    requires count <= DOCUMENT_CAPTION_MAX_LINES
    ensures VisibleLines(KeepLines(lines, count)) == FirstOf(VisibleLines(lines), DOCUMENT_CAPTION_MAX_LINES - count)
    decreases |lines|
  {
    if lines != [] {
      if Blank(lines[0]) || count < DOCUMENT_CAPTION_MAX_LINES {
        var next := Counted(lines[0], count);
        KeptAreTheFirst(lines[1..], next);
        VisibleHere(lines[0], count, KeepLines(lines[1..], next));
        if !Blank(lines[0]) {
          FirstOfCons(TrimEnd(lines[0]), VisibleLines(lines[1..]), DOCUMENT_CAPTION_MAX_LINES - count);
        }
      }
    }
  }

  lemma OpeningIsShort(trimmed: string)
    ensures NonBlankLines(Opening(trimmed)) <= DOCUMENT_CAPTION_MAX_LINES
  {
    var lines := SplitLines(trimmed);
    KeptLines(lines, 0);
    var kept := KeepLines(lines, 0);
    JoinedLines(kept);
    CollapseKeepsLines(JoinLines(kept), false);
    TrimHasNoMoreLines(CollapseLines(JoinLines(kept)));
  }

  /** Every body, however long, becomes at most 320 characters and 4 visible lines. */
  lemma ShortBodyBounds(text: string)
    ensures FitsCaption(ShortenCaptionBody(text))
  {
    var trimmed := Trim(text);
    if !FitsCaption(trimmed) {
      var opening := Opening(trimmed);
      OpeningIsShort(trimmed);
      var i, j := ClipIsSlice(opening, DOCUMENT_CAPTION_MAX_CHARS);
      SliceHasNoMoreLines(opening, i, j);
    }
  }

  /** The loop that keeps the opening lines. */
  method KeepOpening(lines: seq<string>) returns (kept: seq<string>)
    ensures kept == KeepLines(lines, 0)
  {
    kept := [];
    var count: nat := 0;
    assert lines[0..] == lines;
    for i := 0 to |lines|
      invariant kept + KeepLines(lines[i..], count) == KeepLines(lines, 0)
    {
      var line := lines[i];
      KeepNext(lines, i, count, kept);
      if !Blank(line) && count >= DOCUMENT_CAPTION_MAX_LINES { return; }
      kept := kept + KeptHere(line, count);
      count := Counted(line, count);
    }
    assert lines[|lines|..] == [];
  }

  lemma KeepNext(lines: seq<string>, i: nat, count: nat, kept: seq<string>)
    requires i < |lines|
    ensures kept + KeepLines(lines[i..], count) ==
            if !Blank(lines[i]) && count >= DOCUMENT_CAPTION_MAX_LINES then kept
            else kept + KeptHere(lines[i], count) + KeepLines(lines[i+1..], Counted(lines[i], count))
  {
    assert lines[i..][0] == lines[i] && lines[i..][1..] == lines[i+1..];
  }

  method PickOpening(trimmed: string) returns (result: string)
    ensures result == Opening(trimmed)
  {
    var kept := KeepOpening(SplitLines(trimmed));
    result := Trim(CollapseLines(JoinLines(kept)));
  }

  method Fits(trimmed: string) returns (fits: bool)
    ensures fits <==> FitsCaption(trimmed)
  {
    var lines := SplitLines(trimmed);
    SplitCounts(trimmed);
    fits := |trimmed| <= DOCUMENT_CAPTION_MAX_CHARS && NonBlank(lines) <= DOCUMENT_CAPTION_MAX_LINES;
  }

  method Shorten(text: string) returns (result: string)
    ensures result == ShortenCaptionBody(text)
  {
    var trimmed := Trim(text);
    if trimmed == "" { return ""; }
    var fits := Fits(trimmed);
    if fits { return trimmed; }
    var opening := PickOpening(trimmed);
    result := Clip(opening, DOCUMENT_CAPTION_MAX_CHARS);
  }

  // ------------------------------------------------------------------
  // The failure note
  // ------------------------------------------------------------------

  const ATTACHMENT := "Attachment"
  const ATTACHMENTS := " attachments"

  predicate StartsWith(s: string, prefix: string) {
    |prefix| <= |s| && s[..|prefix|] == prefix
  }

  function LeadingDigits(s: string): (n: nat)
    ensures n <= |s|
  {
    if s != "" && '0' <= s[0] <= '9' then 1 + LeadingDigits(s[1..]) else 0
  }

  /** "Attachment" or a number and " attachments". */
  predicate NoteOpening(s: string) {
    StartsWith(s, ATTACHMENT) || (LeadingDigits(s) > 0 && StartsWith(s[LeadingDigits(s)..], ATTACHMENTS))
  }

  /** One bracketed line about attachments. */
  predicate IsNote(s: string) {
    && |s| >= 2 && s[0] == '(' && s[|s|-1] == ')'
    && (forall i | 1 <= i < |s| - 1 :: s[i] != ')' && s[i] != '\n')
    && NoteOpening(s[1..|s|-1])
  }

  /** Where the last line begins. */
  function LastLine(s: string): (p: nat)
    ensures p <= |s| && (forall i | p <= i < |s| :: s[i] != '\n') && (p > 0 ==> s[p-1] == '\n')
  {
    if s == "" || s[|s|-1] == '\n' then |s| else LastLine(s[..|s|-1])
  }

  predicate HasNote(text: string) {
    var p := LastLine(text);
    p >= 2 && text[p-2] == '\n' && IsNote(text[p..])
  }

  datatype Parts = Parts(body: string, note: Option<string>)

  function SplitFailureNote(text: string): Parts {
    if HasNote(text) then
      var p := LastLine(text);
      Parts(Trim(text[..p-2]), Some(text[p..]))
    else Parts(text, None)
  }

  /** The split agrees with the pattern: a note is found exactly when the text is
      something, an empty line, and a note, and then it is that note. */
  lemma NoteIsTheLastParagraph(text: string, before: string, note: string)
    requires text == before + "\n\n" + note && IsNote(note)
    ensures SplitFailureNote(text) == Parts(Trim(before), Some(note))
  {
    var q := |before| + 2;
    assert text[q-1] == '\n' && text[q..] == note && text[q-2] == '\n' && text[..q-2] == before;
    assert forall i | q <= i < |text| :: text[i] == note[i-q];
    LastLineIs(text, q);
  }

  lemma {:induction false} LastLineIs(s: string, q: nat)
    requires 0 < q <= |s| && s[q-1] == '\n' && forall i | q <= i < |s| :: s[i] != '\n'
    ensures LastLine(s) == q
    decreases |s|
  {
    if q < |s| {
      LastLineIs(s[..|s|-1], q);
    }
  }

  predicate NoteAt(text: string, p: nat) {
    p + 2 <= |text| && text[p..p+2] == "\n\n" && IsNote(text[p+2..])
  }

  lemma NoteFoundIff(text: string)
    ensures HasNote(text) <==> exists p: nat :: NoteAt(text, p)
  {
    if HasNote(text) {
      var p := LastLine(text) - 2;
      assert NoteAt(text, p);
    }
    if p: nat :| NoteAt(text, p) {
      assert text == text[..p] + text[p..p+2] + text[p+2..];
      NoteIsTheLastParagraph(text, text[..p], text[p+2..]);
    }
  }

  // ------------------------------------------------------------------
  // The whole caption
  // ------------------------------------------------------------------

  /** The operator's welcome opens the body on a line of its own. */
  predicate Opens(prefix: string, body: string) {
    prefix != "" && (body == prefix || StartsWith(body, prefix + "\n"))
  }

  function WithRest(prefix: string, rest: string): (r: string)
    ensures StartsWith(r, prefix) && |r| <= |prefix| + 2 + |rest|
  {
    if rest != "" then prefix + "\n\n" + rest else prefix
  }

  function ShortBody(body: string, prefix: string): string {
    if Opens(prefix, body) then WithRest(prefix, ShortenCaptionBody(Trim(body[|prefix|..])))
    else ShortenCaptionBody(body)
  }

  function WithNote(body: string, note: string): (r: string)
    ensures EndsWith(r, note) && |note| <= |r| <= |body| + 2 + |note|
  {
    if body != "" then body + "\n\n" + note else note
  }

  /** Body and note within the hard limit; the note wins. */
  function Fit(body: string, note: Option<string>): string {
    match note
    case None => ClipAtBoundary(body, WHATSAPP_CAPTION_HARD_MAX)
    case Some(n) =>
      if |WithNote(body, n)| <= WHATSAPP_CAPTION_HARD_MAX then WithNote(body, n)
      else if WHATSAPP_CAPTION_HARD_MAX - (|n| + 2) < 1 then
        (if |n| <= WHATSAPP_CAPTION_HARD_MAX then n else n[..WHATSAPP_CAPTION_HARD_MAX])
      else WithNote(ClipAtBoundary(body, WHATSAPP_CAPTION_HARD_MAX - (|n| + 2)), n)
  }

  function PrefixOf(preservedPrefix: Option<string>): string {
    if preservedPrefix.Some? then Trim(preservedPrefix.value) else ""
  }

  function CaptionFor(parts: Parts, prefix: string): string {
    Fit(ShortBody(parts.body, prefix), parts.note)
  }

  function DocumentCaption(text: string, preservedPrefix: Option<string>): string {
    CaptionFor(SplitFailureNote(Trim(text)), PrefixOf(preservedPrefix))
  }

  lemma FitBounds(body: string, note: Option<string>)
    ensures |Fit(body, note)| <= WHATSAPP_CAPTION_HARD_MAX
    ensures note.Some? ==> (EndsWith(Fit(body, note), note.value) <==> |note.value| <= WHATSAPP_CAPTION_HARD_MAX)
  {
    match note {
      case None => var _, _ := ClipIsSlice(body, WHATSAPP_CAPTION_HARD_MAX);
      case Some(n) => NoteBounds(body, n);
    }
  }

  lemma NoteBounds(body: string, n: string)
    ensures |Fit(body, Some(n))| <= WHATSAPP_CAPTION_HARD_MAX
    ensures EndsWith(Fit(body, Some(n)), n) <==> |n| <= WHATSAPP_CAPTION_HARD_MAX
  {
    var room := WHATSAPP_CAPTION_HARD_MAX - (|n| + 2);
    if room >= 1 {
      var _, _ := ClipIsSlice(body, room);
    } else if |n| <= WHATSAPP_CAPTION_HARD_MAX {
      assert n[|n|-|n|..] == n;
    }
  }

  /** When body and note fit together nothing is cut. */
  lemma FitKeepsAll(body: string, note: Option<string>)
    requires |body| + (if note.Some? then |note.value| + 2 else 0) <= WHATSAPP_CAPTION_HARD_MAX
    ensures StartsWith(Fit(body, note), body)
    ensures Fit(body, note) == match note case None => body case Some(n) => WithNote(body, n)
  {
  }

  /** For every text and every prefix: the caption is within 1024 characters, and a
      failure note survives whole at its end exactly when it fits there at all. */
  lemma CaptionBounds(text: string, preservedPrefix: Option<string>)
    ensures |DocumentCaption(text, preservedPrefix)| <= WHATSAPP_CAPTION_HARD_MAX
    ensures var note := SplitFailureNote(Trim(text)).note;
            note.Some? ==> (EndsWith(DocumentCaption(text, preservedPrefix), note.value)
                            <==> |note.value| <= WHATSAPP_CAPTION_HARD_MAX)
  {
    var parts := SplitFailureNote(Trim(text));
    FitBounds(ShortBody(parts.body, PrefixOf(preservedPrefix)), parts.note);
  }

  lemma TrimTwice(s: string)
    ensures Trim(Trim(s)) == Trim(s)
  {
    var t := Trim(s);
    TrimmedStart(s);
    if t != "" { TrimFixed(t); }
  }

  lemma ShortBodyKeepsPrefix(body: string, prefix: string)
    requires Opens(prefix, body)
    ensures StartsWith(ShortBody(body, prefix), prefix)
    ensures |ShortBody(body, prefix)| <= |prefix| + 2 + DOCUMENT_CAPTION_MAX_CHARS
  {
    var rest := Trim(body[|prefix|..]);
    assert |ShortenCaptionBody(rest)| <= DOCUMENT_CAPTION_MAX_CHARS by {
      ShortBodyBounds(rest);
    }
  }

  /** A matching prefix survives whole at the start when prefix and note are at most 700 characters. */
  lemma PrefixSurvives(text: string, prefix: string)
    ensures var parts := SplitFailureNote(Trim(text));
            Opens(Trim(prefix), parts.body)
            && |Trim(prefix)| + (if parts.note.Some? then |parts.note.value| else 0) <= 700
            ==> StartsWith(DocumentCaption(text, Some(prefix)), Trim(prefix))
  {
    var parts := SplitFailureNote(Trim(text));
    if Opens(Trim(prefix), parts.body)
       && |Trim(prefix)| + (if parts.note.Some? then |parts.note.value| else 0) <= 700 {
      PrefixFits(parts.body, parts.note, Trim(prefix));
    }
  }

  lemma PrefixFits(body: string, note: Option<string>, prefix: string)
    requires Opens(prefix, body) && |prefix| + (if note.Some? then |note.value| else 0) <= 700
    ensures StartsWith(Fit(ShortBody(body, prefix), note), prefix)
  {
    ShortBodyKeepsPrefix(body, prefix);
    FitKeepsAll(ShortBody(body, prefix), note);
    PrefixOfPrefix(Fit(ShortBody(body, prefix), note), ShortBody(body, prefix), prefix);
  }

  lemma PrefixOfPrefix(s: string, middle: string, prefix: string)
    requires StartsWith(s, middle) && StartsWith(middle, prefix)
    ensures StartsWith(s, prefix)
  {
    assert s[..|prefix|] == s[..|middle|][..|prefix|];
  }

  /** Without a matching prefix the body part is at most 320 characters and 4 visible
      lines, and it is kept whole unless the note leaves it no room. */
  lemma UnprefixedIsShort(text: string, preservedPrefix: Option<string>)
    requires !Opens(PrefixOf(preservedPrefix), SplitFailureNote(Trim(text)).body)
    ensures UncutCaption(SplitFailureNote(Trim(text)), DocumentCaption(text, preservedPrefix))
  {
    UnprefixedParts(SplitFailureNote(Trim(text)), PrefixOf(preservedPrefix));
  }

  lemma ShortStays(t: string)
    requires Trim(t) == t && |t| <= DOCUMENT_CAPTION_MAX_CHARS && NonBlank(SplitLines(t)) <= DOCUMENT_CAPTION_MAX_LINES
    ensures ShortenCaptionBody(t) == t
  {
    SplitCounts(t);
  }

  /** A short reply goes out as it is, trimmed. */
  lemma ShortReplyIsWhole(text: string, preservedPrefix: Option<string>)
    requires |Trim(text)| <= DOCUMENT_CAPTION_MAX_CHARS && NonBlank(SplitLines(Trim(text))) <= DOCUMENT_CAPTION_MAX_LINES
    requires SplitFailureNote(Trim(text)) == Parts(Trim(text), None) && !Opens(PrefixOf(preservedPrefix), Trim(text))
    ensures DocumentCaption(text, preservedPrefix) == Trim(text)
  {
    TrimTwice(text);
    ShortStays(Trim(text));
    UnprefixedIsShort(text, preservedPrefix);
  }

  predicate UncutCaption(parts: Parts, caption: string) {
    var body := ShortenCaptionBody(parts.body);
    && FitsCaption(body)
    && (parts.note.None? ==> caption == body)
    && (parts.note.Some? && |parts.note.value| <= 702 ==> caption == WithNote(body, parts.note.value))
  }

  lemma UnprefixedParts(parts: Parts, prefix: string)
    requires !Opens(prefix, parts.body)
    ensures UncutCaption(parts, CaptionFor(parts, prefix))
  {
    ShortFits(parts.body, parts.note);
  }

  lemma ShortFits(body: string, note: Option<string>)
    ensures var short := ShortenCaptionBody(body);
            && FitsCaption(short)
            && (note.None? ==> Fit(short, note) == short)
            && (note.Some? && |note.value| <= 702 ==> Fit(short, note) == WithNote(short, note.value))
  {
    ShortBodyBounds(body);
    if note.None? || |note.value| <= 702 {
      FitKeepsAll(ShortenCaptionBody(body), note);
    }
  }

  method Caption(text: string, preservedPrefix: Option<string>) returns (caption: string)
    ensures caption == DocumentCaption(text, preservedPrefix)
    ensures |caption| <= WHATSAPP_CAPTION_HARD_MAX
  {
    CaptionBounds(text, preservedPrefix);
    var parts := SplitFailureNote(Trim(text));
    var prefix := PrefixOf(preservedPrefix);
    var shortBody := ShortBodyOf(parts.body, prefix);
    caption := FitCaption(shortBody, parts.note);
  }

  method ShortBodyOf(body: string, prefix: string) returns (shortBody: string)
    ensures shortBody == ShortBody(body, prefix)
  {
    if Opens(prefix, body) {
      var rest := Trim(body[|prefix|..]);
      var shortRest := Shorten(rest);
      shortBody := WithRest(prefix, shortRest);
    } else {
      shortBody := Shorten(body);
    }
  }

  method FitCaption(shortBody: string, note: Option<string>) returns (caption: string)
    ensures caption == Fit(shortBody, note)
  {
    var withNote := if note.Some? then WithNote(shortBody, note.value) else shortBody;
    if |withNote| <= WHATSAPP_CAPTION_HARD_MAX { return withNote; }
    if note.None? {
      caption := Clip(withNote, WHATSAPP_CAPTION_HARD_MAX);
      return;
    }
    var n := note.value;
    var room := WHATSAPP_CAPTION_HARD_MAX - (|n| + 2);
    if room < 1 {
      return n[..if |n| < WHATSAPP_CAPTION_HARD_MAX then |n| else WHATSAPP_CAPTION_HARD_MAX];
    }
    var clipped := Clip(shortBody, room);
    caption := WithNote(clipped, n);
  }
}
