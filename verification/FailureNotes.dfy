/**
 * The bracketed line about attachments that could not be sent
 * (src/routing/outboundDispatcher.ts:568-584), and why it reaches the end of
 * the caption whole (src/routing/sanitizer.ts:154-172, 309-313).
 */
module FailureNotes {
  import opened Common
  import opened JsText
  import opened Captions
  import opened PdfText

  /** A reason that is told to the user; intentional skips are filtered out before. */
  datatype Reason = TooLarge | Unavailable

  function Count(failures: seq<Reason>, r: Reason): (n: nat)
    ensures n <= |failures|
  {
    if failures == [] then 0 else (if failures[0] == r then 1 else 0) + Count(failures[1..], r)
  }

  function Other(r: Reason): Reason {
    match r case TooLarge => Unavailable case Unavailable => TooLarge
  }

  const ONE := "attachment"
  const TOO_LARGE_TEXT := " too large to send"
  const UNAVAILABLE_TEXT := " couldn't be retrieved"
  const BETWEEN := "; "

  function Said(r: Reason): string {
    match r case TooLarge => TOO_LARGE_TEXT case Unavailable => UNAVAILABLE_TEXT
  }

  /** The counted noun; the first one of the note is capitalised. */
  function Noun(n: nat, first: bool): string {
    if n != 1 then Decimal(n) + ATTACHMENTS
    else if first then ATTACHMENT else ONE
  }

  function Phrase(n: nat, r: Reason, first: bool): string {
    Noun(n, first) + Said(r)
  }

  /** The phrases in the order their reasons first occurred. */
  function Inside(failures: seq<Reason>): string
    requires failures != []
  {
    var r := failures[0];
    var others := Count(failures, Other(r));
    Phrase(Count(failures, r), r, true) + if others == 0 then "" else BETWEEN + Phrase(others, Other(r), false)
  }

  function FailureNote(failures: seq<Reason>): string
    requires failures != []
  {
    "(" + Inside(failures) + ")"
  }

  /** The note in full, for one reason, */
  lemma NoteOfOneReason(failures: seq<Reason>)
    requires failures != []
    ensures Count(failures, Unavailable) == 0 ==>
              FailureNote(failures) == "(" + Counted(Count(failures, TooLarge), "Attachment") + " too large to send" + ")"
    ensures Count(failures, TooLarge) == 0 ==>
              FailureNote(failures) == "(" + Counted(Count(failures, Unavailable), "Attachment") + " couldn't be retrieved" + ")"
  {
    var noun := Noun(Count(failures, failures[0]), true);
    assert noun + Said(failures[0]) + "" == noun + Said(failures[0]);
    ThreeParts("(", noun, Said(failures[0]), ")");
  }

  /** and for both: the reason met first comes first. */
  lemma NoteOfBothReasons(failures: seq<Reason>)
    requires failures != [] && Count(failures, TooLarge) > 0 && Count(failures, Unavailable) > 0
    ensures failures[0] == TooLarge ==>
              FailureNote(failures) == "(" + (Counted(Count(failures, TooLarge), "Attachment") + " too large to send"
                + ("; " + (Counted(Count(failures, Unavailable), "attachment") + " couldn't be retrieved"))) + ")"
    ensures failures[0] == Unavailable ==>
              FailureNote(failures) == "(" + (Counted(Count(failures, Unavailable), "Attachment") + " couldn't be retrieved"
                + ("; " + (Counted(Count(failures, TooLarge), "attachment") + " too large to send"))) + ")"
  {
  }

  function Counted(n: nat, one: string): string {
    if n == 1 then one else Decimal(n) + " attachments"
  }

  lemma ThreeParts(a: string, b: string, c: string, d: string)
    ensures a + (b + c) + d == a + b + c + d
  {
  }

  function WithFailureNote(text: string, failures: seq<Reason>): string {
    if failures == [] then text else WithNote(text, FailureNote(failures))
  }

  /** The counting loop over the failures. */
  method CountReasons(failures: seq<Reason>) returns (tooLarge: nat, unavailable: nat)
    ensures tooLarge == Count(failures, TooLarge) && unavailable == Count(failures, Unavailable)
    ensures tooLarge + unavailable == |failures|
  {
    tooLarge, unavailable := 0, 0;
    assert failures[0..] == failures;
    for i := 0 to |failures|
      invariant tooLarge + unavailable == i
      invariant tooLarge + Count(failures[i..], TooLarge) == Count(failures, TooLarge)
      invariant unavailable + Count(failures[i..], Unavailable) == Count(failures, Unavailable)
    {
      assert failures[i..][0] == failures[i] && failures[i..][1..] == failures[i+1..];
      if failures[i] == TooLarge {
        tooLarge := tooLarge + 1;
      } else {
        unavailable := unavailable + 1;
      }
    }
  }

  // ------------------------------------------------------------------
  // Every such note is one the caption splitter recognises
  // ------------------------------------------------------------------

  /** No bracket and no line break inside. */
  predicate Plain(s: string) {
    forall i | 0 <= i < |s| :: s[i] != ')' && s[i] != '\n'
  }

  lemma PlainAppend(a: string, b: string)
    requires Plain(a) && Plain(b)
    ensures Plain(a + b)
  {
  }

  lemma DigitsArePlain(n: nat)
    ensures Plain(Decimal(n))
  {
    var s := Decimal(n);
    assert forall i | 0 <= i < |s| :: IsDigit(s[i]);
  }

  lemma NounIsPlain(n: nat, first: bool)
    ensures Plain(Noun(n, first))
  {
    if n != 1 {
      DigitsArePlain(n);
      PlainAppend(Decimal(n), ATTACHMENTS);
    }
  }

  lemma PhraseIsPlain(n: nat, r: Reason, first: bool)
    ensures Plain(Phrase(n, r, first))
  {
    NounIsPlain(n, first);
    assert Plain(TOO_LARGE_TEXT) && Plain(UNAVAILABLE_TEXT);
    PlainAppend(Noun(n, first), Said(r));
  }

  lemma {:induction false} DigitsThenText(digits: string, text: string)
    requires AllDigits(digits) && text != "" && !IsDigit(text[0])
    ensures LeadingDigits(digits + text) == |digits|
  {
    if digits == "" {
      assert digits + text == text;
    } else {
      assert (digits + text)[1..] == digits[1..] + text;
      DigitsThenText(digits[1..], text);
    }
  }

  lemma StartsThere(a: string, b: string, c: string)
    ensures Captions.StartsWith(a + b, a)
    ensures (a + (b + c))[|a|..] == b + c
  {
  }

  lemma OpensLikeANote(n: nat, rest: string)
    ensures NoteOpening(Noun(n, true) + rest)
  {
    if n == 1 {
      StartsThere(ATTACHMENT, rest, "");
    } else {
      var digits := Decimal(n);
      assert digits + ATTACHMENTS + rest == digits + (ATTACHMENTS + rest);
      DigitsThenText(digits, ATTACHMENTS + rest);
      StartsThere(digits, ATTACHMENTS, rest);
      StartsThere(ATTACHMENTS, rest, "");
    }
  }

  lemma Bracketed(inside: string)
    requires Plain(inside) && NoteOpening(inside)
    ensures IsNote("(" + inside + ")")
  {
    var s := "(" + inside + ")";
    assert s[1..|s|-1] == inside;
    assert forall i | 1 <= i < |s| - 1 :: s[i] == inside[i-1];
  }

  lemma InsideShape(failures: seq<Reason>) returns (rest: string)
    requires failures != []
    ensures Inside(failures) == Noun(Count(failures, failures[0]), true) + rest && Plain(rest)
  {
    var r := failures[0];
    var others := Count(failures, Other(r));
    var tail := if others == 0 then "" else BETWEEN + Phrase(others, Other(r), false);
    rest := Said(r) + tail;
    assert Plain(TOO_LARGE_TEXT) && Plain(UNAVAILABLE_TEXT) && Plain(BETWEEN);
    if others != 0 {
      PhraseIsPlain(others, Other(r), false);
      PlainAppend(BETWEEN, Phrase(others, Other(r), false));
    }
    PlainAppend(Said(r), tail);
    Regroup(Noun(Count(failures, r), true), Said(r), tail);
  }

  lemma FailureNoteIsNote(failures: seq<Reason>)
    requires failures != []
    ensures IsNote(FailureNote(failures))
  {
    var rest := InsideShape(failures);
    var noun := Noun(Count(failures, failures[0]), true);
    NounIsPlain(Count(failures, failures[0]), true);
    PlainAppend(noun, rest);
    OpensLikeANote(Count(failures, failures[0]), rest);
    Bracketed(Inside(failures));
  }

  lemma {:induction false} DecimalIsShort(n: nat)
    requires n < 0x1_0000_0000
    ensures |Decimal(n)| <= 10
  {
    DecimalLength(n, 10);
    assert Power10(10) == 10 * Power10(9) == 100 * Power10(8) == 1000 * Power10(7) == 10000 * Power10(6);
    assert Power10(6) == 10 * Power10(5) == 100 * Power10(4) == 1000 * Power10(3) == 10000 * Power10(2);
    assert Power10(2) == 10 * Power10(1) == 100 * Power10(0);
  }

  /** An array has fewer than 2^32 elements, so the note is short. */
  lemma FailureNoteIsShort(failures: seq<Reason>)
    requires failures != [] && |failures| < 0x1_0000_0000
    ensures |FailureNote(failures)| <= 120
  {
    DecimalIsShort(Count(failures, TooLarge));
    DecimalIsShort(Count(failures, Unavailable));
  }

  lemma NoteSurvivesSplit(text: string, note: string, prefix: Option<string>)
    requires IsNote(note) && |note| <= WHATSAPP_CAPTION_HARD_MAX
    requires text != "" && !IsSpace(text[0])
    ensures EndsWith(DocumentCaption(text + "\n\n" + note, prefix), note)
  {
    var whole := text + "\n\n" + note;
    assert whole[0] == text[0] && whole[|whole|-1] == ')';
    TrimFixed(whole);
    NoteIsTheLastParagraph(whole, text, note);
    CaptionBounds(whole, prefix);
  }

  lemma NoteHasNoBreak(note: string)
    requires IsNote(note)
    ensures NoBreak(note) && !HasNote(note)
  {
    assert forall i | 1 <= i < |note| - 1 :: note[i] != '\n';
  }

  lemma LineStays(line: string)
    ensures NoBreak(line) && !HasNote(line) && Trim(line) == line && |line| <= DOCUMENT_CAPTION_MAX_CHARS
            ==> SplitFailureNote(Trim(line)) == Parts(line, None) && ShortenCaptionBody(line) == line
  {
    if NoBreak(line) { OneLine(line, false); }
  }

  lemma NoteIsTrimmed(note: string)
    requires IsNote(note)
    ensures Trim(note) == note
  {
    TrimFixed(note);
  }

  lemma NoteStays(note: string)
    requires IsNote(note) && |note| <= DOCUMENT_CAPTION_MAX_CHARS
    ensures SplitFailureNote(Trim(note)) == Parts(note, None)
    ensures ShortenCaptionBody(note) == note
  {
    NoteIsTrimmed(note);
    NoteHasNoBreak(note);
    LineStays(note);
  }

  lemma NoteAlone(note: string, prefix: Option<string>)
    requires IsNote(note) && |note| <= DOCUMENT_CAPTION_MAX_CHARS
    requires !Opens(PrefixOf(prefix), note)
    ensures DocumentCaption(note, prefix) == note
  {
    NoteStays(note);
    ShortTextStays(note, note, prefix);
  }

  lemma ShortTextStays(text: string, body: string, prefix: Option<string>)
    ensures SplitFailureNote(Trim(text)) == Parts(body, None) && ShortenCaptionBody(body) == body
            && !Opens(PrefixOf(prefix), body)
            ==> DocumentCaption(text, prefix) == body
  {
    if !Opens(PrefixOf(prefix), SplitFailureNote(Trim(text)).body) {
      UnprefixedIsShort(text, prefix);
    }
  }

  lemma AtTheEnd(s: string)
    ensures EndsWith(s, s)
  {
    assert s[|s|-|s|..] == s;
  }

  /** Whatever the trimmed reply says, whatever failed and whatever the prefix, the note
      about the failures stands whole at the end of a document caption. */
  lemma FailureNoteSurvives(trimmed: string, failures: seq<Reason>, prefix: Option<string>)
    requires failures != [] && |failures| < 0x1_0000_0000
    requires trimmed != "" ==> !IsSpace(trimmed[0])
    ensures EndsWith(DocumentCaption(WithFailureNote(trimmed, failures), prefix), FailureNote(failures))
  {
    NoteOfFailures(failures);
    NoteSurvives(trimmed, FailureNote(failures), prefix);
  }

  lemma NoteOfFailures(failures: seq<Reason>)
    requires failures != [] && |failures| < 0x1_0000_0000
    ensures IsNote(FailureNote(failures)) && |FailureNote(failures)| <= DOCUMENT_CAPTION_MAX_CHARS
  {
    FailureNoteIsNote(failures);
    FailureNoteIsShort(failures);
  }

  lemma NoteSurvives(trimmed: string, note: string, prefix: Option<string>)
    requires IsNote(note) && |note| <= DOCUMENT_CAPTION_MAX_CHARS
    requires trimmed != "" ==> !IsSpace(trimmed[0])
    ensures EndsWith(DocumentCaption(WithNote(trimmed, note), prefix), note)
  {
    if trimmed != "" {
      NoteSurvivesSplit(trimmed, note, prefix);
    } else if Opens(PrefixOf(prefix), note) {
      NoteIsThePrefix(note, prefix);
      AtTheEnd(note);
    } else {
      NoteAlone(note, prefix);
      AtTheEnd(note);
    }
  }

  /** A note is one line, so a prefix that opens it is the note itself. */
  lemma NoteIsThePrefix(note: string, prefix: Option<string>)
    requires IsNote(note) && |note| <= DOCUMENT_CAPTION_MAX_CHARS && Opens(PrefixOf(prefix), note)
    ensures DocumentCaption(note, prefix) == note
  {
    NoteStays(note);
    NoteHasNoBreak(note);
    OneLinePrefix(note, PrefixOf(prefix));
    PrefixAlone(note);
  }

  lemma OneLinePrefix(line: string, prefix: string)
    requires NoBreak(line) && Opens(prefix, line)
    ensures prefix == line
  {
    if Captions.StartsWith(line, prefix + "\n") { BreakAfter(line, prefix); }
  }

  lemma BreakAfter(s: string, prefix: string)
    requires Captions.StartsWith(s, prefix + "\n")
    ensures |prefix| < |s| && s[|prefix|] == '\n'
  {
    assert s[..|prefix + "\n"|][|prefix|] == (prefix + "\n")[|prefix|];
  }

  lemma PrefixAlone(line: string)
    requires line != "" && |line| <= WHATSAPP_CAPTION_HARD_MAX
    ensures CaptionFor(Parts(line, None), line) == line
  {
    assert line[|line|..] == "";
    assert Trim("") == "" && ShortenCaptionBody("") == "";
  }
}
