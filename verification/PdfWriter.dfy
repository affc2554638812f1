/**
 * The hand-written one-page PDF (src/routing/invoicePdfGuard.ts, renderPdf)
 * and a reader of the file structure written from sections 7.3.8, 7.5.2, 7.5.4
 * and 7.5.5 of ISO 32000-1. A character is one Latin-1 byte, so a string's
 * length is its byte length; see PdfBytes for the bytes themselves.
 */
module PdfWriter {
  import opened Common
  import opened PdfText

  // ------------------------------------------------------------------
  // The file as a value
  // ------------------------------------------------------------------

  /** The fixed byte strings of the file format. */
  datatype Syntax = Syntax(
    header: string, xrefHead: string, freeEntry: string, inUse: string,
    trailer: string, startKey: string, eofMark: string,
    objKey: string, endObj: string, lengthKey: string, streamKey: string, endStream: string
  )

  /** The objects that do not depend on the lines. */
  datatype Fixed = Fixed(catalog: string, pages: string, page: string, fontBold: string, fontPlain: string)

  const PDF_1_4: Syntax :=
    Syntax("%PDF-1.4\n", "xref\n0 7\n", "0000000000 65535 f \n", " 00000 n \n",
           "trailer\n<< /Size 7 /Root 1 0 R >>\n", "startxref\n", "\n%%EOF\n",
           " 0 obj\n", "\nendobj\n", "<< /Length ", " >>\nstream\n", "\nendstream")

  const CATALOG := "<< /Type /Catalog /Pages 2 0 R >>"
  const PAGES := "<< /Type /Pages /Kids [3 0 R] /Count 1 >>"
  const PAGE_PARENT := "<< /Type /Page /Parent 2 0 R"
  const MEDIA_BOX := " /MediaBox [0 0 612 792]"
  const CONTENTS := " /Contents 4 0 R"
  const RESOURCES := " /Resources << /Font"
  const FONTS := " << /F1 5 0 R /F2 6 0 R >> >> >>"
  const TYPE_1 := "<< /Type /Font /Subtype /Type1"
  const BOLD := " /BaseFont /Helvetica-Bold >>"
  const PLAIN := " /BaseFont /Helvetica >>"

  const ONE_PAGE: Fixed :=
    Fixed(CATALOG, PAGES, PAGE_PARENT + MEDIA_BOX + CONTENTS + RESOURCES + FONTS, TYPE_1 + BOLD, TYPE_1 + PLAIN)

  /** What the table and the reader rely on: entry widths, and numbers that end where a keyword begins. */
  predicate Sound(x: Syntax) {
    && |x.freeEntry| == 20 && |x.inUse| == 10
    && x.startKey != [] && !IsDigit(x.startKey[|x.startKey|-1])
    && x.streamKey != [] && !IsDigit(x.streamKey[0])
  }

  lemma Pdf14IsSound()
    ensures Sound(PDF_1_4)
  {
  }

  function StreamObject(x: Syntax, stream: string): string {
    x.lengthKey + Decimal(|stream|) + x.streamKey + stream + x.endStream
  }

  function Objects(x: Syntax, d: Fixed, stream: string): (r: seq<string>)
    ensures |r| == 6 && r[3] == StreamObject(x, stream)
  {
    [d.catalog, d.pages, d.page, StreamObject(x, stream), d.fontBold, d.fontPlain]
  }

  /** Object number n (from 1) as it stands in the file. */
  function ObjectText(x: Syntax, n: nat, body: string): string {
    Decimal(n) + x.objKey + body + x.endObj
  }

  /** The header and the first k objects. */
  function Body(x: Syntax, objects: seq<string>, k: nat): string
    requires k <= |objects|
  {
    if k == 0 then x.header else Body(x, objects, k - 1) + ObjectText(x, k, objects[k-1])
  }

  function XrefEntry(x: Syntax, offset: nat): string {
    PadStart(Decimal(offset), 10) + x.inUse
  }

  /** The in-use entries of objects 1 to k. */
  function Entries(x: Syntax, objects: seq<string>, k: nat): string
    requires k <= |objects|
  {
    if k == 0 then "" else Entries(x, objects, k - 1) + XrefEntry(x, |Body(x, objects, k - 1)|)
  }

  function PdfFile(x: Syntax, objects: seq<string>): string {
    Body(x, objects, |objects|) + x.xrefHead + x.freeEntry + Entries(x, objects, |objects|)
      + x.trailer + x.startKey + Decimal(|Body(x, objects, |objects|)|) + x.eofMark
  }

  function LinesFile(x: Syntax, d: Fixed, lines: seq<Line>): string {
    PdfFile(x, Objects(x, d, ContentStream(lines)))
  }

  /** The file written for a list of lines. */
  function InvoiceFile(lines: seq<Line>): string {
    LinesFile(PDF_1_4, ONE_PAGE, lines)
  }

  // ------------------------------------------------------------------
  // The writer
  // ------------------------------------------------------------------

  method RenderPdf(lines: seq<Line>) returns (pdf: string)
    ensures pdf == InvoiceFile(lines)
  {
    pdf := RenderFile(PDF_1_4, ONE_PAGE, lines);
  }

  method RenderFile(x: Syntax, d: Fixed, lines: seq<Line>) returns (pdf: string)
    ensures pdf == LinesFile(x, d, lines)
  {
    var stream := RenderContent(lines);
    var objects, offsets := Objects(x, d, stream), [];
    pdf, offsets := WriteObjects(x, objects);
    pdf := WriteXref(x, pdf, offsets, objects);
  }

  /** The first loop: objects one after another, remembering where each begins. */
  method WriteObjects(x: Syntax, objects: seq<string>) returns (pdf: string, offsets: seq<nat>)
    ensures pdf == Body(x, objects, |objects|)
    ensures |offsets| == |objects| && forall k {:trigger offsets[k]} | 0 <= k < |objects| :: offsets[k] == |Body(x, objects, k)|
  {
    pdf, offsets := x.header, [];
    for i := 0 to |objects|
      invariant pdf == Body(x, objects, i) && |offsets| == i
      invariant forall k {:trigger offsets[k]} | 0 <= k < i :: offsets[k] == |Body(x, objects, k)|
    {
      offsets := offsets + [|pdf|];
      pdf := pdf + ObjectText(x, i + 1, objects[i]);
    }
  }

  /** The second loop: the table, then the trailer. */
  method WriteXref(x: Syntax, body: string, offsets: seq<nat>, ghost objects: seq<string>) returns (pdf: string)
    requires body == Body(x, objects, |objects|)
    requires |offsets| == |objects| && forall k {:trigger offsets[k]} | 0 <= k < |objects| :: offsets[k] == |Body(x, objects, k)|
    ensures pdf == PdfFile(x, objects)
  {
    var xrefAt := |body|;
    pdf := body + x.xrefHead + x.freeEntry;
    var table := "";
    for i := 0 to |offsets|
      invariant table == Entries(x, objects, i)
    {
      table := table + XrefEntry(x, offsets[i]);
    }
    pdf := pdf + table + x.trailer + x.startKey + Decimal(xrefAt) + x.eofMark;
  }

  // ------------------------------------------------------------------
  // A reader of the file structure
  // ------------------------------------------------------------------

  predicate StartsWith(s: string, at: nat, prefix: string) {
    at + |prefix| <= |s| && forall i | 0 <= i < |prefix| :: prefix[i] == s[at+i]
  }

  /** How many digits `s` ends with. */
  function TrailingDigits(s: string): (n: nat)
    ensures n <= |s| && forall i | |s| - n <= i < |s| :: IsDigit(s[i])
  {
    if s == [] || !IsDigit(s[|s|-1]) then 0 else TrailingDigits(s[..|s|-1]) + 1
  }

  /** How many digits `s` has from `at` on. */
  function DigitsAt(s: string, at: nat): (n: nat)
    requires at <= |s|
    ensures at + n <= |s| && forall i | at <= i < at + n :: IsDigit(s[i])
    decreases |s| - at
  {
    if at == |s| || !IsDigit(s[at]) then 0 else DigitsAt(s, at + 1) + 1
  }

  /** Section 7.5.5: the last lines are startxref, a byte offset and %%EOF. */
  function ReadStartXref(x: Syntax, pdf: string): Option<nat> {
    if |pdf| < |x.eofMark| || pdf[|pdf|-|x.eofMark|..] != x.eofMark then None
    else
      var front := pdf[..|pdf|-|x.eofMark|];
      var digits := TrailingDigits(front);
      var keyword := front[..|front|-digits];
      if digits == 0 || |keyword| < |x.startKey| || keyword[|keyword|-|x.startKey|..] != x.startKey then None
      else Some(ValueOf(front[|front|-digits..]))
  }

  /** Section 7.5.4: the 20-byte entry of object n, in use, with its 10-digit offset. */
  function ReadXrefEntry(x: Syntax, pdf: string, xrefAt: nat, n: nat): Option<nat> {
    var at := xrefAt + |x.xrefHead| + 20 * n;
    if !StartsWith(pdf, xrefAt, x.xrefHead) || at + 20 > |pdf| then None
    else if !AllDigits(pdf[at..at+10]) || pdf[at+10..at+20] != x.inUse then None
    else Some(ValueOf(pdf[at..at+10]))
  }

  /** The offset of object n, found through the trailer and the table. */
  function FindObject(x: Syntax, pdf: string, n: nat): Option<nat> {
    var start := ReadStartXref(x, pdf);
    if start.None? then None else ReadXrefEntry(x, pdf, start.value, n)
  }

  /** The number written at `from`. */
  function NumberAt(s: string, from: nat): nat
    requires from <= |s|
  {
    ValueOf(s[from..from+DigitsAt(s, from)])
  }

  /** Section 7.3.8: exactly `length` bytes between the keywords that surround a stream. */
  function ReadBody(pdf: string, at: nat, length: nat, key: string, end: string): Option<string> {
    var body := at + |key|;
    if StartsWith(pdf, at, key) && StartsWith(pdf, body + length, end) then Some(pdf[body..body+length])
    else None
  }

  /** How a stream object begins, up to its length. */
  function StreamHead(x: Syntax, n: nat): string {
    Decimal(n) + x.objKey + x.lengthKey
  }

  /** The stream of an object that begins at `at` with `head`. */
  function ReadStreamAfter(pdf: string, at: nat, head: string, key: string, end: string): Option<string> {
    var from := at + |head|;
    if !StartsWith(pdf, at, head) then None
    else ReadBody(pdf, from + DigitsAt(pdf, from), NumberAt(pdf, from), key, end)
  }

  /** The stream of object n, which begins at `at`. */
  function ReadStream(x: Syntax, pdf: string, at: nat, n: nat): Option<string> {
    ReadStreamAfter(pdf, at, StreamHead(x, n), x.streamKey, x.endStream + x.endObj)
  }

  /** All the text a viewer shows: trailer, table, object 4, stream, literal strings. */
  function ReadText(x: Syntax, pdf: string): Option<seq<string>> {
    var at := FindObject(x, pdf, 4);
    if at.None? then None
    else
      var stream := ReadStream(x, pdf, at.value, 4);
      if stream.None? then None else Some(ReadShown(stream.value))
  }

  // ------------------------------------------------------------------
  // The table is right
  // ------------------------------------------------------------------

  /** A table entry is 20 bytes exactly when the offset fits in ten digits, and then it reads back. */
  lemma EntryIsTwentyBytes(x: Syntax, offset: nat)
    requires Sound(x)
    ensures |XrefEntry(x, offset)| == 20 <==> offset < Power10(10)
    ensures offset < Power10(10) ==>
              var e := XrefEntry(x, offset);
              AllDigits(e[..10]) && ValueOf(e[..10]) == offset && e[10..] == x.inUse
  {
    DecimalLength(offset, 10);
    DecimalRoundTrip(offset);
    if offset < Power10(10) {
      var digits := Decimal(offset);
      LeadingZeros(10 - |digits|, digits);
      assert seq(10 - |digits|, _ => '0') + digits == PadStart(digits, 10) by {
        assert |digits| == 10 ==> seq(0, _ => '0') + digits == digits;
      }
      assert XrefEntry(x, offset)[..10] == PadStart(digits, 10);
    }
  }

  lemma {:induction false} BodyGrows(x: Syntax, objects: seq<string>, j: nat, k: nat) returns (rest: string)
    requires j <= k <= |objects|
    ensures Body(x, objects, k) == Body(x, objects, j) + rest
  {
    if j == k {
      rest := "";
    } else {
      var before := BodyGrows(x, objects, j, k - 1);
      rest := before + ObjectText(x, k, objects[k-1]);
    }
  }

  /** The first k entries take 20 bytes each. */
  lemma {:induction false} EntriesLength(x: Syntax, objects: seq<string>, k: nat)
    requires Sound(x) && k <= |objects| && |Body(x, objects, k)| < Power10(10)
    ensures |Entries(x, objects, k)| == 20 * k
  {
    if k > 0 {
      var rest := BodyGrows(x, objects, k - 1, k);
      EntriesLength(x, objects, k - 1);
      EntryIsTwentyBytes(x, |Body(x, objects, k - 1)|);
    }
  }

  /** Entry n is the one written for object n. */
  lemma {:induction false} EntryPositions(x: Syntax, objects: seq<string>, k: nat, n: nat) returns (before: string, after: string)
    requires Sound(x) && 1 <= n <= k <= |objects|
    requires |Body(x, objects, k)| < Power10(10)
    ensures Entries(x, objects, k) == before + XrefEntry(x, |Body(x, objects, n - 1)|) + after
    ensures |before| == 20 * (n - 1)
    decreases k
  {
    var rest := BodyGrows(x, objects, k - 1, k);
    if n == k {
      EntriesLength(x, objects, k - 1);
      before, after := Entries(x, objects, k - 1), "";
      NothingAfter(before + XrefEntry(x, |Body(x, objects, n - 1)|));
    } else {
      var a;
      before, a := EntryPositions(x, objects, k - 1, n);
      after := a + XrefEntry(x, |Body(x, objects, k - 1)|);
      Middle(before, XrefEntry(x, |Body(x, objects, n - 1)|), a, XrefEntry(x, |Body(x, objects, k - 1)|));
    }
  }

  lemma NothingAfter(s: string)
    ensures s + "" == s
  {
  }

  lemma {:induction false} TrailingDigitsExact(front: string, c: char, digits: string)
    requires !IsDigit(c) && AllDigits(digits)
    ensures TrailingDigits(front + [c] + digits) == |digits|
  {
    var s := front + [c] + digits;
    if digits != [] {
      assert s[..|s|-1] == front + [c] + digits[..|digits|-1];
      assert digits[|digits|-1] in digits;
      assert forall d | d in digits[..|digits|-1] :: d in digits;
      TrailingDigitsExact(front, c, digits[..|digits|-1]);
    }
  }

  lemma {:induction false} DigitsAtExact(s: string, at: nat, n: nat)
    requires at + n < |s| && !IsDigit(s[at+n])
    requires forall i | at <= i < at + n :: IsDigit(s[i])
    ensures DigitsAt(s, at) == n
    decreases n
  {
    if n > 0 {
      DigitsAtExact(s, at + 1, n - 1);
    }
  }

  lemma SplitEnd(front: string, keyword: string, digits: string, end: string)
    ensures var s := front + keyword + digits + end;
            && |s| >= |end| && s[|s|-|end|..] == end
            && s[..|s|-|end|] == front + keyword + digits
            && (front + keyword + digits)[|front + keyword|..] == digits
            && (front + keyword + digits)[..|front + keyword|] == front + keyword
            && (front + keyword)[|front|..] == keyword
  {
  }

  lemma StartXrefReads(x: Syntax, front: string, at: nat)
    requires Sound(x)
    ensures ReadStartXref(x, front + x.startKey + Decimal(at) + x.eofMark) == Some(at)
  {
    var digits := Decimal(at);
    SplitEnd(front, x.startKey, digits, x.eofMark);
    KeywordEndsLine(x, front, digits);
    DecimalRoundTrip(at);
  }

  lemma KeywordEndsLine(x: Syntax, front: string, digits: string)
    requires Sound(x)
    requires AllDigits(digits)
    ensures TrailingDigits(front + x.startKey + digits) == |digits|
  {
    var key, k := x.startKey, |x.startKey| - 1;
    assert front + key + digits == (front + key[..k]) + [key[k]] + digits;
    TrailingDigitsExact(front + key[..k], key[k], digits);
  }

  lemma EntryReads(x: Syntax, body: string, before: string, offset: nat, after: string, n: nat)
    requires Sound(x)
    requires n >= 1 && |before| == 20 * (n - 1) && offset < Power10(10)
    ensures ReadXrefEntry(x, body + x.xrefHead + x.freeEntry + (before + XrefEntry(x, offset) + after), |body|, n) == Some(offset)
    ensures StartsWith(body + x.xrefHead + x.freeEntry + (before + XrefEntry(x, offset) + after), |body|, x.xrefHead)
  {
    EntryIsTwentyBytes(x, offset);
    EntryAt(body, x.xrefHead, x.freeEntry, before, XrefEntry(x, offset), after);
  }

  lemma EntryAt(body: string, head: string, free: string, before: string, e: string, after: string)
    requires |e| == 20
    ensures var pdf := body + head + free + (before + e + after);
            var at := |body| + |head| + |free| + |before|;
            && StartsWith(pdf, |body|, head)
            && at + 20 <= |pdf| && pdf[at..at+10] == e[..10] && pdf[at+10..at+20] == e[10..]
  {
    var pdf := body + head + free + (before + e + after);
    var at := |body| + |head| + |free| + |before|;
    assert pdf == (body + head + free + before) + e + after;
    assert pdf[at..at+20] == e;
    assert pdf[at..at+10] == pdf[at..at+20][..10] && pdf[at+10..at+20] == pdf[at..at+20][10..];
  }

  lemma Layout(body: string, head: string, free: string, table: string, trailer: string, key: string, digits: string, eof: string)
    ensures body + head + free + table + trailer + key + digits + eof
         == body + head + free + (table + (trailer + key + digits + eof))
    ensures body + head + free + table + trailer + key + digits + eof
         == (body + head + free + table + trailer) + key + digits + eof
    ensures body + head + free + table + trailer + key + digits + eof
         == body + (head + free + table + trailer + key + digits + eof)
  {
  }

  /** Sections 7.5.4 and 7.5.5: startxref holds the offset of the table, and entry n
      holds the exact offset at which `n 0 obj` begins. */
  lemma XrefIsExact(x: Syntax, objects: seq<string>, n: nat)
    requires Sound(x)
    requires |objects| == 6 && 1 <= n <= 6
    requires |Body(x, objects, 6)| < Power10(10)
    ensures var pdf := PdfFile(x, objects);
            && ReadStartXref(x, pdf) == Some(|Body(x, objects, 6)|)
            && StartsWith(pdf, |Body(x, objects, 6)|, x.xrefHead)
            && FindObject(x, pdf, n) == Some(|Body(x, objects, n - 1)|)
            && StartsWith(pdf, |Body(x, objects, n - 1)|, ObjectText(x, n, objects[n-1]))
  {
    var pdf, body, table := PdfFile(x, objects), Body(x, objects, 6), Entries(x, objects, 6);
    var digits := Decimal(|body|);
    Layout(body, x.xrefHead, x.freeEntry, table, x.trailer, x.startKey, digits, x.eofMark);
    StartXrefReads(x, body + x.xrefHead + x.freeEntry + table + x.trailer, |body|);
    var rest := BodyGrows(x, objects, n, 6);
    var before, after := EntryPositions(x, objects, 6, n);
    var tail := x.trailer + x.startKey + digits + x.eofMark;
    EntryReads(x, body, before, |Body(x, objects, n - 1)|, after + tail, n);
    Middle(before, XrefEntry(x, |Body(x, objects, n - 1)|), after, tail);
    ObjectInFile(x, objects, n, rest, x.xrefHead + x.freeEntry + table + x.trailer + x.startKey + digits + x.eofMark);
  }

  lemma Middle(before: string, e: string, after: string, tail: string)
    ensures before + e + after + tail == before + e + (after + tail)
  {
  }

  lemma ObjectInFile(x: Syntax, objects: seq<string>, n: nat, rest: string, tail: string)
    requires |objects| == 6 && 1 <= n <= 6
    requires Body(x, objects, 6) == Body(x, objects, n) + rest
    ensures StartsWith(Body(x, objects, 6) + tail, |Body(x, objects, n - 1)|, ObjectText(x, n, objects[n-1]))
  {
    PrefixInMiddle(Body(x, objects, n - 1), ObjectText(x, n, objects[n-1]), rest, tail);
  }

  lemma PrefixInMiddle(a: string, b: string, rest: string, tail: string)
    ensures StartsWith(a + b + rest + tail, |a|, b)
  {
  }

  lemma StreamShape(x: Syntax, n: nat, stream: string)
    ensures ObjectText(x, n, StreamObject(x, stream))
         == StreamHead(x, n) + Decimal(|stream|) + x.streamKey + stream + (x.endStream + x.endObj)
  {
    ObjectPieces(Decimal(n), x.objKey, x.lengthKey, Decimal(|stream|), x.streamKey, stream, x.endStream, x.endObj);
  }

  /** Section 7.3.8: /Length is the exact number of bytes between stream and endstream. */
  lemma StreamReads(x: Syntax, pdf: string, before: string, n: nat, stream: string, after: string)
    requires Sound(x) && pdf == before + ObjectText(x, n, StreamObject(x, stream)) + after
    ensures ReadStream(x, pdf, |before|, n) == Some(stream)
  {
    StreamShape(x, n, stream);
    DecimalRoundTrip(|stream|);
    PiecesRead(pdf, before, StreamHead(x, n), Decimal(|stream|), x.streamKey, stream, x.endStream + x.endObj, after);
  }

  lemma PiecesRead(pdf: string, before: string, head: string, digits: string, key: string, stream: string, end: string, after: string)
    requires pdf == before + (head + digits + key + stream + end) + after
    requires AllDigits(digits) && ValueOf(digits) == |stream| && key != [] && !IsDigit(key[0])
    ensures ReadStreamAfter(pdf, |before|, head, key, end) == Some(stream)
  {
    FivePieces(pdf, before, head, digits, key, stream, end, after);
    PiecesReadAt(pdf, |before|, head, digits, key, stream, end);
  }

  lemma PiecesReadAt(pdf: string, at: nat, head: string, digits: string, key: string, stream: string, end: string)
    requires StartsWith(pdf, at, head) && PartsAt(pdf, at + |head|, digits, key, stream, end)
    requires AllDigits(digits) && ValueOf(digits) == |stream| && key != [] && !IsDigit(key[0])
    ensures ReadStreamAfter(pdf, at, head, key, end) == Some(stream)
  {
    LengthRead(pdf, at + |head|, digits, key, stream, end);
    StreamRead(pdf, at, head, digits, stream, key, end);
  }

  lemma LengthRead(pdf: string, from: nat, digits: string, key: string, stream: string, end: string)
    requires PartsAt(pdf, from, digits, key, stream, end)
    requires AllDigits(digits) && ValueOf(digits) == |stream| && key != [] && !IsDigit(key[0])
    ensures from <= |pdf| && DigitsAt(pdf, from) == |digits| && NumberAt(pdf, from) == |stream|
    ensures ReadBody(pdf, from + |digits|, |stream|, key, end) == Some(stream)
  {
    DigitsThere(pdf, from, digits, key);
    BodyReads(pdf, from, digits, key, stream, end);
  }

  lemma StreamRead(pdf: string, at: nat, head: string, digits: string, stream: string, key: string, end: string)
    requires StartsWith(pdf, at, head)
    requires DigitsAt(pdf, at + |head|) == |digits| && NumberAt(pdf, at + |head|) == |stream|
    requires ReadBody(pdf, at + |head| + |digits|, |stream|, key, end) == Some(stream)
    ensures ReadStreamAfter(pdf, at, head, key, end) == Some(stream)
  {
  }

  /** Where the parts of a stream object stand in the file. */
  predicate PartsAt(pdf: string, from: nat, digits: string, key: string, stream: string, end: string) {
    && StartsWith(pdf, from, digits)
    && StartsWith(pdf, from + |digits|, key)
    && StartsWith(pdf, from + |digits| + |key|, stream)
    && StartsWith(pdf, from + |digits| + |key| + |stream|, end)
  }

  lemma BodyReads(pdf: string, from: nat, digits: string, key: string, stream: string, end: string)
    requires PartsAt(pdf, from, digits, key, stream, end)
    ensures ReadBody(pdf, from + |digits|, |stream|, key, end) == Some(stream)
  {
    var body := from + |digits| + |key|;
    assert pdf[body..body+|stream|] == stream;
  }

  lemma DigitsThere(pdf: string, from: nat, digits: string, key: string)
    requires StartsWith(pdf, from, digits) && StartsWith(pdf, from + |digits|, key)
    requires AllDigits(digits) && key != [] && !IsDigit(key[0])
    ensures DigitsAt(pdf, from) == |digits| && NumberAt(pdf, from) == ValueOf(digits)
  {
    forall i | from <= i < from + |digits| ensures IsDigit(pdf[i]) {
      assert IsDigit(digits[i-from]);
    }
    assert key[0] == pdf[from+|digits|+0];
    DigitsAtExact(pdf, from, |digits|);
    assert pdf[from..from+|digits|] == digits;
  }

  lemma FivePieces(s: string, z: string, a: string, b: string, c: string, d: string, e: string, f: string)
    requires s == z + (a + b + c + d + e) + f
    ensures StartsWith(s, |z|, a) && PartsAt(s, |z| + |a|, b, c, d, e)
  {
  }

  lemma ObjectPieces(number: string, obj: string, length: string, digits: string, key: string, stream: string, end: string, endObj: string)
    ensures number + obj + (length + digits + key + stream + end) + endObj
         == (number + obj + length) + digits + key + stream + (end + endObj)
  {
  }

  lemma StreamInFile(x: Syntax, objects: seq<string>, stream: string)
    requires Sound(x) && |objects| == 6 && objects[3] == StreamObject(x, stream)
    requires |Body(x, objects, 6)| < Power10(10)
    ensures var pdf := PdfFile(x, objects);
            FindObject(x, pdf, 4).Some? && ReadStream(x, pdf, FindObject(x, pdf, 4).value, 4) == Some(stream)
  {
    var pdf, at := PdfFile(x, objects), |Body(x, objects, 3)|;
    XrefIsExact(x, objects, 4);
    var text := ObjectText(x, 4, StreamObject(x, stream));
    CutOut(pdf, at, text);
    StreamReads(x, pdf, pdf[..at], 4, stream, pdf[at+|text|..]);
  }

  lemma CutOut(s: string, at: nat, part: string)
    requires StartsWith(s, at, part)
    ensures s == s[..at] + part + s[at+|part|..] && |s[..at]| == at
  {
  }

  /** The whole way back, for every list of lines: a reader that follows the trailer,
      the table, the stream and its strings gets the non-empty lines, in order. */
  lemma TextRoundTrip(lines: seq<Line>)
    requires |InvoiceFile(lines)| < Power10(10)
    ensures ReadText(PDF_1_4, InvoiceFile(lines)) == Some(ShownTexts(lines))
  {
    Pdf14IsSound();
    FileShowsLines(PDF_1_4, ONE_PAGE, lines);
  }

  lemma FileShowsLines(x: Syntax, d: Fixed, lines: seq<Line>)
    requires Sound(x)
    requires |LinesFile(x, d, lines)| < Power10(10)
    ensures ReadText(x, LinesFile(x, d, lines)) == Some(ShownTexts(lines))
  {
    var objects := Objects(x, d, ContentStream(lines));
    BodyIsShorter(x, objects);
    StreamInFile(x, objects, ContentStream(lines));
    StreamShowsLines(lines);
  }

  lemma BodyIsShorter(x: Syntax, objects: seq<string>)
    requires |objects| == 6
    ensures |Body(x, objects, 6)| <= |PdfFile(x, objects)|
  {
  }
}
