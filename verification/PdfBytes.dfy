/**
 * The PDF as bytes (src/routing/invoicePdfGuard.ts: Buffer.from(pdf, "latin1")).
 * Every character the writer puts into the file is below 0x80, so the bytes
 * are the characters and reading them back gives the file.
 */
module PdfBytes {
  import opened Common
  import opened PdfText
  import opened PdfWriter

  /** The low byte of every character. */
  function Latin1(s: string): (r: seq<byte>)
    ensures |r| == |s| && forall i | 0 <= i < |s| :: r[i] == (s[i] as int % 256) as byte
  {
    seq(|s|, i requires 0 <= i < |s| => (s[i] as int % 256) as byte)
  }

  /** A Latin-1 byte is the character of its number. */
  function FromLatin1(bytes: seq<byte>): (s: string)
    ensures |s| == |bytes| && forall i | 0 <= i < |bytes| :: s[i] == bytes[i] as int as char
  {
    seq(|bytes|, i requires 0 <= i < |bytes| => bytes[i] as int as char)
  }

  predicate AsciiOnly(s: string) {
    forall i | 0 <= i < |s| :: s[i] as int < 0x80
  }

  lemma AsciiBytesReadBack(s: string)
    requires AsciiOnly(s)
    ensures FromLatin1(Latin1(s)) == s
  {
  }

  // ------------------------------------------------------------------
  // Content streams are ASCII
  // ------------------------------------------------------------------

  lemma Two(a: string, b: string)
    requires AsciiOnly(a) && AsciiOnly(b)
    ensures AsciiOnly(a + b)
  {
  }

  lemma Three(a: string, b: string, c: string)
    requires AsciiOnly(a) && AsciiOnly(b) && AsciiOnly(c)
    ensures AsciiOnly(a + b + c)
  {
  }

  lemma Four(a: string, b: string, c: string, d: string)
    requires AsciiOnly(a) && AsciiOnly(b) && AsciiOnly(c) && AsciiOnly(d)
    ensures AsciiOnly(a + b + c + d)
  {
    Two(a + b + c, d);
  }

  lemma DecimalIsAscii(n: nat)
    ensures AsciiOnly(Decimal(n))
  {
    var s := Decimal(n);
    assert forall i | 0 <= i < |s| :: IsDigit(s[i]);
  }

  lemma EscapedIsAscii(text: string)
    ensures AsciiOnly(PdfEscape(text))
  {
    ThreePassesAreOne(Ascii(text));
    EscapedIsPrintable(Ascii(text));
    assert forall i | 0 <= i < |PdfEscape(text)| :: Printable(PdfEscape(text)[i]);
  }

  lemma FontCommandIsAscii(line: Line)
    ensures AsciiOnly(FontCommand(line))
  {
    DecimalIsAscii(line.size);
    assert AsciiOnly("/" + FontName(line.font) + " ");
    Three("/" + FontName(line.font) + " ", Decimal(line.size), " Tf");
  }

  lemma MoveCommandIsAscii(line: Line, first: bool)
    ensures AsciiOnly(MoveCommand(line, first))
  {
    DecimalIsAscii(line.gap);
    Three("0 -", Decimal(line.gap), " Td");
  }

  ghost predicate AllAscii(parts: seq<string>) {
    forall i | 0 <= i < |parts| :: AsciiOnly(parts[i])
  }

  lemma LineIsAscii(line: Line, first: bool)
    ensures AllAscii(LineCommands(line, first))
  {
    FontCommandIsAscii(line);
    MoveCommandIsAscii(line, first);
    EscapedIsAscii(line.text);
    Three("(", PdfEscape(line.text), ") Tj");
  }

  lemma {:induction false} CommandsAreAscii(lines: seq<Line>, first: bool)
    ensures AllAscii(Commands(lines, first))
  {
    if lines != [] {
      LineIsAscii(lines[0], first);
      CommandsAreAscii(lines[1..], first && lines[0].text == "");
    }
  }

  lemma {:induction false} TailIsAscii(parts: seq<string>)
    requires AllAscii(parts)
    ensures AsciiOnly(Tail(parts))
  {
    if parts != [] {
      TailIsAscii(parts[1..]);
      Three("\n", parts[0], Tail(parts[1..]));
    }
  }

  lemma JoinIsAscii(parts: seq<string>)
    requires AllAscii(parts)
    ensures AsciiOnly(Join(parts))
  {
    if parts != [] {
      TailIsAscii(parts[1..]);
      Two(parts[0], Tail(parts[1..]));
    }
  }

  lemma StreamIsAscii(lines: seq<Line>)
    ensures AsciiOnly(ContentStream(lines))
  {
    CommandsAreAscii(lines, true);
    assert AsciiOnly("BT") && AsciiOnly("ET");
    JoinIsAscii(["BT"] + Commands(lines, true) + ["ET"]);
  }

  // ------------------------------------------------------------------
  // So is the file
  // ------------------------------------------------------------------

  predicate AsciiSyntax(x: Syntax) {
    && AsciiOnly(x.header) && AsciiOnly(x.xrefHead) && AsciiOnly(x.freeEntry) && AsciiOnly(x.inUse)
    && AsciiOnly(x.trailer) && AsciiOnly(x.startKey) && AsciiOnly(x.eofMark) && AsciiOnly(x.objKey)
    && AsciiOnly(x.endObj) && AsciiOnly(x.lengthKey) && AsciiOnly(x.streamKey) && AsciiOnly(x.endStream)
  }

  predicate AsciiFixed(d: Fixed) {
    AsciiOnly(d.catalog) && AsciiOnly(d.pages) && AsciiOnly(d.page) && AsciiOnly(d.fontBold) && AsciiOnly(d.fontPlain)
  }

  lemma TableWordsAreAscii()
    ensures var x := PDF_1_4;
            AsciiOnly(x.header) && AsciiOnly(x.xrefHead) && AsciiOnly(x.freeEntry) && AsciiOnly(x.inUse)
  {
  }

  lemma TrailerWordsAreAscii()
    ensures AsciiOnly(PDF_1_4.trailer) && AsciiOnly(PDF_1_4.startKey) && AsciiOnly(PDF_1_4.eofMark)
  {
  }

  lemma ObjectWordsAreAscii()
    ensures var x := PDF_1_4;
            && AsciiOnly(x.objKey) && AsciiOnly(x.endObj) && AsciiOnly(x.lengthKey)
            && AsciiOnly(x.streamKey) && AsciiOnly(x.endStream)
  {
  }

  lemma SyntaxIsAscii()
    ensures AsciiSyntax(PDF_1_4)
  {
    TableWordsAreAscii();
    TrailerWordsAreAscii();
    ObjectWordsAreAscii();
  }

  lemma CatalogIsAscii()
    ensures AsciiOnly(CATALOG)
  {
  }

  lemma PagesAreAscii()
    ensures AsciiOnly(PAGES)
  {
  }

  lemma PageIsAscii()
    ensures AsciiOnly(PAGE_PARENT) && AsciiOnly(MEDIA_BOX) && AsciiOnly(CONTENTS)
  {
  }

  lemma FontsAreAscii()
    ensures AsciiOnly(RESOURCES) && AsciiOnly(FONTS)
  {
  }

  lemma FontObjectsAreAscii()
    ensures AsciiOnly(TYPE_1) && AsciiOnly(BOLD) && AsciiOnly(PLAIN)
  {
  }

  lemma DictionariesAreAscii()
    ensures AsciiFixed(ONE_PAGE)
  {
    CatalogIsAscii();
    PagesAreAscii();
    PageIsAscii();
    FontsAreAscii();
    FontObjectsAreAscii();
    Four(PAGE_PARENT, MEDIA_BOX, CONTENTS, RESOURCES);
    Two(PAGE_PARENT + MEDIA_BOX + CONTENTS + RESOURCES, FONTS);
    Two(TYPE_1, BOLD);
    Two(TYPE_1, PLAIN);
  }

  lemma ObjectIsAscii(x: Syntax, n: nat, body: string)
    requires AsciiSyntax(x) && AsciiOnly(body)
    ensures AsciiOnly(ObjectText(x, n, body))
  {
    DecimalIsAscii(n);
    Four(Decimal(n), x.objKey, body, x.endObj);
  }

  lemma StreamObjectIsAscii(x: Syntax, stream: string)
    requires AsciiSyntax(x) && AsciiOnly(stream)
    ensures AsciiOnly(StreamObject(x, stream))
  {
    DecimalIsAscii(|stream|);
    Four(x.lengthKey, Decimal(|stream|), x.streamKey, stream);
    Two(x.lengthKey + Decimal(|stream|) + x.streamKey + stream, x.endStream);
  }

  lemma {:induction false} BodyIsAscii(x: Syntax, objects: seq<string>, k: nat)
    requires AsciiSyntax(x) && AllAscii(objects) && k <= |objects|
    ensures AsciiOnly(Body(x, objects, k))
  {
    if k > 0 {
      BodyIsAscii(x, objects, k - 1);
      ObjectIsAscii(x, k, objects[k-1]);
      Two(Body(x, objects, k - 1), ObjectText(x, k, objects[k-1]));
    }
  }

  lemma EntryIsAscii(x: Syntax, offset: nat)
    requires AsciiSyntax(x)
    ensures AsciiOnly(XrefEntry(x, offset))
  {
    DecimalIsAscii(offset);
    assert AsciiOnly(PadStart(Decimal(offset), 10));
    Two(PadStart(Decimal(offset), 10), x.inUse);
  }

  lemma {:induction false} EntriesAreAscii(x: Syntax, objects: seq<string>, k: nat)
    requires AsciiSyntax(x) && k <= |objects|
    ensures AsciiOnly(Entries(x, objects, k))
  {
    if k > 0 {
      EntriesAreAscii(x, objects, k - 1);
      EntryIsAscii(x, |Body(x, objects, k - 1)|);
      Two(Entries(x, objects, k - 1), XrefEntry(x, |Body(x, objects, k - 1)|));
    }
  }

  lemma FileIsAscii(x: Syntax, objects: seq<string>)
    requires AsciiSyntax(x) && AllAscii(objects)
    ensures AsciiOnly(PdfFile(x, objects))
  {
    var body, entries, at := Body(x, objects, |objects|), Entries(x, objects, |objects|), Decimal(|Body(x, objects, |objects|)|);
    BodyIsAscii(x, objects, |objects|);
    EntriesAreAscii(x, objects, |objects|);
    DecimalIsAscii(|body|);
    Four(body, x.xrefHead, x.freeEntry, entries);
    Four(body + x.xrefHead + x.freeEntry + entries, x.trailer, x.startKey, at);
    Two(body + x.xrefHead + x.freeEntry + entries + x.trailer + x.startKey + at, x.eofMark);
  }

  lemma LinesFileIsAscii(x: Syntax, d: Fixed, lines: seq<Line>)
    requires AsciiSyntax(x) && AsciiFixed(d)
    ensures AsciiOnly(LinesFile(x, d, lines))
  {
    StreamIsAscii(lines);
    StreamObjectIsAscii(x, ContentStream(lines));
    FileIsAscii(x, Objects(x, d, ContentStream(lines)));
  }

  /** Whatever the lines say, every character of the file is below 0x80, so the bytes that
      are sent read back as the file itself. */
  lemma FileSurvivesLatin1(lines: seq<Line>)
    ensures AsciiOnly(InvoiceFile(lines)) && FromLatin1(Latin1(InvoiceFile(lines))) == InvoiceFile(lines)
  {
    SyntaxIsAscii();
    DictionariesAreAscii();
    LinesFileIsAscii(PDF_1_4, ONE_PAGE, lines);
    AsciiBytesReadBack(InvoiceFile(lines));
  }

  /** The whole way back from the bytes. */
  lemma BytesRoundTrip(lines: seq<Line>)
    requires |Latin1(InvoiceFile(lines))| < Power10(10)
    ensures ReadText(PDF_1_4, FromLatin1(Latin1(InvoiceFile(lines)))) == Some(ShownTexts(lines))
  {
    FileSurvivesLatin1(lines);
    TextRoundTrip(lines);
  }
}
