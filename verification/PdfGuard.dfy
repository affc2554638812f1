/**
 * What WhatsApp is allowed to send when a reply promises a document
 * (src/routing/invoicePdfGuard.ts). The regular expressions that read the
 * text are parameters; everything decided from their answers is modelled.
 */
module PdfGuard {
  import opened Common
  import opened JsText
  import opened MimeTypes
  import opened FileNames
  import opened PdfPayloads
  import opened PdfBytes
  import PdfText
  import PdfWriter

  datatype Artifact = Artifact(identifier: string, title: string, fileName: string, mimeType: string, bytes: seq<byte>)

  /** What a WhatsApp document message carries. */
  datatype Document = Document(bytes: seq<byte>, fileName: string, mimeType: string)

  datatype Facts = Facts(invoiceId: string, clientName: string, item: string, amountLabel: string)

  datatype Source = Thread | Gateway

  datatype Decision =
    | Unchanged
    | Attach(source: Source, artifact: Artifact)
    | Preparing(text: string)

  const PDF_MIME := "application/pdf"
  const OCTET_MIME := "application/octet-stream"
  const INVOICE_PREPARING_TEXT := "Preparing the invoice. I will send it in this chat when it is ready."
  const DOCUMENT_PREPARING_TEXT := "Preparing the document. I will send it in this chat when it is ready."

  // ------------------------------------------------------------------
  // Real PDFs
  // ------------------------------------------------------------------

  predicate IsApplicationPdf(a: Artifact) {
    BaseMime(a.mimeType) == PDF_MIME && PayloadStart(a.bytes, false).Some?
  }

  /** A preamble before the header is allowed only for a file that calls itself a PDF or plain bytes. */
  predicate AllowsPreamble(a: Artifact) {
    BaseMime(a.mimeType) == PDF_MIME || BaseMime(a.mimeType) == OCTET_MIME
  }

  function WhatsAppPdfDocument(a: Artifact): Option<Document> {
    var start := PayloadStart(a.bytes, AllowsPreamble(a));
    if start.None? then None
    else Some(Document(a.bytes[start.value..], DocumentName(a.fileName), PDF_MIME))
  }

  function DocumentForWhatsApp(a: Artifact): Document {
    var document := WhatsAppPdfDocument(a);
    if document.Some? then document.value else Document(a.bytes, a.fileName, a.mimeType)
  }

  /** A PDF within the cap that starts at the first header of its payload. */
  ghost predicate SentAsPdf(d: Document, a: Artifact, maxBytes: nat) {
    && d.mimeType == PDF_MIME && EndsWithLower(d.fileName, PDF_EXTENSION)
    && |d.bytes| <= maxBytes && IsPdfHeader(d.bytes, 0)
    && exists k: nat :: FirstHeader(a.bytes, k) && d.bytes == a.bytes[k..]
  }

  /** Whatever counts as a real PDF within the cap leaves as one, sliced at its first header. */
  lemma RealPdfIsSentAsPdf(a: Artifact, maxBytes: nat)
    ensures IsApplicationPdf(a) && |a.bytes| <= maxBytes ==> SentAsPdf(DocumentForWhatsApp(a), a, maxBytes)
  {
    if IsApplicationPdf(a) {
      var k := PayloadStart(a.bytes, false).value;
      PayloadStartMeans(a.bytes, false);
      PreambleAgrees(a.bytes);
      PayloadBytes(a.bytes, k);
      DocumentNameIsPdf(a.fileName);
    }
  }

  /** What a file leaves as: a PDF from its header on where one is found, with a preamble before it
      only if the file calls itself a PDF or plain bytes; */
  lemma PdfLeavesFromHeader(a: Artifact, preamble: bool, k: nat)
    requires preamble <==> BaseMime(a.mimeType) == PDF_MIME || BaseMime(a.mimeType) == OCTET_MIME
    requires PdfAt(a.bytes, preamble, k)
    ensures WhatsAppPdfDocument(a).Some?
    ensures DocumentForWhatsApp(a).bytes == a.bytes[k..] && DocumentForWhatsApp(a).mimeType == PDF_MIME
    ensures NamedFor(DocumentForWhatsApp(a).fileName, Trim(a.fileName))
  {
    PayloadStartMeans(a.bytes, preamble);
    PdfAtIsUnique(a.bytes, preamble, preamble, k, PayloadStart(a.bytes, preamble).value);
    NameOfFile(a.fileName);
  }

  /** any other file as it is. */
  lemma OtherLeavesAsItIs(a: Artifact, preamble: bool)
    requires preamble <==> BaseMime(a.mimeType) == PDF_MIME || BaseMime(a.mimeType) == OCTET_MIME
    requires forall k: nat :: !PdfAt(a.bytes, preamble, k)
    ensures DocumentForWhatsApp(a) == Document(a.bytes, a.fileName, a.mimeType)
  {
    PayloadStartMeans(a.bytes, preamble);
  }

  /** A real PDF calls itself one and begins with the header, blanks and a byte order mark aside. */
  lemma IsApplicationPdfIff(a: Artifact)
    ensures IsApplicationPdf(a) <==> BaseMime(a.mimeType) == PDF_MIME && exists k :: PdfAt(a.bytes, false, k)
  {
    PayloadStartMeans(a.bytes, false);
  }

  // ------------------------------------------------------------------
  // The invoice built from stated facts
  // ------------------------------------------------------------------

  function Stated(heading: string, value: string): seq<PdfText.Line> {
    if value == "" then [] else [PdfText.Line(heading + value, PdfText.F2, 11, 16)]
  }

  const TITLE := "SEPT"
  const SUBTITLE := "Commercial Invoice"
  const NUMBER := "Invoice No: "
  const DATE := "Date: "
  const CLIENT := "Client: "
  const ITEM := "Item: "
  const TOTAL := "Total: "

  function InvoiceHead(facts: Facts, issuedOn: string): seq<PdfText.Line> {
    [PdfText.Line(TITLE, PdfText.F1, 20, 28),
     PdfText.Line(SUBTITLE, PdfText.F2, 11, 22),
     PdfText.Line(NUMBER + facts.invoiceId, PdfText.F2, 11, 16),
     PdfText.Line(DATE + issuedOn, PdfText.F2, 11, 16)]
  }

  function InvoiceLines(facts: Facts, issuedOn: string): seq<PdfText.Line> {
    InvoiceHead(facts, issuedOn) + Stated(CLIENT, facts.clientName) + Stated(ITEM, facts.item) + Stated(TOTAL, facts.amountLabel)
  }

  function Labelled(heading: string, value: string): seq<string> {
    if value == "" then [] else [PdfText.Ascii(heading + value)]
  }

  /** What the invoice says: its heading, number and date always; client, item and total if stated. */
  function Says(facts: Facts, issuedOn: string): seq<string> {
    [PdfText.Ascii("SEPT"), PdfText.Ascii("Commercial Invoice"), PdfText.Ascii("Invoice No: " + facts.invoiceId),
     PdfText.Ascii("Date: " + issuedOn)]
    + Labelled("Client: ", facts.clientName) + Labelled("Item: ", facts.item) + Labelled("Total: ", facts.amountLabel)
  }

  lemma {:induction false} ShownBoth(a: seq<PdfText.Line>, b: seq<PdfText.Line>)
    ensures PdfText.ShownTexts(a + b) == PdfText.ShownTexts(a) + PdfText.ShownTexts(b)
  {
    if a == [] {
      assert a + b == b;
    } else {
      assert (a + b)[1..] == a[1..] + b;
      ShownBoth(a[1..], b);
    }
  }

  lemma ShownOne(line: PdfText.Line)
    ensures PdfText.ShownTexts([line]) == if line.text == "" then [] else [PdfText.Ascii(line.text)]
  {
    assert [line][1..] == [];
  }

  lemma StatedShows(heading: string, value: string)
    requires heading != ""
    ensures PdfText.ShownTexts(Stated(heading, value)) == Labelled(heading, value)
  {
    if value != "" { ShownOne(PdfText.Line(heading + value, PdfText.F2, 11, 16)); }
  }

  lemma HeadShows(facts: Facts, issuedOn: string)
    ensures PdfText.ShownTexts(InvoiceHead(facts, issuedOn))
         == [PdfText.Ascii("SEPT"), PdfText.Ascii("Commercial Invoice"), PdfText.Ascii("Invoice No: " + facts.invoiceId),
             PdfText.Ascii("Date: " + issuedOn)]
  {
    var h := InvoiceHead(facts, issuedOn);
    ShownOne(h[0]);
    ShownOne(h[1]);
    ShownOne(h[2]);
    ShownOne(h[3]);
    ShownBoth([h[0]], [h[1]]);
    ShownBoth([h[0]] + [h[1]], [h[2]]);
    ShownBoth([h[0]] + [h[1]] + [h[2]], [h[3]]);
    assert h == [h[0]] + [h[1]] + [h[2]] + [h[3]];
  }

  lemma InvoiceSays(facts: Facts, issuedOn: string)
    ensures PdfText.ShownTexts(InvoiceLines(facts, issuedOn)) == Says(facts, issuedOn)
  {
    var h, a, b, c := InvoiceHead(facts, issuedOn), Stated(CLIENT, facts.clientName), Stated(ITEM, facts.item), Stated(TOTAL, facts.amountLabel);
    ShownBoth(h, a);
    ShownBoth(h + a, b);
    ShownBoth(h + a + b, c);
    HeadShows(facts, issuedOn);
    StatedShows(CLIENT, facts.clientName);
    StatedShows(ITEM, facts.item);
    StatedShows(TOTAL, facts.amountLabel);
  }

  predicate SafeChar(c: char) {
    'A' <= c <= 'Z' || 'a' <= c <= 'z' || '0' <= c <= '9' || c == '.' || c == '-'
  }

  function SafeOnly(s: string): string {
    if s == "" then "" else (if SafeChar(s[0]) then [s[0]] else "") + SafeOnly(s[1..])
  }

  const IDENTIFIER := "sept_invoice_"
  const SEPT_PREFIX := "SEPT-"
  const SEPT_DASH := "sept-"

  function InvoiceFileName(invoiceId: string): string {
    var safe := SafeOnly(invoiceId);
    (if |safe| >= |SEPT_DASH| && Lower(safe)[..|SEPT_DASH|] == SEPT_DASH then safe else SEPT_PREFIX + safe) + PDF_EXTENSION
  }

  predicate AllSafe(s: string) {
    forall i | 0 <= i < |s| :: SafeChar(s[i])
  }

  lemma {:induction false} SafeOnlyIsSafe(s: string)
    ensures AllSafe(SafeOnly(s)) && (AllSafe(s) ==> SafeOnly(s) == s)
  {
    if s != "" {
      SafeOnlyIsSafe(s[1..]);
      assert s == [s[0]] + s[1..];
    }
  }

  lemma {:induction false} SafeOnlyOfBoth(s: string, t: string)
    ensures SafeOnly(s + t) == SafeOnly(s) + SafeOnly(t)
  {
    if s == "" {
      assert s + t == t;
    } else {
      assert (s + t)[0] == s[0] && (s + t)[1..] == s[1..] + t;
      SafeOnlyOfBoth(s[1..], t);
      Regroup(if SafeChar(s[0]) then [s[0]] else "", SafeOnly(s[1..]), SafeOnly(t));
    }
  }

  lemma SafeBoth(a: string, b: string)
    requires AllSafe(a) && AllSafe(b)
    ensures AllSafe(a + b)
  {
  }

  lemma ConstantsAreSafe()
    ensures AllSafe(PDF_EXTENSION) && AllSafe(SEPT_PREFIX) && Lower(SEPT_PREFIX) == SEPT_DASH && |SEPT_DASH| == 5 && |PDF_EXTENSION| == 4
  {
    var e, p, d := PDF_EXTENSION, SEPT_PREFIX, SEPT_DASH;
    assert |e| == 4 && |p| == 5 && |d| == 5;
    assert forall i | 0 <= i < 4 :: SafeChar(e[i]);
    assert forall i | 0 <= i < 5 :: SafeChar(p[i]) && LowerChar(p[i]) == d[i];
  }

  predicate OpensSept(s: string) {
    |s| >= |SEPT_DASH| && Lower(s)[..|SEPT_DASH|] == SEPT_DASH
  }

  lemma SeptPrefixed(safe: string)
    ensures OpensSept(SEPT_PREFIX + safe)
  {
    ConstantsAreSafe();
    var s := SEPT_PREFIX + safe;
    assert Lower(s)[..5] == Lower(SEPT_PREFIX);
  }

  lemma StillOpens(s: string, t: string)
    requires OpensSept(s)
    ensures OpensSept(s + t)
  {
    assert Lower(s + t)[..|SEPT_DASH|] == Lower(s)[..|SEPT_DASH|];
  }

  /** The invoice's file name: a .pdf of letters, digits, dots and dashes that starts with SEPT-, in any case. */
  lemma InvoiceFileNameIs(invoiceId: string)
    ensures var name := InvoiceFileName(invoiceId);
            && AllSafe(name) && OpensSept(name) && EndsWith(name, PDF_EXTENSION)
            && name == (if OpensSept(SafeOnly(invoiceId)) then "" else SEPT_PREFIX) + SafeOnly(invoiceId) + PDF_EXTENSION
  {
    var safe := SafeOnly(invoiceId);
    SafeOnlyIsSafe(invoiceId);
    ConstantsAreSafe();
    SafeBoth(SEPT_PREFIX, safe);
    SeptPrefixed(safe);
    var stem := if OpensSept(safe) then safe else SEPT_PREFIX + safe;
    SafeBoth(stem, PDF_EXTENSION);
    StillOpens(stem, PDF_EXTENSION);
    assert (stem + PDF_EXTENSION)[|stem|..] == PDF_EXTENSION;
  }

  function BuildSeptInvoicePdf(facts: Facts, issuedOn: string): Artifact {
    var fileName := InvoiceFileName(facts.invoiceId);
    Artifact(IDENTIFIER + Lower(facts.invoiceId), fileName, fileName, PDF_MIME,
             Latin1(PdfWriter.InvoiceFile(InvoiceLines(facts, issuedOn))))
  }

  /** The loop-free part of building the invoice, with the writer's loops. */
  method BuildInvoice(facts: Facts, issuedOn: string) returns (a: Artifact)
    ensures a == BuildSeptInvoicePdf(facts, issuedOn)
  {
    var lines := InvoiceLines(facts, issuedOn);
    var pdf := PdfWriter.RenderPdf(lines);
    var fileName := InvoiceFileName(facts.invoiceId);
    a := Artifact(IDENTIFIER + Lower(facts.invoiceId), fileName, fileName, PDF_MIME, Latin1(pdf));
  }

  lemma PdfMimeIsPlain()
    ensures BaseMime(PDF_MIME) == PDF_MIME
  {
    var s := PDF_MIME;
    assert forall i | 0 <= i < |s| :: s[i] != ';' && LowerChar(s[i]) == s[i];
    PlainMime(s);
  }

  lemma FileStartsWithHeader(x: PdfWriter.Syntax, d: PdfWriter.Fixed, lines: seq<PdfText.Line>)
    ensures |x.header| <= |PdfWriter.LinesFile(x, d, lines)|
    ensures PdfWriter.LinesFile(x, d, lines)[..|x.header|] == x.header
  {
    var objects := PdfWriter.Objects(x, d, PdfText.ContentStream(lines));
    var rest := PdfWriter.BodyGrows(x, objects, 0, 6);
  }

  lemma HeaderBytes(file: string, header: string)
    requires |header| <= |file| && file[..|header|] == header
    requires |header| >= 5 && header[0] == '%' && header[1] == 'P' && header[2] == 'D' && header[3] == 'F' && header[4] == '-'
    ensures IsPdfHeader(Latin1(file), 0) && PayloadStart(Latin1(file), false) == Some(0)
  {
    assert file[0] == header[0] && file[1] == header[1] && file[2] == header[2] && file[3] == header[3] && file[4] == header[4];
    var bytes := Latin1(file);
    assert IsPdfHeader(bytes, 0);
    assert Lead(bytes) == 0;
  }

  /** The gateway's own invoice always passes the check it is put to. */
  lemma BuiltInvoiceIsPdf(facts: Facts, issuedOn: string)
    ensures IsApplicationPdf(BuildSeptInvoicePdf(facts, issuedOn))
  {
    PdfMimeIsPlain();
    BuiltBytesArePdf(InvoiceLines(facts, issuedOn));
  }

  lemma BuiltBytesArePdf(lines: seq<PdfText.Line>)
    ensures PayloadStart(Latin1(PdfWriter.InvoiceFile(lines)), false) == Some(0)
  {
    var x, d := PdfWriter.PDF_1_4, PdfWriter.ONE_PAGE;
    FileStartsWithHeader(x, d, lines);
    HeaderBytes(PdfWriter.LinesFile(x, d, lines), x.header);
  }

  // ------------------------------------------------------------------
  // The decision
  // ------------------------------------------------------------------

  /** A turn as the guard sees it: what is attached and stored, and what the regular
      expressions read in the text (an invoice claim, the invoice facts stated). */
  datatype Turn = Turn(hasPdf: bool, referencedPdf: bool, recovered: Option<Artifact>, maxBytes: nat,
                       claimsInvoice: bool, facts: Option<Facts>)

  /** What the decision asks: is this a real PDF, is it named like an invoice, and the
      invoice built from facts. */
  datatype Rules = Rules(isPdf: Artifact -> bool, invoiceNamed: Artifact -> bool, build: Facts -> Artifact)

  /** The gateway's own rules for a day's invoices. */
  function SeptRules(issuedOn: string, invoiceNamed: Artifact -> bool): Rules {
    Rules(IsApplicationPdf, invoiceNamed, facts => BuildSeptInvoicePdf(facts, issuedOn))
  }

  ghost predicate BuildsPdfs(rules: Rules) {
    forall facts :: rules.isPdf(rules.build(facts))
  }

  lemma SeptRulesBuildPdfs(issuedOn: string, invoiceNamed: Artifact -> bool)
    ensures BuildsPdfs(SeptRules(issuedOn, invoiceNamed))
  {
    var rules := SeptRules(issuedOn, invoiceNamed);
    forall facts ensures rules.isPdf(rules.build(facts)) {
      BuiltInvoiceIsPdf(facts, issuedOn);
    }
  }

  predicate Usable(t: Turn, rules: Rules) {
    t.recovered.Some? && rules.isPdf(t.recovered.value) && |t.recovered.value.bytes| <= t.maxBytes
  }

  function EnsureInvoiceDelivery(t: Turn, rules: Rules, enforce: bool): Decision {
    if t.hasPdf then Unchanged
    else if !enforce && !t.claimsInvoice then Unchanged
    else if Usable(t, rules) then Attach(Thread, t.recovered.value)
    else if !t.referencedPdf && t.facts.Some? then
      var built := rules.build(t.facts.value);
      if |built.bytes| <= t.maxBytes && rules.isPdf(built) then Attach(Gateway, built)
      else Preparing(INVOICE_PREPARING_TEXT)
    else Preparing(INVOICE_PREPARING_TEXT)
  }

  function EnsureOutboundPdf(t: Turn, rules: Rules, enforceInvoice: bool, enforceDocument: bool): Decision {
    if t.hasPdf then Unchanged
    else if !enforceInvoice && !enforceDocument then Unchanged
    else
      var wrongInvoice := Usable(t, rules) && enforceDocument && !enforceInvoice && rules.invoiceNamed(t.recovered.value);
      if Usable(t, rules) && !wrongInvoice then Attach(Thread, t.recovered.value)
      else if enforceInvoice then EnsureInvoiceDelivery(t.(hasPdf := false, recovered := None), rules, true)
      else Preparing(DOCUMENT_PREPARING_TEXT)
  }

  /** The turn must not leave without a file, and has none. */
  predicate Enforced(t: Turn, enforceInvoice: bool, enforceDocument: bool) {
    !t.hasPdf && (enforceInvoice || enforceDocument)
  }

  /** An enforced turn with no real PDF never leaves unchanged: it goes out as one PDF
      within the cap that starts at its first header, or as a preparing line. */
  lemma GuardIsSound(t: Turn, rules: Rules, enforceInvoice: bool, enforceDocument: bool)
    requires rules.isPdf == IsApplicationPdf
    ensures var d := EnsureOutboundPdf(t, rules, enforceInvoice, enforceDocument);
            && (d.Unchanged? <==> !Enforced(t, enforceInvoice, enforceDocument))
            && (d.Attach? ==> SentAsPdf(DocumentForWhatsApp(d.artifact), d.artifact, t.maxBytes))
            && (d.Preparing? ==> d.text == if enforceInvoice then INVOICE_PREPARING_TEXT else DOCUMENT_PREPARING_TEXT)
  {
    AttachedIsReal(t, rules, enforceInvoice, enforceDocument);
    var d := EnsureOutboundPdf(t, rules, enforceInvoice, enforceDocument);
    if d.Attach? {
      RealPdfIsSentAsPdf(d.artifact, t.maxBytes);
    }
  }

  /** Every attached file passed the check and the cap, on every path of the decision. */
  lemma AttachedIsReal(t: Turn, rules: Rules, enforceInvoice: bool, enforceDocument: bool)
    ensures var d := EnsureOutboundPdf(t, rules, enforceInvoice, enforceDocument);
            d.Attach? ==> rules.isPdf(d.artifact) && |d.artifact.bytes| <= t.maxBytes
  {
  }

  /** When the file built from the stated facts is what goes out. */
  predicate BuildsFromFacts(t: Turn, rules: Rules) {
    !t.referencedPdf && t.facts.Some? && |rules.build(t.facts.value).bytes| <= t.maxBytes
  }

  /** The exact decision for an enforced turn: a stored PDF exactly when it is usable and
      not an invoice on a document turn; a built one exactly for an invoice turn with
      stated facts, nothing stored and no official reference that failed. */
  lemma DecisionIsExact(t: Turn, rules: Rules, enforceInvoice: bool, enforceDocument: bool)
    requires Enforced(t, enforceInvoice, enforceDocument) && BuildsPdfs(rules)
    ensures var d := EnsureOutboundPdf(t, rules, enforceInvoice, enforceDocument);
            && (d.Attach? && d.source == Thread <==>
                  Usable(t, rules) && (enforceInvoice || !rules.invoiceNamed(t.recovered.value)))
            && (d.Attach? && d.source == Gateway <==> enforceInvoice && !Usable(t, rules) && BuildsFromFacts(t, rules))
            && (d.Attach? ==> d.artifact == if d.source == Thread then t.recovered.value else rules.build(t.facts.value))
  {
    if t.facts.Some? {
      assert rules.isPdf(rules.build(t.facts.value));
    }
  }

  /** A document turn never attaches an invoice-named file and never builds one. */
  lemma DocumentTurnNeverInvoice(t: Turn, rules: Rules)
    ensures var d := EnsureOutboundPdf(t, rules, false, true);
            d.Attach? ==> d.source == Thread && !rules.invoiceNamed(d.artifact)
  {
  }

  /** A failed official reference is never replaced by a PDF built from chat, on either entry point. */
  lemma ReferenceIsNotReplaced(t: Turn, rules: Rules, enforceInvoice: bool, enforceDocument: bool)
    requires t.referencedPdf
    ensures var d := EnsureOutboundPdf(t, rules, enforceInvoice, enforceDocument);
            d.Attach? ==> d.source == Thread && Some(d.artifact) == t.recovered
    ensures var d := EnsureInvoiceDelivery(t, rules, enforceInvoice);
            d.Attach? ==> d.source == Thread && Some(d.artifact) == t.recovered
  {
  }

  /** For invoices the two entry points agree. */
  lemma InvoiceEntriesAgree(t: Turn, rules: Rules, enforceDocument: bool)
    ensures EnsureOutboundPdf(t, rules, true, enforceDocument) == EnsureInvoiceDelivery(t, rules, true)
  {
  }

  /** Reading the bytes that are sent back through the cross-reference table gives the
      stated facts, each on a labelled line, in order, and nothing else. */
  lemma BuiltInvoiceSaysTheFacts(facts: Facts, issuedOn: string)
    requires |BuildSeptInvoicePdf(facts, issuedOn).bytes| < PdfText.Power10(10)
    ensures PdfWriter.ReadText(PdfWriter.PDF_1_4, FromLatin1(BuildSeptInvoicePdf(facts, issuedOn).bytes))
         == Some(Says(facts, issuedOn))
  {
    BytesRoundTrip(InvoiceLines(facts, issuedOn));
    InvoiceSays(facts, issuedOn);
  }
}
