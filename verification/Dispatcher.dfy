/**
 * The outbound half of a turn (src/routing/outboundDispatcher.ts): wait for the
 * agent's answer, decide what may be sent, send it, and close the claim. What
 * the agent, the adapter and WhatsApp answer is a parameter; every await lets
 * other senders use the log and other dispatches pass the preparing gate.
 */
module Dispatcher {
  import opened Common
  import opened JsText
  import opened MimeTypes
  import opened OutboundLogs
  import opened Claims
  import opened PdfPayloads
  import opened FileNames
  import opened PdfGuard
  import Captions
  import opened FailureNotes

  const PREPARING_DEDUPE_MS := 120_000
  const INVOICE_PDF_CAPTION := "Here is the commercial invoice."
  const DOCUMENT_PDF_CAPTION := "Here is the document."
  const FACT_TEXT_MAX := 4000

  // ------------------------------------------------------------------
  // What the outside answers
  // ------------------------------------------------------------------

  datatype Ref = Ref(identifier: string, kind: Option<string>)

  datatype Dropped = NotAttachable | Because(reason: Reason)

  datatype Outcome =
    | Resolved(artifact: Artifact)
    | Missing(identifier: string, why: Dropped, factText: string)

  /** The response wait: a failure, a thrown error, or a message. */
  datatype Reply =
    | ReplyFailed
    | ReplyThrew
    | Answered(answer: string, completed: bool)

  /** One send. NotSent throws before anything is handed over: the connection is not linked,
      or a field is refused. SendError throws afterwards. `id` is the message's own id, generated
      before it is handed over. */
  datatype SendResult = SentAs(id: string, ref: string) | ChatLeft | NotSent | SendError(id: string)

  predicate HandedOver(r: SendResult) {
    r.SentAs? || r.SendError?
  }

  datatype Input = Input(connectionId: string, chatJid: string, idempotencyKey: string, token: nat, threadId: string,
                         welcomePrefix: Option<string>, isWelcome: bool, operatorText: string, issuedOn: string, maxBytes: nat)

  /** The answers of one run, in the order they are awaited. */
  datatype Answers = Answers(reply: Reply, mayStart: bool, outcomes: Option<seq<Outcome>>, recovered: Option<Artifact>,
                             first: SendResult, later: nat -> SendResult)

  /** The regular expressions and text cleaners, left uninterpreted. */
  datatype Words = Words(
    parse: string -> (string, seq<Ref>),
    select: string -> (string, seq<Ref>),
    lifecycle: string -> bool,
    envelope: string -> bool,
    sanitize: string -> string,
    enforceInvoice: (string, seq<Ref>) -> bool,
    enforceDocument: (string, seq<Ref>) -> bool,
    claimsInvoice: string -> bool,
    extract: string -> Option<Facts>,
    invoiceNamed: Artifact -> bool,
    invoiceRef: Artifact -> bool,
    invoiceTitled: Artifact -> bool,
    htmlBytes: seq<byte> -> bool,
    pdfish: Ref -> bool
  )

  // ------------------------------------------------------------------
  // Which artifacts are attached
  // ------------------------------------------------------------------

  const HTML_MIME := "text/html"
  const XHTML_MIME := "application/xhtml+xml"
  const IMAGE_PREFIX := "image/"

  predicate IsHtmlChip(w: Words, a: Artifact) {
    BaseMime(a.mimeType) == HTML_MIME || BaseMime(a.mimeType) == XHTML_MIME || w.htmlBytes(a.bytes)
  }

  predicate LabelledPdf(o: Outcome) {
    o.Resolved? && BaseMime(o.artifact.mimeType) == PDF_MIME
  }

  /** Once a PDF resolved, an invoice sidecar of another kind is not attached. */
  function PreferOne(w: Words, o: Outcome): Outcome {
    if !o.Resolved? || LabelledPdf(o) || Captions.StartsWith(BaseMime(o.artifact.mimeType), IMAGE_PREFIX) then o
    else if w.invoiceRef(o.artifact) then Missing(o.artifact.identifier, NotAttachable, "")
    else o
  }

  function PreferEach(w: Words, outcomes: seq<Outcome>): seq<Outcome> {
    if outcomes == [] then [] else [PreferOne(w, outcomes[0])] + PreferEach(w, outcomes[1..])
  }

  function PreferPdf(w: Words, outcomes: seq<Outcome>): seq<Outcome> {
    if exists i | 0 <= i < |outcomes| :: LabelledPdf(outcomes[i]) then PreferEach(w, outcomes) else outcomes
  }

  /** The resolved files that are no HTML chips. */
  function Attachable(w: Words, outcomes: seq<Outcome>): seq<Artifact> {
    Attached(a => IsHtmlChip(w, a), outcomes)
  }

  function Attached(isHtml: Artifact -> bool, outcomes: seq<Outcome>): seq<Artifact> {
    if outcomes == [] then []
    else (if outcomes[0].Resolved? && !isHtml(outcomes[0].artifact) then [outcomes[0].artifact] else [])
         + Attached(isHtml, outcomes[1..])
  }

  function Failures(outcomes: seq<Outcome>): seq<Reason> {
    if outcomes == [] then []
    else (if outcomes[0].Missing? && outcomes[0].why.Because? then [outcomes[0].why.reason] else []) + Failures(outcomes[1..])
  }

  lemma {:induction false} AttachedIff(isHtml: Artifact -> bool, outcomes: seq<Outcome>, a: Artifact)
    ensures a in Attached(isHtml, outcomes) <==> exists i | 0 <= i < |outcomes| :: outcomes[i] == Resolved(a) && !isHtml(a)
  {
    if outcomes != [] {
      AttachedIff(isHtml, outcomes[1..], a);
      var rest := Attached(isHtml, outcomes[1..]);
      assert a in Attached(isHtml, outcomes) <==> (outcomes[0] == Resolved(a) && !isHtml(a)) || a in rest;
      if exists i | 0 <= i < |outcomes| :: outcomes[i] == Resolved(a) && !isHtml(a) {
        var i :| 0 <= i < |outcomes| && outcomes[i] == Resolved(a) && !isHtml(a);
        if i > 0 { assert outcomes[1..][i-1] == outcomes[i]; }
      }
    }
  }

  /** Attached are exactly the resolved files that are no HTML, by type or by content, */
  lemma AttachableIff(w: Words, outcomes: seq<Outcome>, a: Artifact)
    ensures a in Attachable(w, outcomes) <==>
              && (exists i | 0 <= i < |outcomes| :: outcomes[i] == Resolved(a))
              && BaseMime(a.mimeType) != "text/html" && BaseMime(a.mimeType) != "application/xhtml+xml" && !w.htmlBytes(a.bytes)
  {
    AttachedIff(x => IsHtmlChip(w, x), outcomes, a);
  }

  /** in the order they were referenced; */
  lemma {:induction false} AttachedInOrder(isHtml: Artifact -> bool, a: seq<Outcome>, b: seq<Outcome>)
    ensures Attached(isHtml, a + b) == Attached(isHtml, a) + Attached(isHtml, b)
  {
    if a == [] {
      assert a + b == b;
    } else {
      assert (a + b)[1..] == a[1..] + b;
      AttachedInOrder(isHtml, a[1..], b);
    }
  }

  /** and the reasons of the others are kept in order too. */
  lemma {:induction false} FailuresInOrder(a: seq<Outcome>, b: seq<Outcome>)
    ensures Failures(a + b) == Failures(a) + Failures(b)
  {
    if a == [] {
      assert a + b == b;
    } else {
      assert (a + b)[1..] == a[1..] + b;
      FailuresInOrder(a[1..], b);
    }
  }

  /** A skipped chip is no failure; anything else that is missing is one. */
  lemma FailureOfOne(o: Outcome)
    ensures o.Missing? && o.why.Because? ==> Failures([o]) == [o.why.reason]
    ensures o.Resolved? || o.why == NotAttachable ==> Failures([o]) == []
  {
    assert [o][1..] == [];
  }

  lemma {:induction false} PreferAt(w: Words, outcomes: seq<Outcome>, i: nat)
    requires i < |outcomes|
    ensures |PreferEach(w, outcomes)| == |outcomes| && PreferEach(w, outcomes)[i] == PreferOne(w, outcomes[i])
    decreases |outcomes|
  {
    if |outcomes| > 1 {
      PreferAt(w, outcomes[1..], if i > 0 then i - 1 else 0);
    }
  }

  /** Beside a file labelled PDF an invoice in another form is not attached, images excepted;
      without one every outcome stays. */
  lemma PreferMeans(w: Words, outcomes: seq<Outcome>, i: nat)
    requires i < |outcomes|
    ensures |PreferPdf(w, outcomes)| == |outcomes|
    ensures var o, kept := outcomes[i], PreferPdf(w, outcomes)[i];
            if (exists k | 0 <= k < |outcomes| :: outcomes[k].Resolved? && BaseMime(outcomes[k].artifact.mimeType) == PDF_MIME)
               && o.Resolved? && BaseMime(o.artifact.mimeType) != PDF_MIME && !(IMAGE_PREFIX <= BaseMime(o.artifact.mimeType))
               && w.invoiceRef(o.artifact)
            then kept == Missing(o.artifact.identifier, NotAttachable, "") else kept == o
  {
    PreferAt(w, outcomes, i);
    PreferredOne(w, outcomes[i]);
    AnyLabelled(outcomes);
  }

  lemma PreferredOne(w: Words, o: Outcome)
    ensures PreferOne(w, o) ==
            if o.Resolved? && BaseMime(o.artifact.mimeType) != PDF_MIME && !(IMAGE_PREFIX <= BaseMime(o.artifact.mimeType))
               && w.invoiceRef(o.artifact)
            then Missing(o.artifact.identifier, NotAttachable, "") else o
  {
    if o.Resolved? { PrefixIsStart(BaseMime(o.artifact.mimeType), IMAGE_PREFIX); }
  }

  lemma AnyLabelled(outcomes: seq<Outcome>)
    ensures (exists k | 0 <= k < |outcomes| :: LabelledPdf(outcomes[k])) <==>
            exists k | 0 <= k < |outcomes| :: outcomes[k].Resolved? && BaseMime(outcomes[k].artifact.mimeType) == PDF_MIME
  {
    if k :| 0 <= k < |outcomes| && outcomes[k].Resolved? && BaseMime(outcomes[k].artifact.mimeType) == PDF_MIME {
      assert LabelledPdf(outcomes[k]);
    }
  }

  lemma PrefixIsStart(s: string, prefix: string)
    ensures Captions.StartsWith(s, prefix) <==> prefix <= s
  {
  }

  predicate HasRealPdf(artifacts: seq<Artifact>) {
    exists i | 0 <= i < |artifacts| :: IsApplicationPdf(artifacts[i])
  }

  function OutcomeId(o: Outcome): string {
    match o case Resolved(a) => a.identifier case Missing(id, _, _) => id
  }

  /** The first outcome of an identifier. */
  function OutcomeOf(outcomes: seq<Outcome>, identifier: string): (o: Option<Outcome>)
    ensures o.None? ==> forall i | 0 <= i < |outcomes| :: OutcomeId(outcomes[i]) != identifier
    ensures o.Some? ==> exists i | 0 <= i < |outcomes| ::
              outcomes[i] == o.value && OutcomeId(outcomes[i]) == identifier && forall k | 0 <= k < i :: OutcomeId(outcomes[k]) != identifier
  {
    if outcomes == [] then None
    else if OutcomeId(outcomes[0]) == identifier then Some(outcomes[0])
    else OutcomeOf(outcomes[1..], identifier)
  }

  /** A reference to a real file whose download failed. */
  predicate OfficialReference(w: Words, ref: Ref, outcomes: seq<Outcome>) {
    var outcome := OutcomeOf(outcomes, ref.identifier);
    && w.pdfish(ref)
    && !(outcome.Some? && outcome.value.Missing? && outcome.value.why.NotAttachable?)
    && !(outcome.Some? && outcome.value.Resolved? && !IsApplicationPdf(outcome.value.artifact))
  }

  /** A reference to a PDF counts unless what it names came back as a skipped chip or as a file
      that is no PDF; the first outcome of its identifier decides. */
  lemma OfficialReferenceIff(w: Words, ref: Ref, outcomes: seq<Outcome>, i: nat)
    requires i < |outcomes| && OutcomeId(outcomes[i]) == ref.identifier
    requires forall k | 0 <= k < i :: OutcomeId(outcomes[k]) != ref.identifier
    ensures OfficialReference(w, ref, outcomes) <==>
              w.pdfish(ref) && match outcomes[i] case Resolved(a) => IsApplicationPdf(a) case Missing(_, why, _) => why.Because?
  {
    assert OutcomeOf(outcomes, ref.identifier) == Some(outcomes[i]) by {
      var o := OutcomeOf(outcomes, ref.identifier).value;
      var j :| 0 <= j < |outcomes| && outcomes[j] == o && OutcomeId(outcomes[j]) == ref.identifier
               && forall k | 0 <= k < j :: OutcomeId(outcomes[k]) != ref.identifier;
    }
  }

  lemma UnansweredReferenceIff(w: Words, ref: Ref, outcomes: seq<Outcome>)
    requires forall i | 0 <= i < |outcomes| :: OutcomeId(outcomes[i]) != ref.identifier
    ensures OfficialReference(w, ref, outcomes) <==> w.pdfish(ref)
  {
  }

  predicate ReferencedPdf(w: Words, refs: seq<Ref>, outcomes: seq<Outcome>) {
    exists i | 0 <= i < |refs| :: OfficialReference(w, refs[i], outcomes)
  }

  function FactTexts(outcomes: seq<Outcome>): seq<string> {
    if outcomes == [] then []
    else (if outcomes[0].Missing? && outcomes[0].factText != "" then [outcomes[0].factText] else []) + FactTexts(outcomes[1..])
  }

  function Supplemental(outcomes: seq<Outcome>): string {
    var joined := JoinLines(FactTexts(outcomes));
    if |joined| <= FACT_TEXT_MAX then joined else joined[..FACT_TEXT_MAX]
  }

  /** The facts stated in what is missing, in order, as far as 4000 characters. */
  lemma {:induction false} FactTextsInOrder(a: seq<Outcome>, b: seq<Outcome>)
    ensures FactTexts(a + b) == FactTexts(a) + FactTexts(b)
  {
    if a == [] {
      assert a + b == b;
    } else {
      assert (a + b)[1..] == a[1..] + b;
      FactTextsInOrder(a[1..], b);
    }
  }

  lemma SupplementalIsShort(outcomes: seq<Outcome>)
    ensures var all := JoinLines(FactTexts(outcomes));
            Supplemental(outcomes) <= all && |Supplemental(outcomes)| == if |all| <= 4000 then |all| else 4000
  {
  }

  // ------------------------------------------------------------------
  // The draft after the guard
  // ------------------------------------------------------------------

  datatype Draft = Draft(stripped: string, artifacts: seq<Artifact>, failures: seq<Reason>,
                         invoiceCaption: bool, documentCaption: bool)

  /** A completed turn that must not leave without a real PDF, and has none. */
  predicate MustNotLeave(completed: bool, artifacts: seq<Artifact>, invoice: bool, document: bool) {
    completed && !HasRealPdf(artifacts) && (invoice || document)
  }

  /** What such a turn becomes: the stored PDF of its thread, if it is real, within the cap, and
      no invoice on a document turn; else, on an invoice turn with stated facts and no official
      file that failed, the invoice built from them; else the preparing line. */
  ghost predicate Guarded(w: Words, input: Input, reply: string, refs: seq<Ref>, outcomes: seq<Outcome>, recovered: Option<Artifact>,
                          invoice: bool, d: Draft)
  {
    var usable := input.threadId != "" && recovered.Some? && IsApplicationPdf(recovered.value) && |recovered.value.bytes| <= input.maxBytes;
    var stored := usable && (invoice || !w.invoiceNamed(recovered.value));
    var failed := exists i | 0 <= i < |refs| :: OfficialReference(w, refs[i], outcomes);
    var facts := w.extract(input.operatorText + "\n" + reply + "\n" + Supplemental(outcomes));
    var built := invoice && !usable && !failed && facts.Some? && |BuildSeptInvoicePdf(facts.value, input.issuedOn).bytes| <= input.maxBytes;
    && d.failures == []
    && (stored ==> d.artifacts == [recovered.value])
    && (built ==> d.artifacts == [BuildSeptInvoicePdf(facts.value, input.issuedOn)])
    && (!stored && !built ==> d.artifacts == [] && d.stripped == PreparingText(invoice))
    && (d.artifacts != [] ==> GuardedPdf(w, invoice, input.maxBytes, d.artifacts))
    && (d.invoiceCaption <==> invoice && d.artifacts != []) && (d.documentCaption <==> !invoice && d.artifacts != [])
  }

  function PreparingText(invoice: bool): string {
    if invoice then INVOICE_PREPARING_TEXT else DOCUMENT_PREPARING_TEXT
  }

  ghost predicate GuardedPdf(w: Words, invoice: bool, maxBytes: nat, artifacts: seq<Artifact>) {
    && |artifacts| == 1 && IsApplicationPdf(artifacts[0])
    && SentAsPdf(DocumentForWhatsApp(artifacts[0]), artifacts[0], maxBytes)
    && (!invoice ==> !w.invoiceNamed(artifacts[0]))
  }

  function GuardTurn(w: Words, input: Input, reply: string, refs: seq<Ref>, outcomes: seq<Outcome>, recovered: Option<Artifact>): Turn {
    Turn(false, ReferencedPdf(w, refs, outcomes), if input.threadId == "" then None else recovered, input.maxBytes,
         w.claimsInvoice(reply),
         w.extract(input.operatorText + "\n" + reply + "\n" + Supplemental(outcomes)))
  }

  /** A real PDF the reply or its own name presents as an invoice. */
  predicate PresentsInvoice(w: Words, reply: string, a: Artifact) {
    IsApplicationPdf(a) && (w.claimsInvoice(reply) || w.invoiceTitled(a))
  }

  /** The draft after a decision. */
  function Decided(decision: Decision, invoice: bool, document: bool, d: Draft): Draft {
    match decision
    case Attach(_, artifact) => d.(artifacts := [artifact], failures := [], invoiceCaption := invoice, documentCaption := document)
    case Preparing(text) => d.(artifacts := [], failures := [], stripped := text)
    case Unchanged => d
  }

  /** The same decision under any rules. */
  ghost predicate DecidedBy(rules: Rules, t: Turn, invoice: bool, d: Draft) {
    var usable := Usable(t, rules);
    var stored := usable && (invoice || !rules.invoiceNamed(t.recovered.value));
    var built := invoice && !usable && BuildsFromFacts(t, rules);
    && d.failures == []
    && (stored ==> d.artifacts == [t.recovered.value])
    && (built ==> d.artifacts == [rules.build(t.facts.value)])
    && (!stored && !built ==> d.artifacts == [] && d.stripped == PreparingText(invoice))
    && (d.invoiceCaption <==> invoice && d.artifacts != []) && (d.documentCaption <==> !invoice && d.artifacts != [])
  }

  lemma DecidesBy(rules: Rules, t: Turn, invoice: bool, document: bool, draft: Draft)
    requires BuildsPdfs(rules) && !t.hasPdf && (invoice || document) && (invoice ==> !document)
    requires !draft.invoiceCaption && !draft.documentCaption
    ensures DecidedBy(rules, t, invoice, Decided(EnsureOutboundPdf(t, rules, invoice, document), invoice, document, draft))
  {
    DecisionIsExact(t, rules, invoice, document);
    if t.facts.Some? { assert rules.isPdf(rules.build(t.facts.value)); }
  }

  lemma AttachedArePdfs(w: Words, t: Turn, rules: Rules, invoice: bool, document: bool, draft: Draft)
    requires rules.isPdf == IsApplicationPdf && rules.invoiceNamed == w.invoiceNamed
    requires !t.hasPdf && (invoice || document) && (invoice ==> !document)
    ensures var d := Decided(EnsureOutboundPdf(t, rules, invoice, document), invoice, document, draft);
            d.artifacts != [] ==> GuardedPdf(w, invoice, t.maxBytes, d.artifacts)
  {
    AttachedIsReal(t, rules, invoice, document);
    GuardIsSound(t, rules, invoice, document);
    if !invoice { DocumentTurnNeverInvoice(t, rules); }
  }

  lemma GuardedIff(w: Words, input: Input, reply: string, refs: seq<Ref>, outcomes: seq<Outcome>, recovered: Option<Artifact>,
                   invoice: bool, d: Draft)
    requires DecidedBy(SeptRules(input.issuedOn, w.invoiceNamed), GuardTurn(w, input, reply, refs, outcomes, recovered), invoice, d)
    requires d.artifacts != [] ==> GuardedPdf(w, invoice, input.maxBytes, d.artifacts)
    ensures Guarded(w, input, reply, refs, outcomes, recovered, invoice, d)
  {
  }

  /** The first half of the guard: a turn that must not leave as it is. */
  method Enforce(w: Words, input: Input, reply: string, refs: seq<Ref>, outcomes: seq<Outcome>, recovered: Option<Artifact>,
                 invoice: bool, document: bool, draft: Draft) returns (d: Draft)
    requires (invoice || document) && (invoice ==> !document) && !draft.invoiceCaption && !draft.documentCaption
    ensures Guarded(w, input, reply, refs, outcomes, recovered, invoice, d)
    ensures d.artifacts != [] ==> GuardedPdf(w, invoice, input.maxBytes, d.artifacts)
    ensures d.invoiceCaption || d.documentCaption ==> d.artifacts != []
  {
    d := draft;
    var turn, rules := GuardTurn(w, input, reply, refs, outcomes, recovered), SeptRules(input.issuedOn, w.invoiceNamed);
    var decision := EnsureOutboundPdf(turn, rules, invoice, document);
    match decision {
      case Attach(_, artifact) =>
        d := d.(artifacts := [artifact], failures := [], invoiceCaption := invoice, documentCaption := document);
      case Preparing(text) => d := d.(artifacts := [], failures := [], stripped := text);
      case Unchanged =>
    }
    SeptRulesBuildPdfs(input.issuedOn, w.invoiceNamed);
    DecidesBy(rules, turn, invoice, document, draft);
    AttachedArePdfs(w, turn, rules, invoice, document, draft);
    GuardedIff(w, input, reply, refs, outcomes, recovered, invoice, d);
  }

  method Guard(w: Words, input: Input, reply: string, refs: seq<Ref>, outcomes: seq<Outcome>, recovered: Option<Artifact>,
               completed: bool, invoice: bool, document: bool, draft: Draft) returns (d: Draft)
    requires !draft.invoiceCaption && !draft.documentCaption
    requires invoice ==> !document
    ensures MustNotLeave(completed, draft.artifacts, invoice, document) ==> Guarded(w, input, reply, refs, outcomes, recovered, invoice, d)
    ensures !MustNotLeave(completed, draft.artifacts, invoice, document) ==>
              && d == draft.(invoiceCaption := d.invoiceCaption, documentCaption := d.documentCaption)
              && (d.invoiceCaption <==> exists i | 0 <= i < |draft.artifacts| ::
                    IsApplicationPdf(draft.artifacts[i]) && (w.claimsInvoice(reply) || w.invoiceTitled(draft.artifacts[i])))
              && (d.documentCaption <==> !d.invoiceCaption && document && HasRealPdf(draft.artifacts))
    ensures d.invoiceCaption || d.documentCaption ==> HasRealPdf(d.artifacts)
  {
    d := draft;
    if MustNotLeave(completed, d.artifacts, invoice, document) {
      d := Enforce(w, input, reply, refs, outcomes, recovered, invoice, document, d);
      if d.artifacts != [] { assert IsApplicationPdf(d.artifacts[0]); }
    } else if exists i | 0 <= i < |d.artifacts| :: PresentsInvoice(w, reply, d.artifacts[i]) {
      d := d.(invoiceCaption := true);
    } else if HasRealPdf(d.artifacts) && document {
      d := d.(documentCaption := true);
    }
  }

  // ------------------------------------------------------------------
  // The caption
  // ------------------------------------------------------------------

  function WithWelcome(input: Input, text: string): string {
    match input.welcomePrefix case None => text case Some(base) => base + "\n\n" + text
  }

  function InvoiceCaption(prefix: Option<string>): string {
    if prefix.None? || Trim(prefix.value) == "" then INVOICE_PDF_CAPTION else Trim(prefix.value) + "\n\n" + INVOICE_PDF_CAPTION
  }

  /** The reply text with the note about what could not be attached. */
  function Noted(w: Words, input: Input, d: Draft): string {
    WithFailureNote(Trim(w.sanitize(WithWelcome(input, d.stripped))), d.failures)
  }

  function CaptionOf(w: Words, input: Input, d: Draft): string {
    var noted := Noted(w, input, d);
    if d.artifacts == [] then noted
    else if d.invoiceCaption then InvoiceCaption(input.welcomePrefix)
    else WithFallback(Captions.DocumentCaption(noted, input.welcomePrefix), d.documentCaption)
  }

  function WithFallback(short: string, due: bool): string {
    if short == "" && due then DOCUMENT_PDF_CAPTION else short
  }

  lemma FallbackFits(short: string, due: bool)
    ensures |short| <= Captions.WHATSAPP_CAPTION_HARD_MAX ==> |WithFallback(short, due)| <= Captions.WHATSAPP_CAPTION_HARD_MAX
    ensures due ==> WithFallback(short, due) != ""
  {
  }

  /** The note about failed attachments ends the caption if and only if it is not an invoice
      caption: that one is a fixed sentence and drops the note. */
  lemma NoteEndsCaptionIff(w: Words, input: Input, d: Draft)
    requires d.failures != [] && |d.failures| < 0x1_0000_0000
    ensures EndsWith(CaptionOf(w, input, d), FailureNote(d.failures)) <==> d.artifacts == [] || !d.invoiceCaption
  {
    TrimmedStart(w.sanitize(WithWelcome(input, d.stripped)));
    var trimmed := Trim(w.sanitize(WithWelcome(input, d.stripped)));
    if d.artifacts == [] {
      NoteEndsText(trimmed, d.failures);
    } else if d.invoiceCaption {
      InvoiceCaptionHasNoNote(input.welcomePrefix, d.failures);
    } else {
      NoteEndsDocument(trimmed, d.failures, input.welcomePrefix);
    }
  }

  lemma NoteEndsText(trimmed: string, failures: seq<Reason>)
    requires failures != []
    ensures EndsWith(WithFailureNote(trimmed, failures), FailureNote(failures))
  {
  }

  lemma NoteEndsDocument(trimmed: string, failures: seq<Reason>, prefix: Option<string>)
    requires failures != [] && |failures| < 0x1_0000_0000
    requires trimmed != "" ==> !IsSpace(trimmed[0])
    ensures var caption := Captions.DocumentCaption(WithFailureNote(trimmed, failures), prefix);
            caption != "" && EndsWith(caption, FailureNote(failures))
  {
    FailureNoteSurvives(trimmed, failures, prefix);
    NoteIsShut(failures);
    EndsAlike(Captions.DocumentCaption(WithFailureNote(trimmed, failures), prefix), FailureNote(failures));
  }

  lemma InvoiceCaptionHasNoNote(prefix: Option<string>, failures: seq<Reason>)
    requires failures != []
    ensures !EndsWith(InvoiceCaption(prefix), FailureNote(failures))
  {
    NoteIsShut(failures);
    SentenceEndsInvoiceCaption(prefix);
    DifferentEnds(InvoiceCaption(prefix), FailureNote(failures));
  }

  lemma NoteIsShut(failures: seq<Reason>)
    requires failures != []
    ensures var note := FailureNote(failures); note != "" && note[|note|-1] == ')'
  {
  }

  lemma SentenceEndsInvoiceCaption(prefix: Option<string>)
    ensures var caption := InvoiceCaption(prefix); caption != "" && caption[|caption|-1] == '.'
    ensures EndsWith(InvoiceCaption(prefix), INVOICE_PDF_CAPTION)
  {
    var sentence := INVOICE_PDF_CAPTION;
    assert sentence[|sentence|-1] == '.' && sentence[|sentence|-|sentence|..] == sentence;
    if prefix.Some? && Trim(prefix.value) != "" {
      var front := Trim(prefix.value) + "\n\n";
      assert InvoiceCaption(prefix) == front + sentence;
      assert (front + sentence)[|front|..] == sentence;
    }
  }

  lemma DifferentEnds(s: string, note: string)
    requires s != "" && note != "" && s[|s|-1] != note[|note|-1]
    ensures !EndsWith(s, note)
  {
    if EndsWith(s, note) { EndsAlike(s, note); }
  }

  lemma EndsAlike(s: string, end: string)
    requires EndsWith(s, end) && end != ""
    ensures s != "" && s[|s|-1] == end[|end|-1]
  {
    assert s[|s|-|end|..][|end|-1] == s[|s|-1];
  }

  /** The draft that loses its note: a real invoice PDF, one other artifact too large. */
  lemma InvoiceCaptionDropsNote(w: Words, input: Input, invoice: Artifact)
    ensures var d := Draft("", [invoice], [TooLarge], true, false);
            !EndsWith(CaptionOf(w, input, d), FailureNote(d.failures))
  {
    NoteEndsCaptionIff(w, input, Draft("", [invoice], [TooLarge], true, false));
  }

  /** A document caption is within WhatsApp's limit, and never empty where a fallback is due. */
  lemma DocumentCaptionFits(w: Words, input: Input, d: Draft)
    requires d.artifacts != [] && !d.invoiceCaption
    ensures |CaptionOf(w, input, d)| <= Captions.WHATSAPP_CAPTION_HARD_MAX
    ensures d.documentCaption ==> CaptionOf(w, input, d) != ""
  {
    var noted := Noted(w, input, d);
    Captions.CaptionBounds(noted, input.welcomePrefix);
    FallbackFits(Captions.DocumentCaption(noted, input.welcomePrefix), d.documentCaption);
  }

  lemma ComposedText(w: Words, input: Input, d: Draft)
    ensures var full := if input.welcomePrefix.Some? then input.welcomePrefix.value + "\n\n" + d.stripped else d.stripped;
            var text := Trim(w.sanitize(full));
            d.artifacts == [] ==>
              CaptionOf(w, input, d)
              == if d.failures == [] then text else if text == "" then FailureNote(d.failures) else text + "\n\n" + FailureNote(d.failures)
    ensures d.artifacts != [] && d.invoiceCaption ==>
              CaptionOf(w, input, d)
              == if input.welcomePrefix.None? || Trim(input.welcomePrefix.value) == "" then INVOICE_PDF_CAPTION
                 else Trim(input.welcomePrefix.value) + "\n\n" + INVOICE_PDF_CAPTION
  {
  }

  /** What the caption keeps: a reply without attachments goes out uncut, with its note; an
      invoice goes out with the fixed sentence; any other document with a caption within
      the limit; and the note is there exactly when it is not an invoice. */
  method Compose(w: Words, input: Input, d: Draft) returns (caption: string)
    ensures caption == CaptionOf(w, input, d)
    ensures var full := if input.welcomePrefix.Some? then input.welcomePrefix.value + "\n\n" + d.stripped else d.stripped;
            var text := Trim(w.sanitize(full));
            d.artifacts == [] ==>
              caption == if d.failures == [] then text else if text == "" then FailureNote(d.failures) else text + "\n\n" + FailureNote(d.failures)
    ensures d.artifacts != [] && d.invoiceCaption ==>
              caption == if input.welcomePrefix.None? || Trim(input.welcomePrefix.value) == "" then INVOICE_PDF_CAPTION
                         else Trim(input.welcomePrefix.value) + "\n\n" + INVOICE_PDF_CAPTION
    ensures d.artifacts != [] && !d.invoiceCaption ==> |caption| <= Captions.WHATSAPP_CAPTION_HARD_MAX
    ensures d.artifacts != [] && d.documentCaption ==> caption != ""
    ensures d.failures != [] && |d.failures| < 0x1_0000_0000 ==>
              (EndsWith(caption, FailureNote(d.failures)) <==> d.artifacts == [] || !d.invoiceCaption)
  {
    caption := ComposeText(w, input, d);
    ComposedText(w, input, d);
    if d.artifacts != [] && !d.invoiceCaption { DocumentCaptionFits(w, input, d); }
    if d.failures != [] && |d.failures| < 0x1_0000_0000 { NoteEndsCaptionIff(w, input, d); }
  }

  method ComposeText(w: Words, input: Input, d: Draft) returns (caption: string)
    ensures caption == CaptionOf(w, input, d)
  {
    var noted := Noted(w, input, d);
    var short := Captions.Caption(noted, input.welcomePrefix);
    caption := if d.artifacts == [] then noted
               else if d.invoiceCaption then InvoiceCaption(input.welcomePrefix)
               else WithFallback(short, d.documentCaption);
  }

  // ------------------------------------------------------------------
  // The preparing gate
  // ------------------------------------------------------------------

  ghost predicate Spaced(times: seq<int>) {
    forall i | 0 < i < |times| :: times[i] - times[i-1] >= PREPARING_DEDUPE_MS
  }

  lemma SpacedNext(times: seq<int>, now: int)
    requires Spaced(times) && (times != [] ==> now - times[|times|-1] >= PREPARING_DEDUPE_MS)
    ensures Spaced(times + [now])
  {
  }

  /** One preparing line per chat and two minutes. */
  class PreparingGate {
    var sentAt: map<string, int>
    /** When each chat was let through, oldest first. */
    ghost var passed: map<string, seq<int>>

    ghost predicate Valid()
      reads this
    {
      && sentAt.Keys == passed.Keys
      && forall jid | jid in passed ::
           passed[jid] != [] && passed[jid][|passed[jid]|-1] == sentAt[jid] && Spaced(passed[jid])
    }

    constructor ()
      ensures Valid() && sentAt == map[]
    {
      sentAt, passed := map[], map[];
    }

    /** Never twice within the window, whatever the clock does. */
    method Pass(jid: string, now: int) returns (ok: bool)
      requires Valid()
      modifies this
      ensures Valid()
      ensures ok ==> jid in sentAt && sentAt[jid] == now
      ensures !ok ==> sentAt == old(sentAt) && passed == old(passed)
      ensures ok <==> now - (if jid in old(sentAt) then old(sentAt[jid]) else 0) >= PREPARING_DEDUPE_MS
    {
      var last := if jid in sentAt then sentAt[jid] else 0;
      if now - last < PREPARING_DEDUPE_MS { return false; }
      ghost var times := if jid in passed then passed[jid] else [];
      SpacedNext(times, now);
      passed := passed[jid := times + [now]];
      sentAt := sentAt[jid := now];
      ok := true;
    }
  }

  // ------------------------------------------------------------------
  // One dispatch
  // ------------------------------------------------------------------

  /** What is handed to WhatsApp once the chat was checked. */
  datatype Sending =
    | Text(text: string)
    | Doc(document: Document, caption: string)

  /** What a dispatch did: the draft it got to, what it handed over, its terminal write. */
  datatype Done = Done(draft: Option<Draft>, sends: seq<Sending>, wrote: Terminal)

  /** The text and references the answer is split into. */
  function Split(w: Words, r: Reply): (string, seq<Ref>)
    requires r.Answered?
  {
    var parsed := if r.completed && r.answer != "" then w.parse(r.answer) else (r.answer, []);
    if r.completed && parsed.1 == [] && w.select(parsed.0).1 != [] then w.select(parsed.0) else parsed
  }

  /** References tagged in a completed answer come first; without any, those it mentions. */
  lemma SplitMeans(w: Words, r: Reply)
    requires r.Answered?
    ensures !r.completed ==> Split(w, r) == (r.answer, [])
    ensures r.completed && r.answer != "" && w.parse(r.answer).1 != [] ==> Split(w, r) == w.parse(r.answer)
    ensures r.completed && (r.answer == "" || w.parse(r.answer).1 == []) ==>
              var text := if r.answer == "" then "" else w.parse(r.answer).0;
              Split(w, r) == if w.select(text).1 != [] then w.select(text) else (text, [])
  {
  }

  function AllUnavailable(refs: seq<Ref>): seq<Outcome> {
    if refs == [] then [] else [Missing(refs[0].identifier, Because(Unavailable), "")] + AllUnavailable(refs[1..])
  }

  function Resolve(refs: seq<Ref>, outcomes: Option<seq<Outcome>>): seq<Outcome> {
    if refs == [] then [] else if outcomes.Some? then outcomes.value else AllUnavailable(refs)
  }

  function Kept(w: Words, a: Answers): seq<Outcome>
    requires a.reply.Answered?
  {
    PreferPdf(w, Resolve(Split(w, a.reply).1, a.outcomes))
  }

  predicate InvoiceTurn(w: Words, r: Reply)
    requires r.Answered?
  {
    w.enforceInvoice(r.answer, Split(w, r).1)
  }

  predicate DocumentTurn(w: Words, r: Reply)
    requires r.Answered?
  {
    !InvoiceTurn(w, r) && w.enforceDocument(r.answer, Split(w, r).1)
  }

  /** The answer promises a file that did not arrive. */
  predicate MustGuard(w: Words, a: Answers) {
    a.reply.Answered?
    && MustNotLeave(a.reply.completed, Attachable(w, Kept(w, a)), InvoiceTurn(w, a.reply), DocumentTurn(w, a.reply))
  }

  lemma MustGuardIff(w: Words, a: Answers)
    ensures MustGuard(w, a) <==>
              && a.reply.Answered? && a.reply.completed
              && (forall i | 0 <= i < |Attachable(w, Kept(w, a))| :: !IsApplicationPdf(Attachable(w, Kept(w, a))[i]))
              && (w.enforceInvoice(a.reply.answer, Split(w, a.reply).1) || w.enforceDocument(a.reply.answer, Split(w, a.reply).1))
  {
  }

  /** Without references nothing is attached; if they cannot be resolved at all, each is missing. */
  lemma ResolveMeans(refs: seq<Ref>, outcomes: Option<seq<Outcome>>, i: nat)
    requires i < |refs|
    ensures outcomes.Some? ==> Resolve(refs, outcomes) == outcomes.value
    ensures outcomes.None? ==>
              |Resolve(refs, outcomes)| == |refs| && Resolve(refs, outcomes)[i] == Missing(refs[i].identifier, Because(Unavailable), "")
  {
    if outcomes.None? { UnavailableAt(refs, i); }
  }

  lemma {:induction false} UnavailableAt(refs: seq<Ref>, i: nat)
    requires i < |refs|
    ensures |AllUnavailable(refs)| == |refs| && AllUnavailable(refs)[i] == Missing(refs[i].identifier, Because(Unavailable), "")
    decreases |refs|
  {
    if |refs| == 1 {
      assert refs[1..] == [];
    } else {
      UnavailableAt(refs[1..], if i > 0 then i - 1 else 0);
    }
  }

  function FirstSending(d: Draft, caption: string): Sending {
    if d.artifacts == [] then Text(caption) else Doc(DocumentForWhatsApp(d.artifacts[0]), caption)
  }

  /** A document without a caption. */
  function Bare(a: Artifact): Sending {
    Doc(DocumentForWhatsApp(a), "")
  }

  function BareAll(artifacts: seq<Artifact>): (r: seq<Sending>)
    ensures |r| == |artifacts|
  {
    if artifacts == [] then [] else [Bare(artifacts[0])] + BareAll(artifacts[1..])
  }

  /** The artifacts from `i` on: one that is not handed over is skipped, a chat that was left ends it. */
  function RestFrom(artifacts: seq<Artifact>, i: nat, later: nat -> SendResult): seq<Sending>
    decreases |artifacts| - i
  {
    if i >= |artifacts| || later(i).ChatLeft? then []
    else (if HandedOver(later(i)) then [Bare(artifacts[i])] else []) + RestFrom(artifacts, i + 1, later)
  }

  predicate AllHandedOver(n: nat, i: nat, later: nat -> SendResult) {
    forall k | i <= k < n :: HandedOver(later(k))
  }

  /** All the other artifacts go out, bare and in order, if and only if each send is handed over. */
  lemma {:induction false} RestGoesOutIff(artifacts: seq<Artifact>, i: nat, later: nat -> SendResult)
    requires i <= |artifacts|
    ensures |RestFrom(artifacts, i, later)| <= |artifacts| - i
    ensures RestFrom(artifacts, i, later) == BareAll(artifacts[i..]) <==> AllHandedOver(|artifacts|, i, later)
    decreases |artifacts| - i
  {
    if i < |artifacts| {
      RestGoesOutIff(artifacts, i + 1, later);
      var rest := RestFrom(artifacts, i + 1, later);
      assert artifacts[i..][1..] == artifacts[i+1..];
      assert AllHandedOver(|artifacts|, i, later) <==> HandedOver(later(i)) && AllHandedOver(|artifacts|, i + 1, later);
      OneMore(Bare(artifacts[i]), rest, BareAll(artifacts[i+1..]));
    }
  }

  lemma OneMore<T>(x: T, s: seq<T>, t: seq<T>)
    ensures [x] + s == [x] + t <==> s == t
  {
    if [x] + s == [x] + t {
      assert s == ([x] + s)[1..];
      assert t == ([x] + t)[1..];
    }
  }

  /** With what is still to come, the sends so far are all of them. */
  ghost predicate SoFar(all: seq<Sending>, sends: seq<Sending>, artifacts: seq<Artifact>, i: nat, later: nat -> SendResult) {
    all == sends + RestFrom(artifacts, i, later)
  }

  lemma RestNext(all: seq<Sending>, sends: seq<Sending>, artifacts: seq<Artifact>, i: nat, later: nat -> SendResult)
    requires SoFar(all, sends, artifacts, i, later)
    ensures i >= |artifacts| || later(i).ChatLeft? ==> sends == all
    ensures i < |artifacts| && !later(i).ChatLeft? ==>
              SoFar(all, if HandedOver(later(i)) then sends + [Bare(artifacts[i])] else sends, artifacts, i + 1, later)
  {
    if i < |artifacts| && HandedOver(later(i)) {
      Regroup(sends, [Bare(artifacts[i])], RestFrom(artifacts, i + 1, later));
    }
  }

  /** The reply, and after a confirmed one the others. */
  function AllSends(d: Draft, caption: string, first: SendResult, later: nat -> SendResult): seq<Sending> {
    if !HandedOver(first) then []
    else [FirstSending(d, caption)] + if first.SentAs? then RestFrom(d.artifacts, 1, later) else []
  }

  /** No other artifact is handed over after the chat was left. */
  lemma {:induction false} NothingAfterLeaving(artifacts: seq<Artifact>, i: nat, j: nat, later: nat -> SendResult)
    requires i <= j < |artifacts| && later(j).ChatLeft?
    ensures RestFrom(artifacts, i, later) == RestFrom(artifacts[..j], i, later)
    decreases j - i
  {
    if i < j && !later(i).ChatLeft? {
      NothingAfterLeaving(artifacts, i + 1, j, later);
      SameHead(artifacts, artifacts[..j], i, later);
    }
  }

  lemma SameHead(a: seq<Artifact>, b: seq<Artifact>, i: nat, later: nat -> SendResult)
    requires i < |a| && i < |b| && a[i] == b[i] && RestFrom(a, i + 1, later) == RestFrom(b, i + 1, later)
    ensures RestFrom(a, i, later) == RestFrom(b, i, later)
  {
  }

  /** The answer is one that may reach the client at all. */
  predicate MayAnswer(w: Words, a: Answers) {
    a.reply.Answered? && a.mayStart && !w.lifecycle(Split(w, a.reply).0) && !w.envelope(Split(w, a.reply).0)
  }

  predicate Silent(d: Draft, caption: string) {
    caption == "" && d.artifacts == []
  }

  predicate PreparingLine(d: Draft, caption: string) {
    d.artifacts == [] && (Trim(caption) == INVOICE_PREPARING_TEXT || Trim(caption) == DOCUMENT_PREPARING_TEXT)
  }

  /** The draft is what the answer and its artifacts say, unless the guard had to step in. */
  ghost predicate DraftFor(w: Words, input: Input, a: Answers, d: Draft)
    requires a.reply.Answered?
  {
    if MustGuard(w, a) then
      Guarded(w, input, a.reply.answer, Split(w, a.reply).1, Kept(w, a), a.recovered, InvoiceTurn(w, a.reply), d)
    else
      && d.stripped == Split(w, a.reply).0 && d.artifacts == Attachable(w, Kept(w, a)) && d.failures == Failures(Kept(w, a))
      && (d.invoiceCaption <==> exists i | 0 <= i < |d.artifacts| ::
            IsApplicationPdf(d.artifacts[i]) && (w.claimsInvoice(a.reply.answer) || w.invoiceTitled(d.artifacts[i])))
      && (d.documentCaption <==> !d.invoiceCaption && DocumentTurn(w, a.reply) && HasRealPdf(d.artifacts))
  }

  /** What was handed over and how the claim was closed, for a draft: the reply, and after a
      confirmed one the other artifacts. Nothing goes out exactly for an empty reply, a first
      send that was not handed over, or a preparing line the gate refused. */
  ghost predicate Delivered(input: Input, first: SendResult, later: nat -> SendResult, d: Draft, caption: string, done: Done) {
    && (Silent(d, caption) || !HandedOver(first) ==> done.sends == [])
    && (!Silent(d, caption) && HandedOver(first) && !PreparingLine(d, caption) ==> done.sends != [])
    && (done.sends != [] ==>
          // The reply: as the text, or with the first file.
          && done.sends[0] == (if d.artifacts == [] then Text(caption) else Doc(DocumentForWhatsApp(d.artifacts[0]), caption))
          // The other files, without a caption, and only after a confirmed reply.
          && (forall i | 1 <= i < |done.sends| :: done.sends[i].Doc? && done.sends[i].caption == "")
          && done.sends[1..] == if first.SentAs? then RestFrom(d.artifacts, 1, later) else [])
    && done.wrote == (if done.sends != [] && first.SentAs? then MarkSent(input.chatJid, first.ref) else MarkFailed)
  }

  predicate AllBare(sends: seq<Sending>) {
    forall i | 0 <= i < |sends| :: sends[i].Doc? && sends[i].caption == ""
  }

  lemma BareCons(x: Sending, sends: seq<Sending>)
    requires x.Doc? && x.caption == "" && AllBare(sends)
    ensures AllBare([x] + sends)
  {
  }

  lemma {:induction false} RestIsBare(artifacts: seq<Artifact>, i: nat, later: nat -> SendResult)
    ensures AllBare(RestFrom(artifacts, i, later))
    decreases |artifacts| - i
  {
    if i < |artifacts| && !later(i).ChatLeft? {
      RestIsBare(artifacts, i + 1, later);
      if HandedOver(later(i)) { BareCons(Bare(artifacts[i]), RestFrom(artifacts, i + 1, later)); }
    }
  }

  lemma AllSendsCarry(d: Draft, caption: string, first: SendResult, later: nat -> SendResult)
    requires HandedOver(first)
    ensures var sends := AllSends(d, caption, first, later);
            && sends != []
            && sends[0] == (if d.artifacts == [] then Text(caption) else Doc(DocumentForWhatsApp(d.artifacts[0]), caption))
            && (forall i | 1 <= i < |sends| :: sends[i].Doc? && sends[i].caption == "")
            && sends[1..] == if first.SentAs? then RestFrom(d.artifacts, 1, later) else []
  {
    var sends := AllSends(d, caption, first, later);
    RestIsBare(d.artifacts, 1, later);
    var rest := sends[1..];
    assert rest == if first.SentAs? then RestFrom(d.artifacts, 1, later) else [];
    assert forall i | 1 <= i < |sends| :: sends[i] == rest[i-1];
  }

  ghost predicate Faithful(w: Words, input: Input, a: Answers, done: Done) {
    && (done.draft.Some? <==> MayAnswer(w, a))
    && (done.draft.None? ==> done.sends == [] && done.wrote == MarkFailed)
    && (done.draft.Some? ==>
          && DraftFor(w, input, a, done.draft.value)
          && Delivered(input, a.first, a.later, done.draft.value, CaptionOf(w, input, done.draft.value), done))
  }

  /** What may be handed over for an enforced turn: one PDF within the cap, no invoice on a
      document turn, or the text of the preparing line. */
  ghost predicate SafeSending(w: Words, input: Input, invoice: bool, s: Sending) {
    match s
    case Doc(document, _) => exists artifact :: SentAsPdf(document, artifact, input.maxBytes) && (!invoice ==> !w.invoiceNamed(artifact))
    case Text(text) => text == Trim(w.sanitize(WithWelcome(input, PreparingText(invoice))))
  }

  /** The parts of a guarded draft that decide what goes out. */
  predicate ShortDraft(invoice: bool, d: Draft) {
    d.failures == [] && |d.artifacts| <= 1 && (d.artifacts == [] ==> d.stripped == PreparingText(invoice))
  }

  lemma GuardedIsShort(w: Words, input: Input, reply: string, refs: seq<Ref>, outcomes: seq<Outcome>, recovered: Option<Artifact>,
                       invoice: bool, d: Draft)
    requires Guarded(w, input, reply, refs, outcomes, recovered, invoice, d)
    ensures ShortDraft(invoice, d) && (d.artifacts != [] ==> GuardedPdf(w, invoice, input.maxBytes, d.artifacts))
  {
  }

  lemma SentIsSafe(w: Words, input: Input, invoice: bool, d: Draft, s: Sending)
    requires ShortDraft(invoice, d) && (d.artifacts != [] ==> GuardedPdf(w, invoice, input.maxBytes, d.artifacts))
    requires d.artifacts == [] ==> s == Text(CaptionOf(w, input, d))
    requires d.artifacts != [] ==> s.Doc? && s.document == DocumentForWhatsApp(d.artifacts[0])
    ensures SafeSending(w, input, invoice, s)
  {
    if d.artifacts != [] {
      assert SentAsPdf(s.document, d.artifacts[0], input.maxBytes);
    }
  }

  lemma OneSending(input: Input, first: SendResult, later: nat -> SendResult, d: Draft, caption: string, done: Done)
    requires Delivered(input, first, later, d, caption, done) && |d.artifacts| <= 1
    ensures |done.sends| <= 1
    ensures done.sends != [] && d.artifacts == [] ==> done.sends[0] == Text(caption)
    ensures done.sends != [] && d.artifacts != [] ==> done.sends[0].Doc? && done.sends[0].document == DocumentForWhatsApp(d.artifacts[0])
  {
    if done.sends != [] {
      assert RestFrom(d.artifacts, 1, later) == [];
      assert |done.sends[1..]| == |done.sends| - 1;
    }
  }

  /** An enforced turn with no real PDF: at most one message, and a safe one. */
  lemma GuardedRunIsSafe(w: Words, input: Input, a: Answers, done: Done)
    requires Faithful(w, input, a, done) && MustGuard(w, a)
    ensures |done.sends| <= 1
    ensures done.sends != [] ==> SafeSending(w, input, InvoiceTurn(w, a.reply), done.sends[0])
  {
    if done.draft.Some? {
      var d, invoice := done.draft.value, InvoiceTurn(w, a.reply);
      GuardedIsShort(w, input, a.reply.answer, Split(w, a.reply).1, Kept(w, a), a.recovered, invoice, d);
      OneSending(input, a.first, a.later, d, CaptionOf(w, input, d), done);
      if done.sends != [] { SentIsSafe(w, input, invoice, d, done.sends[0]); }
    }
  }

  // ------------------------------------------------------------------
  // The message ids of what was handed over
  // ------------------------------------------------------------------

  /** The id is in the log, under the chat it was sent to. */
  predicate Announced(history: seq<Op>, input: Input, id: string) {
    exists i | 0 <= i < |history| ::
      history[i].Record? && history[i].connectionId == input.connectionId && history[i].chatJid == input.chatJid
      && history[i].messageId == id
  }

  lemma AnnouncedStays(history: seq<Op>, more: seq<Op>, input: Input, id: string)
    requires Announced(history, input, id) && history <= more
    ensures Announced(more, input, id)
  {
    var i :| 0 <= i < |history| && history[i].Record? && history[i].connectionId == input.connectionId
             && history[i].chatJid == input.chatJid && history[i].messageId == id;
    assert more[i] == history[i];
  }

  /** The ids of the other files sent before position n. */
  ghost predicate AnnouncedBelow(history: seq<Op>, input: Input, later: nat -> SendResult, n: nat) {
    forall k | 1 <= k < n && HandedOver(later(k)) && StillHere(later, k) :: Announced(history, input, later(k).id)
  }

  /** No earlier one of the other files found the chat left. */
  predicate StillHere(later: nat -> SendResult, k: nat) {
    forall j | 1 <= j < k :: !later(j).ChatLeft?
  }

  /** Whatever was handed over had its own id in the log. */
  ghost predicate AllAnnounced(history: seq<Op>, input: Input, first: SendResult, later: nat -> SendResult, n: nat) {
    && (HandedOver(first) ==> Announced(history, input, first.id))
    && (first.SentAs? ==> AnnouncedBelow(history, input, later, n))
  }

  lemma AnnouncedNext(history: seq<Op>, more: seq<Op>, input: Input, later: nat -> SendResult, n: nat)
    requires AnnouncedBelow(history, input, later, n) && history <= more
    requires HandedOver(later(n)) ==> Announced(more, input, later(n).id)
    ensures AnnouncedBelow(more, input, later, n + 1)
  {
    forall k | 1 <= k < n && HandedOver(later(k)) && StillHere(later, k) ensures Announced(more, input, later(k).id) {
      AnnouncedStays(history, more, input, later(k).id);
    }
  }

  lemma NoneAfterLeaving(history: seq<Op>, input: Input, later: nat -> SendResult, n: nat, all: nat)
    requires AnnouncedBelow(history, input, later, n + 1) && n > 0 && later(n).ChatLeft?
    ensures AnnouncedBelow(history, input, later, all)
  {
    forall k | 1 <= k < all && HandedOver(later(k)) && StillHere(later, k) ensures Announced(history, input, later(k).id) {
      assert k <= n;
    }
  }

  /** The dispatch's token was written with, and this is what it wrote. */
  predicate ClosedAs(history: seq<Op>, input: Input, t: Terminal) {
    Wrote(history, Closing(Key(input.connectionId, input.idempotencyKey), t), input.token)
  }

  lemma ClosedStays(history: seq<Op>, more: seq<Op>, input: Input, t: Terminal)
    requires ClosedAs(history, input, t) && history <= more
    ensures ClosedAs(more, input, t)
  {
    var c := Closing(Key(input.connectionId, input.idempotencyKey), t);
    var i :| 0 <= i < |history| && history[i].Write? && history[i].key == c.key && history[i].token == input.token
             && history[i].terminal == c.terminal;
    assert more[i] == history[i];
  }

  lemma WroteLast(history: seq<Op>, input: Input, t: Terminal, now: int)
    ensures ClosedAs(history + [Write(Key(input.connectionId, input.idempotencyKey), input.token, t, now)], input, t)
  {
    var more := history + [Write(Key(input.connectionId, input.idempotencyKey), input.token, t, now)];
    assert more[|history|].Write?;
  }

  lemma RecordedLast(history: seq<Op>, input: Input, id: string, now: int)
    ensures Announced(history + [Record(input.connectionId, input.chatJid, id, now)], input, id)
  {
    var more := history + [Record(input.connectionId, input.chatJid, id, now)];
    assert more[|history|].Record?;
  }

  class Dispatching {
    const log: OutboundLog
    const gate: PreparingGate

    ghost predicate Valid()
      reads this, log, gate
    {
      log.Valid() && IssuedOnly(log.history, log.issued) && gate.Valid()
    }

    /** The token was issued to this dispatch and nobody has written with it. */
    ghost predicate Owns(token: nat)
      reads this, log, gate
    {
      Valid() && token < log.issued && WritesOf(log.history, token) == 0
    }

    /** The token was closed by exactly one terminal write, and that is `t`. */
    ghost predicate Closed(input: Input, t: Terminal)
      reads this, log, gate
    {
      Valid() && input.token < log.issued && WritesOf(log.history, input.token) == 1 && ClosedAs(log.history, input, t)
    }

    constructor (log: OutboundLog)
      requires log.Valid() && IssuedOnly(log.history, log.issued)
      ensures Valid() && this.log == log && fresh(gate)
    {
      this.log := log;
      gate := new PreparingGate();
    }

    /** Any number of steps of others on the log and the gate; nobody has this token. */
    method Others(token: nat)
      requires Valid() && token < log.issued
      modifies log, gate
      ensures Valid() && token < log.issued && WritesOf(log.history, token) == WritesOf(old(log.history), token)
      ensures old(log.history) <= log.history
    {
      var steps: nat :| true;
      for i := 0 to steps
        invariant Valid() && token < log.issued && WritesOf(log.history, token) == WritesOf(old(log.history), token)
        invariant old(log.history) <= log.history
      {
        OtherStep(token);
      }
    }

    method OtherStep(token: nat)
      requires Valid() && token < log.issued
      modifies log, gate
      ensures Valid() && token < log.issued && WritesOf(log.history, token) == WritesOf(old(log.history), token)
      ensures old(log.history) <= log.history
    {
      var kind: int :| true;
      var connectionId: string :| true;
      var id: string :| true;
      var now: int :| true;
      if kind == 0 {
        WriteCounts(log.history, Op.Claim(Key(connectionId, id), now));
        var r := log.Claim(connectionId, id, now);
      } else if kind == 1 {
        Recorded(connectionId, id, id, now, token);
      } else if kind == 2 {
        var ok := gate.Pass(id, now);
      } else {
        var other: nat :| true;
        var t: Terminal :| true;
        if other < log.issued && other != token {
          WriteCounts(log.history, Write(Key(connectionId, id), other, t, now));
          var ok := log.Terminate(connectionId, id, other, t, now);
        }
      }
    }

    method Recorded(connectionId: string, chatJid: string, id: string, now: int, ghost token: nat)
      requires Valid() && token < log.issued
      modifies log
      ensures Valid() && token < log.issued && WritesOf(log.history, token) == WritesOf(old(log.history), token)
      ensures log.history == old(log.history) + [Record(connectionId, chatJid, id, now)]
      ensures GatewayKey(connectionId, id) in log.rows
      ensures GatewayKey(connectionId, id) !in old(log.rows) ==> log.IsGatewayMessage(connectionId, chatJid, id)
    {
      WriteCounts(log.history, Record(connectionId, chatJid, id, now));
      log.RecordGatewayMessage(connectionId, chatJid, id, now);
    }

    method Terminate(input: Input, t: Terminal) returns (ok: bool)
      requires Owns(input.token)
      modifies log
      ensures Closed(input, t) && old(log.history) <= log.history
      ensures ok <==> LatestGrant(old(log.history), Key(input.connectionId, input.idempotencyKey)) == Some(input.token)
    {
      var now: int :| true;
      WroteLast(log.history, input, t, now);
      WriteCounts(log.history, Write(Key(input.connectionId, input.idempotencyKey), input.token, t, now));
      ok := log.Terminate(input.connectionId, input.idempotencyKey, input.token, t, now);
    }

    method Fail(input: Input)
      requires Owns(input.token)
      modifies log
      ensures Closed(input, MarkFailed) && old(log.history) <= log.history
    {
      var ok := Terminate(input, MarkFailed);
    }

    /** Our own message id is in the log before WhatsApp gets the message. */
    method Transmit(input: Input, result: SendResult) returns (handed: bool)
      requires Valid() && input.token < log.issued
      modifies log, gate
      ensures Valid() && input.token < log.issued && WritesOf(log.history, input.token) == WritesOf(old(log.history), input.token)
      ensures handed <==> HandedOver(result)
      ensures old(log.history) <= log.history && (handed ==> Announced(log.history, input, result.id))
    {
      Others(input.token);
      if !HandedOver(result) { return false; }
      var now: int :| true;
      RecordedLast(log.history, input, result.id, now);
      Recorded(input.connectionId, input.chatJid, result.id, now, input.token);
      ghost var recorded := log.history;
      Others(input.token);
      AnnouncedStays(recorded, log.history, input, result.id);
      handed := true;
    }

    /** The reply itself: its outcome decides the terminal write. */
    method SendFirst(input: Input, result: SendResult) returns (handed: bool, wrote: Terminal)
      requires Owns(input.token)
      modifies log, gate
      ensures Closed(input, wrote)
      ensures handed <==> HandedOver(result)
      ensures wrote == if result.SentAs? then MarkSent(input.chatJid, result.ref) else MarkFailed
      ensures handed ==> Announced(log.history, input, result.id)
    {
      handed := Transmit(input, result);
      ghost var transmitted := log.history;
      wrote := if result.SentAs? then MarkSent(input.chatJid, result.ref) else MarkFailed;
      var ok := Terminate(input, wrote);
      if handed { AnnouncedStays(transmitted, log.history, input, result.id); }
    }

    /** The other artifacts, best effort; a failure here never touches the claim. */
    method SendRest(input: Input, d: Draft, caption: string, later: nat -> SendResult, ghost wrote: Terminal)
      returns (sends: seq<Sending>)
      requires Closed(input, wrote)
      modifies log, gate
      ensures Closed(input, wrote) && old(log.history) <= log.history
      ensures sends == [FirstSending(d, caption)] + RestFrom(d.artifacts, 1, later)
      ensures AnnouncedBelow(log.history, input, later, |d.artifacts|)
    {
      sends := [FirstSending(d, caption)];
      ghost var all := sends + RestFrom(d.artifacts, 1, later);
      var i := 1;
      while i < |d.artifacts|
        invariant 1 <= i && Closed(input, wrote) && old(log.history) <= log.history
        invariant SoFar(all, sends, d.artifacts, i, later)
        invariant AnnouncedBelow(log.history, input, later, i)
      {
        RestNext(all, sends, d.artifacts, i, later);
        ghost var before := log.history;
        var result := later(i);
        var handed := Transmit(input, result);
        ClosedStays(before, log.history, input, wrote);
        AnnouncedNext(before, log.history, input, later, i);
        if result.ChatLeft? {
          NoneAfterLeaving(log.history, input, later, i, |d.artifacts|);
          return;
        }
        if handed { sends := sends + [Bare(d.artifacts[i])]; }
        i := i + 1;
      }
      RestNext(all, sends, d.artifacts, i, later);
    }

    /** Everything between the answer and the draft. */
    method Prepare(w: Words, input: Input, a: Answers, stripped: string, refs: seq<Ref>) returns (d: Draft)
      requires a.reply.Answered? && Owns(input.token) && Split(w, a.reply) == (stripped, refs)
      modifies log, gate
      ensures Owns(input.token)
      ensures DraftFor(w, input, a, d)
    {
      if refs != [] { Others(input.token); }
      var outcomes := PreferPdf(w, Resolve(refs, a.outcomes));
      d := Draft(stripped, Attachable(w, outcomes), Failures(outcomes), false, false);
      var reply := a.reply.answer;
      var invoice := w.enforceInvoice(reply, refs);
      var document := !invoice && w.enforceDocument(reply, refs);
      if MustGuard(w, a) && input.threadId != "" { Others(input.token); }
      d := Guard(w, input, reply, refs, outcomes, a.recovered, a.reply.completed, invoice, document, d);
    }

    /** Every path makes exactly one terminal write with the claim's token. */
    method Dispatch(w: Words, input: Input, a: Answers) returns (done: Done)
      requires Owns(input.token)
      modifies log, gate
      ensures Closed(input, done.wrote)
      ensures Faithful(w, input, a, done)
      ensures done.sends != [] ==> AllAnnounced(log.history, input, a.first, a.later, |done.draft.value.artifacts|)
    {
      done := Done(None, [], MarkFailed);
      Others(input.token);
      if !a.reply.Answered? {
        Fail(input);
        return;
      }
      var (stripped, refs) := Split(w, a.reply);
      if !a.mayStart || w.lifecycle(stripped) || w.envelope(stripped) {
        Fail(input);
        return;
      }
      var d := Prepare(w, input, a, stripped, refs);
      var caption := Compose(w, input, d);
      done := Deliver(input, a.first, a.later, d, caption);
    }

    /** From the caption on: the gate, then the sends. */
    method Deliver(input: Input, first: SendResult, later: nat -> SendResult, d: Draft, caption: string) returns (done: Done)
      requires Owns(input.token)
      modifies log, gate
      ensures Closed(input, done.wrote)
      ensures done.draft == Some(d) && Delivered(input, first, later, d, caption, done)
      ensures done.sends != [] ==> AllAnnounced(log.history, input, first, later, |d.artifacts|)
    {
      done := Done(Some(d), [], MarkFailed);
      if caption == "" && d.artifacts == [] {
        Fail(input);
        return;
      }
      if d.artifacts == [] && (Trim(caption) == INVOICE_PREPARING_TEXT || Trim(caption) == DOCUMENT_PREPARING_TEXT) {
        var now: int :| true;
        var ok := gate.Pass(input.chatJid, now);
        if !ok {
          Fail(input);
          return;
        }
      }
      var sends, wrote := SendAll(input, first, later, d, caption);
      if HandedOver(first) { AllSendsCarry(d, caption, first, later); }
      done := Done(Some(d), sends, wrote);
    }

    method SendAll(input: Input, first: SendResult, later: nat -> SendResult, d: Draft, caption: string)
      returns (sends: seq<Sending>, wrote: Terminal)
      requires Owns(input.token)
      modifies log, gate
      ensures Closed(input, wrote)
      ensures sends == AllSends(d, caption, first, later)
      ensures AllAnnounced(log.history, input, first, later, |d.artifacts|)
      ensures wrote == if first.SentAs? then MarkSent(input.chatJid, first.ref) else MarkFailed
    {
      var handed;
      handed, wrote := SendFirst(input, first);
      sends := if handed then [FirstSending(d, caption)] else [];
      if wrote.MarkSent? {
        ghost var sent := log.history;
        sends := SendRest(input, d, caption, later, wrote);
        AnnouncedStays(sent, log.history, input, first.id);
      }
    }

    /** A fixed text, such as the welcome reply. */
    method DispatchDirectText(w: Words, input: Input, text: string, mayStart: bool, result: SendResult) returns (done: Done)
      requires Owns(input.token)
      modifies log, gate
      ensures Closed(input, done.wrote)
      ensures done.sends == if mayStart && Trim(w.sanitize(text)) != "" && HandedOver(result) then [Text(Trim(w.sanitize(text)))] else []
      ensures done.sends != [] ==> Announced(log.history, input, result.id)
      ensures done.wrote == if done.sends != [] && result.SentAs? then MarkSent(input.chatJid, result.ref) else MarkFailed
    {
      done := Done(None, [], MarkFailed);
      var sanitized := Trim(w.sanitize(text));
      if !mayStart || sanitized == "" {
        Fail(input);
        return;
      }
      var handed, wrote := SendFirst(input, result);
      done := Done(None, if handed then [Text(sanitized)] else [], wrote);
    }
  }
}
