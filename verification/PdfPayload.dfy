/**
 * Finding a PDF inside bytes (src/promptql/promptqlAdapter.ts: isPdfHeader,
 * pdfPayload). A byte is a number below 256.
 */
module PdfPayloads {
  import opened Common

  const PREAMBLE_MAX := 1024

  predicate IsPdfHeader(bytes: seq<byte>, offset: int) {
    && 0 <= offset && offset + 5 <= |bytes|
    && bytes[offset] == 0x25 && bytes[offset+1] == 0x50 && bytes[offset+2] == 0x44
    && bytes[offset+3] == 0x46 && bytes[offset+4] == 0x2d
  }

  predicate IsBlank(b: byte) {
    b == 0x20 || b == 0x09 || b == 0x0a || b == 0x0d
  }

  predicate HasBom(bytes: seq<byte>) {
    |bytes| >= 3 && bytes[0] == 0xef && bytes[1] == 0xbb && bytes[2] == 0xbf
  }

  function SkipBlank(bytes: seq<byte>, i: nat): (k: nat)
    requires i <= |bytes|
    ensures i <= k <= |bytes| && (forall j | i <= j < k :: IsBlank(bytes[j]))
    ensures k < |bytes| ==> !IsBlank(bytes[k])
    decreases |bytes| - i
  {
    if i < |bytes| && IsBlank(bytes[i]) then SkipBlank(bytes, i + 1) else i
  }

  /** Past a byte order mark and leading white space. */
  function Lead(bytes: seq<byte>): (k: nat)
    ensures k <= |bytes|
  {
    SkipBlank(bytes, if HasBom(bytes) then 3 else 0)
  }

  /** What may stand before a leading header: one byte order mark, then blanks, tabs and line ends. */
  lemma LeadMeans(bytes: seq<byte>)
    ensures var start := if |bytes| >= 3 && bytes[..3] == [0xef, 0xbb, 0xbf] then 3 else 0;
            && start <= Lead(bytes) <= |bytes|
            && (forall j | start <= j < Lead(bytes) :: bytes[j] in [0x20, 0x09, 0x0a, 0x0d])
            && (Lead(bytes) < |bytes| ==> bytes[Lead(bytes)] !in [0x20, 0x09, 0x0a, 0x0d])
  {
    assert HasBom(bytes) <==> |bytes| >= 3 && bytes[..3] == [0xef, 0xbb, 0xbf];
  }

  predicate FirstHeader(bytes: seq<byte>, k: nat) {
    IsPdfHeader(bytes, k) && forall j | 0 <= j < k :: !IsPdfHeader(bytes, j)
  }

  /** Where the PDF in the payload begins, if it is taken for one. */
  predicate PdfAt(bytes: seq<byte>, allowPreamble: bool, k: nat) {
    FirstHeader(bytes, k) && (k == Lead(bytes) || (allowPreamble && k <= PREAMBLE_MAX))
  }

  /** Nothing before the leading position can be a header. */
  lemma NoHeaderInLead(bytes: seq<byte>)
    ensures forall j | 0 <= j < Lead(bytes) :: !IsPdfHeader(bytes, j)
  {
  }

  lemma PdfAtIsUnique(bytes: seq<byte>, a: bool, b: bool, i: nat, k: nat)
    requires PdfAt(bytes, a, i) && PdfAt(bytes, b, k)
    ensures i == k
  {
    assert FirstHeader(bytes, i) && FirstHeader(bytes, k);
  }

  /** The payload starts at the first header of the bytes, and there is one exactly
      when that header follows the lead or lies within an allowed preamble. */
  method PdfPayload(bytes: seq<byte>, allowPreamble: bool) returns (start: Option<nat>)
    ensures start.Some? ==> PdfAt(bytes, allowPreamble, start.value)
    ensures start.None? ==> forall k: nat :: !PdfAt(bytes, allowPreamble, k)
  {
    if |bytes| < 5 { return None; }
    var i: nat := 0;
    if bytes[0] == 0xef && bytes[1] == 0xbb && bytes[2] == 0xbf { i := 3; }
    while i < |bytes| && IsBlank(bytes[i])
      invariant i <= |bytes| && SkipBlank(bytes, i) == Lead(bytes)
    {
      i := i + 1;
    }
    assert i == Lead(bytes);
    NoHeaderInLead(bytes);
    if IsPdfHeader(bytes, i) {
      return Some(i);
    }
    if !allowPreamble { return None; }
    var end := if |bytes| - 5 < PREAMBLE_MAX then |bytes| - 5 else PREAMBLE_MAX;
    var j: nat := 0;
    while j <= end
      invariant j <= end + 1
      invariant forall k | 0 <= k < j :: !IsPdfHeader(bytes, k)
    {
      if IsPdfHeader(bytes, j) { return Some(j); }
      j := j + 1;
    }
    return None;
  }

  /** The same decision as a value. */
  function PayloadStart(bytes: seq<byte>, allowPreamble: bool): Option<nat> {
    if IsPdfHeader(bytes, Lead(bytes)) then Some(Lead(bytes))
    else if allowPreamble then HeaderWithin(bytes, 0)
    else None
  }

  lemma PayloadStartMeans(bytes: seq<byte>, allowPreamble: bool)
    ensures var start := PayloadStart(bytes, allowPreamble);
            && (start.Some? ==> PdfAt(bytes, allowPreamble, start.value))
            && (start.None? ==> forall k: nat :: !PdfAt(bytes, allowPreamble, k))
  {
    NoHeaderInLead(bytes);
  }

  function HeaderWithin(bytes: seq<byte>, from: nat): (start: Option<nat>)
    requires forall j | 0 <= j < from :: !IsPdfHeader(bytes, j)
    ensures start.Some? ==> FirstHeader(bytes, start.value) && start.value <= PREAMBLE_MAX
    ensures start.None? ==> forall j | 0 <= j <= PREAMBLE_MAX :: !IsPdfHeader(bytes, j)
    decreases PREAMBLE_MAX + 1 - from
  {
    if from > PREAMBLE_MAX then None
    else if IsPdfHeader(bytes, from) then Some(from)
    else HeaderWithin(bytes, from + 1)
  }

  /** Bytes taken for a PDF without a preamble are taken for the same PDF with one. */
  lemma PreambleAgrees(bytes: seq<byte>)
    requires PayloadStart(bytes, false).Some?
    ensures PayloadStart(bytes, true) == PayloadStart(bytes, false)
  {
    PayloadStartMeans(bytes, false);
    PayloadStartMeans(bytes, true);
    var k := PayloadStart(bytes, false).value;
    assert PdfAt(bytes, true, k);
    PdfAtIsUnique(bytes, false, true, k, PayloadStart(bytes, true).value);
  }

  /** What is sent starts with the header itself and is no longer than the payload. */
  lemma PayloadBytes(bytes: seq<byte>, k: nat)
    requires FirstHeader(bytes, k)
    ensures |bytes[k..]| <= |bytes| && IsPdfHeader(bytes[k..], 0) && PdfAt(bytes[k..], false, 0)
  {
    assert bytes[k..][0] == bytes[k] && bytes[k..][1] == bytes[k+1] && bytes[k..][2] == bytes[k+2]
        && bytes[k..][3] == bytes[k+3] && bytes[k..][4] == bytes[k+4];
    assert Lead(bytes[k..]) == 0;
  }
}
