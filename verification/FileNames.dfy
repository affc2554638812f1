/**
 * The name a PDF goes out under (src/routing/invoicePdfGuard.ts:181-182).
 */
module FileNames {
  import opened JsText
  import opened MimeTypes

  const PDF_EXTENSION := ".pdf"

  predicate EndsWithLower(name: string, suffix: string) {
    EndsWith(Lower(name), suffix)
  }

  /** The name without a trailing .html, .htm, .json, .md, .txt or .csv in any case. */
  function StripExtension(name: string, extensions: seq<string>): (r: string)
    ensures |r| <= |name| && r == name[..|r|]
  {
    if extensions == [] then name
    else if EndsWithLower(name, extensions[0]) then name[..|name|-|extensions[0]|]
    else StripExtension(name, extensions[1..])
  }

  const TEXT_EXTENSIONS := [".html", ".htm", ".json", ".md", ".txt", ".csv"]
  const UNTITLED := "document"

  function WithSuffix(name: string, suffix: string): string {
    if EndsWithLower(name, suffix) then name else name + suffix
  }

  function BareName(fileName: string): string {
    var trimmed := Trim(fileName);
    StripExtension(if trimmed == "" then UNTITLED else trimmed, TEXT_EXTENSIONS)
  }

  function DocumentName(fileName: string): string {
    WithSuffix(BareName(fileName), PDF_EXTENSION)
  }

  lemma SuffixIsThere(name: string, suffix: string)
    requires Lower(suffix) == suffix
    ensures EndsWithLower(WithSuffix(name, suffix), suffix)
  {
    if !EndsWithLower(name, suffix) {
      assert Lower(name + suffix)[|name|..] == suffix;
    }
  }

  lemma PdfExtensionIsLower()
    ensures Lower(PDF_EXTENSION) == PDF_EXTENSION
  {
    assert forall i | 0 <= i < |PDF_EXTENSION| :: LowerChar(PDF_EXTENSION[i]) == PDF_EXTENSION[i];
  }

  /** Every document name WhatsApp gets ends in .pdf. */
  lemma DocumentNameIsPdf(fileName: string)
    ensures EndsWithLower(DocumentName(fileName), PDF_EXTENSION)
  {
    PdfExtensionIsLower();
    SuffixIsThere(BareName(fileName), PDF_EXTENSION);
  }

  /** The character, its letter in any case. */
  predicate SameLetter(c: char, d: char) {
    c == d || ('A' <= c <= 'Z' && c as int + 32 == d as int)
  }

  /** The name ends in the extension, in any case. */
  predicate HasExtension(name: string, extension: string) {
    |extension| <= |name| && forall k | 0 <= k < |extension| :: SameLetter(name[|name|-|extension|+k], extension[k])
  }

  predicate LowerCase(s: string) {
    forall i | 0 <= i < |s| :: !('A' <= s[i] <= 'Z')
  }

  lemma ExtensionIff(name: string, extension: string)
    requires LowerCase(extension)
    ensures EndsWithLower(name, extension) <==> HasExtension(name, extension)
  {
    if |extension| <= |name| {
      var n := |name| - |extension|;
      var tail := Lower(name)[n..];
      assert forall k | 0 <= k < |extension| :: tail[k] == LowerChar(name[n+k]);
      assert forall k | 0 <= k < |extension| :: SameLetter(name[n+k], extension[k]) <==> LowerChar(name[n+k]) == extension[k];
      if EndsWithLower(name, extension) {
        assert forall k | 0 <= k < |extension| :: tail[k] == extension[k];
      }
      if HasExtension(name, extension) { assert tail == extension; }
    }
  }

  /** Names that end alike: two extensions of one name have the same last letter. */
  lemma SameEnding(name: string, a: string, b: string)
    requires a != "" && b != "" && LowerCase(a) && LowerCase(b) && HasExtension(name, a) && HasExtension(name, b)
    ensures a[|a|-1] == b[|b|-1]
  {
    assert SameLetter(name[|name|-|a|+(|a|-1)], a[|a|-1]) && SameLetter(name[|name|-|b|+(|b|-1)], b[|b|-1]);
  }

  lemma NoneToStrip(name: string, extensions: seq<string>)
    requires forall i | 0 <= i < |extensions| :: !EndsWithLower(name, extensions[i])
    ensures StripExtension(name, extensions) == name
  {
    if extensions != [] {
      assert !EndsWithLower(name, extensions[0]);
      NoneToStrip(name, extensions[1..]);
    }
  }

  lemma OneToStrip(name: string, extensions: seq<string>, n: nat)
    requires n < |extensions| && EndsWithLower(name, extensions[n])
    requires forall i | 0 <= i < n :: !EndsWithLower(name, extensions[i])
    ensures StripExtension(name, extensions) == name[..|name|-|extensions[n]|]
  {
    if n > 0 {
      assert !EndsWithLower(name, extensions[0]);
      OneToStrip(name, extensions[1..], n - 1);
    }
  }

  predicate IsTextExtension(e: string) {
    exists n | 0 <= n < |TEXT_EXTENSIONS| :: TEXT_EXTENSIONS[n] == e
  }

  /** The six of them. */
  lemma TextExtensionsAre(e: string)
    ensures PDF_EXTENSION == ".pdf" && UNTITLED == "document"
    ensures IsTextExtension(e) <==> e == ".html" || e == ".htm" || e == ".json" || e == ".md" || e == ".txt" || e == ".csv"
  {
    var t := TEXT_EXTENSIONS;
    assert |t| == 6;
    assert t[0] == ".html" && t[1] == ".htm" && t[2] == ".json" && t[3] == ".md" && t[4] == ".txt" && t[5] == ".csv";
  }

  /** Each in lower case, with a last letter of its own, which is not that of .pdf. */
  lemma TextExtensionsDiffer()
    ensures |TEXT_EXTENSIONS| == 6
    ensures forall n | 0 <= n < 6 :: |TEXT_EXTENSIONS[n]| >= 2 && LowerCase(TEXT_EXTENSIONS[n])
    ensures var last := (n: int) requires 0 <= n < 6 && TEXT_EXTENSIONS[n] != "" => TEXT_EXTENSIONS[n][|TEXT_EXTENSIONS[n]|-1];
            last(0) == 'l' && last(1) == 'm' && last(2) == 'n' && last(3) == 'd' && last(4) == 't' && last(5) == 'v'
    ensures TEXT_EXTENSIONS[4][|TEXT_EXTENSIONS[4]|-2] == 'x'
  {
    var t := TEXT_EXTENSIONS;
    assert t[0] == ".html" && t[1] == ".htm" && t[2] == ".json" && t[3] == ".md" && t[4] == ".txt" && t[5] == ".csv";
  }

  lemma OneAtMost(name: string, m: nat, n: nat)
    requires m < 6 && n < 6 && |TEXT_EXTENSIONS| == 6 && HasExtension(name, TEXT_EXTENSIONS[m]) && HasExtension(name, TEXT_EXTENSIONS[n])
    ensures m == n
  {
    TextExtensionsDiffer();
    SameEnding(name, TEXT_EXTENSIONS[m], TEXT_EXTENSIONS[n]);
  }

  lemma NotPdf(name: string, n: nat)
    requires n < 6 && |TEXT_EXTENSIONS| == 6 && HasExtension(name, TEXT_EXTENSIONS[n])
    ensures !HasExtension(name, PDF_EXTENSION)
  {
    TextExtensionsDiffer();
    var f := PDF_EXTENSION;
    assert f[|f|-1] == 'f' && LowerCase(f);
    if HasExtension(name, f) { SameEnding(name, f, TEXT_EXTENSIONS[n]); }
  }

  /** What a name without an extension, or a stem, becomes. */
  lemma SuffixedIs(name: string)
    ensures WithSuffix(name, PDF_EXTENSION) == Suffixed(name)
  {
    ExtensionIff(name, PDF_EXTENSION);
  }

  lemma StrippedIs(name: string, n: nat)
    requires |TEXT_EXTENSIONS| == 6 && n < 6 && HasExtension(name, TEXT_EXTENSIONS[n])
    ensures StripExtension(name, TEXT_EXTENSIONS) == name[..|name|-|TEXT_EXTENSIONS[n]|]
  {
    TextExtensionsDiffer();
    ExtensionIff(name, TEXT_EXTENSIONS[n]);
    forall i | 0 <= i < n ensures !EndsWithLower(name, TEXT_EXTENSIONS[i]) {
      ExtensionIff(name, TEXT_EXTENSIONS[i]);
      if HasExtension(name, TEXT_EXTENSIONS[i]) { OneAtMost(name, i, n); }
    }
    OneToStrip(name, TEXT_EXTENSIONS, n);
  }

  lemma NotStripped(name: string)
    requires |TEXT_EXTENSIONS| == 6 && forall n | 0 <= n < 6 :: !HasExtension(name, TEXT_EXTENSIONS[n])
    ensures StripExtension(name, TEXT_EXTENSIONS) == name
  {
    TextExtensionsDiffer();
    forall i | 0 <= i < 6 ensures !EndsWithLower(name, TEXT_EXTENSIONS[i]) {
      ExtensionIff(name, TEXT_EXTENSIONS[i]);
    }
    NoneToStrip(name, TEXT_EXTENSIONS);
  }

  ghost predicate NamedFor(name: string, given: string) {
    && (given == "" ==> name == UNTITLED + PDF_EXTENSION)
    && (HasExtension(given, PDF_EXTENSION) ==> name == given)
    && (forall n | 0 <= n < |TEXT_EXTENSIONS| && HasExtension(given, TEXT_EXTENSIONS[n]) ::
          var stem := given[..|given|-|TEXT_EXTENSIONS[n]|];
          name == if HasExtension(stem, PDF_EXTENSION) then stem else stem + PDF_EXTENSION)
    && (given == "" || HasExtension(given, PDF_EXTENSION) || name == given + PDF_EXTENSION
        || exists n | 0 <= n < |TEXT_EXTENSIONS| :: HasExtension(given, TEXT_EXTENSIONS[n]))
  }

  function Suffixed(bare: string): string {
    if HasExtension(bare, PDF_EXTENSION) then bare else bare + PDF_EXTENSION
  }

  lemma NamedStem(n: string, k: nat)
    requires |TEXT_EXTENSIONS| == 6 && k < 6 && HasExtension(n, TEXT_EXTENSIONS[k])
    ensures NamedFor(Suffixed(n[..|n|-|TEXT_EXTENSIONS[k]|]), n)
  {
    NotPdf(n, k);
    TextExtensionsDiffer();
    forall i | 0 <= i < 6 && HasExtension(n, TEXT_EXTENSIONS[i]) ensures i == k { OneAtMost(n, i, k); }
  }

  lemma NamedPlain(n: string)
    requires n != "" && |TEXT_EXTENSIONS| == 6 && forall i | 0 <= i < 6 :: !HasExtension(n, TEXT_EXTENSIONS[i])
    ensures NamedFor(Suffixed(n), n)
  {
  }

  lemma NameOfFile(fileName: string)
    ensures NamedFor(DocumentName(fileName), Trim(fileName))
  {
    NameOfTrimmed(Trim(fileName));
  }

  lemma NameOfTrimmed(n: string)
    ensures NamedFor(WithSuffix(StripExtension(if n == "" then UNTITLED else n, TEXT_EXTENSIONS), PDF_EXTENSION), n)
  {
    TextExtensionsDiffer();
    if n == "" {
      UntitledIs();
    } else if k :| 0 <= k < 6 && HasExtension(n, TEXT_EXTENSIONS[k]) {
      StrippedIs(n, k);
      NamedStem(n, k);
      SuffixedIs(n[..|n|-|TEXT_EXTENSIONS[k]|]);
    } else {
      NotStripped(n);
      NamedPlain(n);
      SuffixedIs(n);
    }
  }

  lemma LastTwo(name: string, e: string)
    requires |e| >= 2 && HasExtension(name, e)
    ensures SameLetter(name[|name|-1], e[|e|-1]) && SameLetter(name[|name|-2], e[|e|-2])
  {
    var n := |name| - |e|;
    assert SameLetter(name[n+(|e|-1)], e[|e|-1]) && SameLetter(name[n+(|e|-2)], e[|e|-2]);
  }

  /** The default name has no extension of its own. */
  lemma UntitledIs()
    ensures WithSuffix(StripExtension(UNTITLED, TEXT_EXTENSIONS), PDF_EXTENSION) == UNTITLED + PDF_EXTENSION
    ensures |TEXT_EXTENSIONS| == 6 && !HasExtension("", PDF_EXTENSION) && forall n | 0 <= n < 6 :: !HasExtension("", TEXT_EXTENSIONS[n])
  {
    var u, f := UNTITLED, PDF_EXTENSION;
    assert |u| == 8 && u[7] == 't' && u[6] == 'n' && |f| == 4 && f[3] == 'f';
    TextExtensionsDiffer();
    forall n | 0 <= n < 6 ensures !HasExtension(u, TEXT_EXTENSIONS[n]) {
      var e := TEXT_EXTENSIONS[n];
      if HasExtension(u, e) { LastTwo(u, e); }
    }
    NotStripped(u);
    SuffixedIs(u);
    if HasExtension(u, f) { LastTwo(u, f); }
  }
}
