/**
 * The canonical identity of a physical piece and the ledger of pieces seen
 * (src/modules/recognition/item_identity_resolver.py). The character classes,
 * lower-casing, the sourcer lookup and the digest are parameters.
 */
module ItemIdentity {
  import opened Common

  const BAR := '|'

  // ------------------------------------------------------------------
  // normalize_text_attribute
  // ------------------------------------------------------------------

  /** Python's \w and \s, and str.lower. */
  datatype Text = Text(word: char -> bool, space: char -> bool, lower: string -> string)

  /** Word characters and white space are disjoint, and a bar is neither. */
  ghost predicate Sensible(x: Text) {
    (forall c :: x.word(c) ==> !x.space(c)) && !x.word(BAR) && !x.space(BAR) && x.space(' ')
  }

  function Cleaned(x: Text, s: string): string {
    if s == "" then ""
    else (if x.word(s[0]) || x.space(s[0]) then [s[0]] else "") + Cleaned(x, s[1..])
  }

  function SkipSpace(x: Text, s: string): (r: string)
    ensures |r| <= |s| && (r != "" ==> !x.space(r[0]))
  {
    if s != "" && x.space(s[0]) then SkipSpace(x, s[1..]) else s
  }

  function WordLength(x: Text, s: string): (n: nat)
    ensures n <= |s| && (forall i | 0 <= i < n :: !x.space(s[i])) && (s != "" && !x.space(s[0]) ==> n > 0)
  {
    if s == "" || x.space(s[0]) then 0 else 1 + WordLength(x, s[1..])
  }

  /** s.split() */
  function Words(x: Text, s: string): seq<string>
    decreases |s|
  {
    var t := SkipSpace(x, s);
    if t == "" then [] else
      var n := WordLength(x, t);
      [t[..n]] + Words(x, t[n..])
  }

  /** " ".join(words) */
  function Spaced(words: seq<string>): string {
    if words == [] then "" else if |words| == 1 then words[0] else words[0] + " " + Spaced(words[1..])
  }

  function Normalize(x: Text, s: string): string {
    if s == "" then "" else Spaced(Words(x, Cleaned(x, x.lower(s))))
  }

  predicate NoBar(s: string) {
    forall i | 0 <= i < |s| :: s[i] != BAR
  }

  predicate AllWordOrSpace(x: Text, s: string) {
    forall i | 0 <= i < |s| :: x.word(s[i]) || x.space(s[i])
  }

  predicate AllWord(x: Text, s: string) {
    forall i | 0 <= i < |s| :: x.word(s[i])
  }

  lemma {:induction false} CleanedChars(x: Text, s: string)
    ensures AllWordOrSpace(x, Cleaned(x, s))
  {
    if s != "" { CleanedChars(x, s[1..]); }
  }

  lemma {:induction false} SkipKeepsChars(x: Text, s: string)
    requires AllWordOrSpace(x, s)
    ensures AllWordOrSpace(x, SkipSpace(x, s))
  {
    if s != "" && x.space(s[0]) { SkipKeepsChars(x, s[1..]); }
  }

  /** The words of a cleaned text are non-empty and made of word characters. */
  lemma {:induction false} WordsChars(x: Text, s: string)
    requires AllWordOrSpace(x, s)
    ensures forall i | 0 <= i < |Words(x, s)| :: Words(x, s)[i] != "" && AllWord(x, Words(x, s)[i])
    decreases |s|
  {
    var t := SkipSpace(x, s);
    SkipKeepsChars(x, s);
    if t != "" {
      WordsChars(x, t[WordLength(x, t)..]);
    }
  }

  lemma {:induction false} SpacedHasNoBar(x: Text, words: seq<string>)
    requires Sensible(x) && forall i | 0 <= i < |words| :: AllWord(x, words[i])
    ensures NoBar(Spaced(words))
  {
    if |words| > 1 { SpacedHasNoBar(x, words[1..]); }
  }

  /** Whatever the attribute, its normal form has no bar in it. */
  lemma NormalFormHasNoBar(x: Text, s: string)
    requires Sensible(x)
    ensures NoBar(Normalize(x, s))
  {
    if s != "" {
      var cleaned := Cleaned(x, x.lower(s));
      CleanedChars(x, x.lower(s));
      WordsChars(x, cleaned);
      SpacedHasNoBar(x, Words(x, cleaned));
    }
  }

  /** The word characters of a text, in order. */
  function Letters(x: Text, s: string): string {
    if s == "" then "" else (if x.word(s[0]) then [s[0]] else "") + Letters(x, s[1..])
  }

  lemma {:induction false} LettersBoth(x: Text, s: string, t: string)
    ensures Letters(x, s + t) == Letters(x, s) + Letters(x, t)
  {
    if s == "" {
      assert s + t == t;
    } else {
      assert (s + t)[1..] == s[1..] + t;
      LettersBoth(x, s[1..], t);
    }
  }

  lemma {:induction false} CleanedLetters(x: Text, s: string)
    ensures Letters(x, Cleaned(x, s)) == Letters(x, s)
  {
    if s != "" {
      CleanedLetters(x, s[1..]);
      var head := if x.word(s[0]) || x.space(s[0]) then [s[0]] else "";
      LettersBoth(x, head, Cleaned(x, s[1..]));
      if head != "" { assert head[1..] == ""; }
    }
  }

  lemma {:induction false} SkippedLetters(x: Text, s: string)
    requires Sensible(x)
    ensures Letters(x, SkipSpace(x, s)) == Letters(x, s)
  {
    if s != "" && x.space(s[0]) { SkippedLetters(x, s[1..]); }
  }

  function Joined(words: seq<string>): string {
    if words == [] then "" else words[0] + Joined(words[1..])
  }

  lemma {:induction false} WordsLetters(x: Text, s: string)
    requires Sensible(x) && AllWordOrSpace(x, s)
    ensures Joined(Words(x, s)) == Letters(x, s)
    decreases |s|
  {
    var t := SkipSpace(x, s);
    SkipKeepsChars(x, s);
    SkippedLetters(x, s);
    if t != "" {
      var n := WordLength(x, t);
      WordsLetters(x, t[n..]);
      AllLetters(x, t[..n]);
      LettersBoth(x, t[..n], t[n..]);
      assert t == t[..n] + t[n..];
      assert Words(x, s)[1..] == Words(x, t[n..]);
    }
  }

  lemma {:induction false} AllLetters(x: Text, s: string)
    requires AllWord(x, s)
    ensures Letters(x, s) == s
  {
    if s != "" { AllLetters(x, s[1..]); }
  }

  lemma LettersThree(x: Text, word: string, rest: string)
    requires Sensible(x) && AllWord(x, word)
    ensures Letters(x, word + " " + rest) == word + Letters(x, rest)
  {
    var space := " ";
    AllLetters(x, word);
    NoLetter(x);
    LettersOfThree(x, word, space, rest);
    assert word + Letters(x, space) == word;
  }

  lemma LettersOfThree(x: Text, a: string, b: string, c: string)
    ensures Letters(x, a + b + c) == Letters(x, a) + Letters(x, b) + Letters(x, c)
  {
    LettersBoth(x, a + b, c);
    LettersBoth(x, a, b);
  }

  lemma NoLetter(x: Text)
    requires Sensible(x)
    ensures Letters(x, " ") == ""
  {
    assert " "[1..] == "";
  }

  lemma {:induction false} SpacedLetters(x: Text, words: seq<string>)
    requires Sensible(x) && forall i | 0 <= i < |words| :: AllWord(x, words[i])
    ensures Letters(x, Spaced(words)) == Joined(words)
  {
    if words != [] {
      AllLetters(x, words[0]);
      if |words| == 1 {
        assert words[1..] == [];
      } else {
        SpacedLetters(x, words[1..]);
        LettersThree(x, words[0], Spaced(words[1..]));
      }
    }
  }

  /** The normal form keeps every word character of the lower-cased text, in order, and no other. */
  lemma NormalFormKeepsLetters(x: Text, s: string)
    requires Sensible(x) && x.lower("") == ""
    ensures Letters(x, Normalize(x, s)) == Letters(x, x.lower(s))
  {
    if s != "" {
      var lowered := x.lower(s);
      var cleaned := Cleaned(x, lowered);
      CleanedChars(x, lowered);
      CleanedLetters(x, lowered);
      WordsChars(x, cleaned);
      WordsLetters(x, cleaned);
      SpacedLetters(x, Words(x, cleaned));
    }
  }

  lemma {:induction false} WordIsTaken(x: Text, word: string, rest: string)
    requires Sensible(x) && AllWord(x, word) && (rest != "" ==> x.space(rest[0]))
    ensures WordLength(x, word + rest) == |word|
  {
    if word == "" {
      assert word + rest == rest;
    } else {
      assert (word + rest)[1..] == word[1..] + rest;
      WordIsTaken(x, word[1..], rest);
    }
  }

  /** Splitting the joined words gives the words. */
  lemma {:induction false} WordsOfSpaced(x: Text, words: seq<string>)
    requires Sensible(x) && forall i | 0 <= i < |words| :: words[i] != "" && AllWord(x, words[i])
    ensures Words(x, Spaced(words)) == words
    decreases |words|
  {
    if words != [] {
      var w, more := words[0], words[1..];
      var rest := if more == [] then "" else " " + Spaced(more);
      var all := Spaced(words);
      assert all == w + rest;
      assert all[0] == w[0];
      WordIsTaken(x, w, rest);
      assert all[..|w|] == w && all[|w|..] == rest;
      WordsOfSpaced(x, more);
      if more != [] {
        assert rest[1..] == Spaced(more);
        SpacedSingly(x, more);
        SkipOne(x, rest);
      }
    }
  }

  lemma SkipOne(x: Text, s: string)
    requires s != "" && x.space(s[0])
    ensures Words(x, s) == Words(x, s[1..])
  {
    assert SkipSpace(x, s) == SkipSpace(x, s[1..]);
  }

  /** Normalizing keeps the words of the cleaned text apart as they were. */
  lemma NormalFormKeepsWords(x: Text, s: string)
    requires Sensible(x) && s != ""
    ensures Words(x, Normalize(x, s)) == Words(x, Cleaned(x, x.lower(s)))
  {
    CleanedChars(x, x.lower(s));
    WordsChars(x, Cleaned(x, x.lower(s)));
    WordsOfSpaced(x, Words(x, Cleaned(x, x.lower(s))));
  }

  /** Words are set apart by one space each, and by nothing else. */
  predicate SinglySpaced(x: Text, s: string) {
    && (s != "" ==> x.word(s[0]) && x.word(s[|s|-1]))
    && forall i | 0 <= i < |s| :: x.word(s[i]) || (s[i] == ' ' && 0 < i && x.word(s[i-1]))
  }

  lemma {:induction false} SpacedSingly(x: Text, words: seq<string>)
    requires Sensible(x) && forall i | 0 <= i < |words| :: words[i] != "" && AllWord(x, words[i])
    ensures SinglySpaced(x, Spaced(words)) && (words != [] ==> Spaced(words) != "")
  {
    if |words| > 1 {
      SpacedSingly(x, words[1..]);
      var rest, n := Spaced(words[1..]), |words[0]|;
      var all := words[0] + " " + rest;
      assert all[n] == ' ' && forall i | n < i < |all| :: all[i] == rest[i-n-1];
      assert forall i | 0 <= i < n :: all[i] == words[0][i];
    }
  }

  lemma NormalFormIsSpaced(x: Text, s: string)
    requires Sensible(x)
    ensures SinglySpaced(x, Normalize(x, s))
  {
    if s != "" {
      CleanedChars(x, x.lower(s));
      WordsChars(x, Cleaned(x, x.lower(s)));
      SpacedSingly(x, Words(x, Cleaned(x, x.lower(s))));
    }
  }

  // ------------------------------------------------------------------
  // generate_canonical_piece_id
  // ------------------------------------------------------------------

  datatype Piece = Piece(brand: string, model: string, size: string, colour: string, material: string, hardware: string)

  /** What identifies a piece: the normal forms, the sourcer, the image hash. */
  datatype Identity = Identity(brand: string, model: string, size: string, colour: string, material: string, hardware: string,
                               sourcerId: string, imageHash: Option<string>)

  const PHASH := "|phash:"

  function IdentityOf(x: Text, p: Piece, sourcerId: string, imageHash: Option<string>): Identity {
    Identity(Normalize(x, p.brand), Normalize(x, p.model), Normalize(x, p.size), Normalize(x, p.colour),
             Normalize(x, p.material), Normalize(x, p.hardware), sourcerId, imageHash)
  }

  function Tail(imageHash: Option<string>): string {
    match imageHash case None => "" case Some(h) => PHASH + h
  }

  function Barred(field: string, rest: string): string {
    field + [BAR] + rest
  }

  function Fingerprint(i: Identity): string {
    Barred(i.brand, Barred(i.model, Barred(i.size, Barred(i.colour, Barred(i.material, Barred(i.hardware, i.sourcerId + Tail(i.imageHash)))))))
  }

  /** A field without a bar ends at the first bar. */
  lemma BarSplits(a: string, b: string, x: string, y: string)
    requires NoBar(a) && NoBar(b) && Barred(a, x) == Barred(b, y)
    ensures a == b && x == y
  {
    var s, t := Barred(a, x), Barred(b, y);
    assert s[|a|] == BAR && t[|b|] == BAR;
    assert forall i | 0 <= i < |a| :: s[i] == a[i];
    assert forall i | 0 <= i < |b| :: t[i] == b[i];
    assert |a| == |b|;
    assert a == s[..|a|] && b == t[..|b|];
    assert x == s[|a|+1..] && y == t[|b|+1..];
  }

  lemma TailSplits(a: string, b: string, g: Option<string>, h: Option<string>)
    requires NoBar(a) && NoBar(b) && a + Tail(g) == b + Tail(h)
    ensures a == b && g == h
  {
    var s, t := a + Tail(g), b + Tail(h);
    assert forall i | 0 <= i < |a| :: s[i] == a[i];
    assert forall i | 0 <= i < |b| :: t[i] == b[i];
    assert g.Some? ==> |PHASH| > 0 && s[|a|] == PHASH[0] == BAR;
    assert h.Some? ==> t[|b|] == PHASH[0] == BAR;
    assert |a| == |b|;
    assert a == s[..|a|] && b == t[..|b|];
    assert Tail(g) == s[|a|..] && Tail(h) == t[|b|..];
    if g.Some? && h.Some? {
      assert g.value == Tail(g)[|PHASH|..] && h.value == Tail(h)[|PHASH|..];
    }
  }

  ghost predicate BarlessFields(i: Identity) {
    NoBar(i.brand) && NoBar(i.model) && NoBar(i.size) && NoBar(i.colour) && NoBar(i.material) && NoBar(i.hardware)
  }

  predicate SameFields(i: Identity, j: Identity) {
    i.brand == j.brand && i.model == j.model && i.size == j.size && i.colour == j.colour
    && i.material == j.material && i.hardware == j.hardware
  }

  /** What stands behind the sixth bar: the sourcer and the image hash, run together. */
  function SourcerAndHash(i: Identity): string {
    i.sourcerId + Tail(i.imageHash)
  }

  /** Exactly when two normalized pieces share a fingerprint: the six fields agree, and the
      sourcer ids with their image hashes are the same characters. */
  lemma FingerprintsAgreeIff(i: Identity, j: Identity)
    requires BarlessFields(i) && BarlessFields(j)
    ensures Fingerprint(i) == Fingerprint(j) <==> SameFields(i, j) && SourcerAndHash(i) == SourcerAndHash(j)
  {
    if Fingerprint(i) == Fingerprint(j) {
      var i6, j6 := SourcerAndHash(i), SourcerAndHash(j);
      var i5, j5 := Barred(i.hardware, i6), Barred(j.hardware, j6);
      var i4, j4 := Barred(i.material, i5), Barred(j.material, j5);
      var i3, j3 := Barred(i.colour, i4), Barred(j.colour, j4);
      var i2, j2 := Barred(i.size, i3), Barred(j.size, j3);
      var i1, j1 := Barred(i.model, i2), Barred(j.model, j2);
      BarSplits(i.brand, j.brand, i1, j1);
      BarSplits(i.model, j.model, i2, j2);
      BarSplits(i.size, j.size, i3, j3);
      BarSplits(i.colour, j.colour, i4, j4);
      BarSplits(i.material, j.material, i5, j5);
      BarSplits(i.hardware, j.hardware, i6, j6);
    }
  }

  /** Without bars in the sourcer ids that means the identities are the same. */
  lemma FingerprintIsInjective(i: Identity, j: Identity)
    requires BarlessFields(i) && BarlessFields(j) && NoBar(i.sourcerId) && NoBar(j.sourcerId)
    ensures Fingerprint(i) == Fingerprint(j) <==> i == j
  {
    FingerprintsAgreeIff(i, j);
    if SourcerAndHash(i) == SourcerAndHash(j) {
      TailSplits(i.sourcerId, j.sourcerId, i.imageHash, j.imageHash);
    }
  }

  /** With a bar in the sourcer id two identities can share a fingerprint. */
  lemma BarInSourcerCollides(i: Identity, h: string)
    requires i.imageHash == Some(h)
    ensures var j := i.(sourcerId := i.sourcerId + PHASH + h, imageHash := None);
            i != j && Fingerprint(i) == Fingerprint(j) && !NoBar(j.sourcerId)
  {
    var j := i.(sourcerId := i.sourcerId + PHASH + h, imageHash := None);
    assert i.sourcerId + Tail(i.imageHash) == j.sourcerId + Tail(j.imageHash);
    assert j.sourcerId[|i.sourcerId|] == PHASH[0] == BAR;
  }

  const ID_PREFIX := "PIECE_"

  const DIGEST_LENGTH := 12

  /** The cut digests of these two fingerprints are of full length and do not collide. */
  predicate NoCollision(digest: string -> string, i: Identity, j: Identity) {
    && |digest(Fingerprint(i))| == DIGEST_LENGTH && |digest(Fingerprint(j))| == DIGEST_LENGTH
    && (digest(Fingerprint(i)) == digest(Fingerprint(j)) ==> Fingerprint(i) == Fingerprint(j))
  }

  function BrandPrefix(brand: string, upper: string -> string): string {
    upper(if brand == "" then "pc" else if |brand| <= 3 then brand else brand[..3])
  }

  function PieceId(i: Identity, digest: string -> string, upper: string -> string): string {
    ID_PREFIX + BrandPrefix(i.brand, upper) + "_" + digest(Fingerprint(i))
  }

  lemma SameEnd(a: string, b: string, x: string, y: string)
    requires |x| == |y| && a + x == b + y
    ensures x == y
  {
    assert |a| == |b|;
    assert x == (a + x)[|a|..] && y == (b + y)[|b|..];
  }

  /** Ids agree exactly when fingerprints do, wherever the digest does not collide. */
  lemma IdIffFingerprint(i: Identity, j: Identity, digest: string -> string, upper: string -> string)
    requires NoCollision(digest, i, j) && BarlessFields(i) && BarlessFields(j)
    ensures PieceId(i, digest, upper) == PieceId(j, digest, upper) <==> Fingerprint(i) == Fingerprint(j)
  {
    if PieceId(i, digest, upper) == PieceId(j, digest, upper) {
      SameEnd(ID_PREFIX + BrandPrefix(i.brand, upper) + "_", ID_PREFIX + BrandPrefix(j.brand, upper) + "_",
              digest(Fingerprint(i)), digest(Fingerprint(j)));
    } else if Fingerprint(i) == Fingerprint(j) {
      FingerprintsAgreeIff(i, j);
    }
  }

  /** Two sightings get one id exactly when the normalized attributes agree and the sourcer
      and image-hash field run together agree; the chat plays no part. */
  lemma SameIdIff(x: Text, p: Piece, q: Piece, s: string, r: string, g: Option<string>, h: Option<string>,
                  digest: string -> string, upper: string -> string)
    requires Sensible(x) && NoCollision(digest, IdentityOf(x, p, s, g), IdentityOf(x, q, r, h))
    ensures var i, j := IdentityOf(x, p, s, g), IdentityOf(x, q, r, h);
            PieceId(i, digest, upper) == PieceId(j, digest, upper) <==> SameFields(i, j) && s + Tail(g) == r + Tail(h)
  {
    var i, j := IdentityOf(x, p, s, g), IdentityOf(x, q, r, h);
    IdentityIsBarless(x, p, s, g);
    IdentityIsBarless(x, q, r, h);
    IdIffFingerprint(i, j, digest, upper);
    FingerprintsAgreeIff(i, j);
  }

  /** With sourcer ids that have no bar: exactly when attributes, sourcer and image hash agree. */
  lemma SameIdIffSamePiece(x: Text, p: Piece, q: Piece, s: string, r: string, g: Option<string>, h: Option<string>,
                           digest: string -> string, upper: string -> string)
    requires Sensible(x) && NoBar(s) && NoBar(r)
    requires NoCollision(digest, IdentityOf(x, p, s, g), IdentityOf(x, q, r, h))
    ensures PieceId(IdentityOf(x, p, s, g), digest, upper) == PieceId(IdentityOf(x, q, r, h), digest, upper)
       <==> IdentityOf(x, p, s, g) == IdentityOf(x, q, r, h)
  {
    SameIdIff(x, p, q, s, r, g, h, digest, upper);
    if s + Tail(g) == r + Tail(h) {
      TailSplits(s, r, g, h);
    }
  }

  lemma IdentityIsBarless(x: Text, p: Piece, sourcerId: string, imageHash: Option<string>)
    requires Sensible(x)
    ensures BarlessFields(IdentityOf(x, p, sourcerId, imageHash))
  {
    NormalFormHasNoBar(x, p.brand);
    NormalFormHasNoBar(x, p.model);
    NormalFormHasNoBar(x, p.size);
    NormalFormHasNoBar(x, p.colour);
    NormalFormHasNoBar(x, p.material);
    NormalFormHasNoBar(x, p.hardware);
  }

  /** The hypotheses can be met: a digest that tells these two fingerprints apart exists,
      and so does a reading of characters. */
  lemma HypothesesCanHold(i: Identity, j: Identity) returns (digest: string -> string, x: Text)
    ensures NoCollision(digest, i, j) && Sensible(x)
  {
    var f := Fingerprint(i);
    digest := s => if s == f then "000000000000" else "000000000001";
    x := Text(c => 'a' <= c <= 'z', c => c == ' ', s => s);
    assert "000000000000"[11] != "000000000001"[11];
  }

  // ------------------------------------------------------------------
  // resolve_and_ingest_piece
  // ------------------------------------------------------------------

  datatype Sighting = Sighting(chatId: string, messageId: string, timestamp: string)

  datatype Entry = Entry(pieceId: string, frequencySeen: nat, associatedChats: seq<Sighting>, firstSeenAt: string, lastSeenAt: string)

  datatype Record = Record(pieceId: string, sighting: Sighting, isDeduplicated: bool)

  /** The sightings of one piece in the history, oldest first. */
  function SightingsOf(history: seq<Record>, id: string): seq<Sighting> {
    if history == [] then []
    else
      var last := history[|history|-1];
      SightingsOf(history[..|history|-1], id) + if last.pieceId == id then [last.sighting] else []
  }

  /** The sum of `frequency_seen` over the ledger, in insertion order. */
  function Total(order: seq<string>, ledger: map<string, Entry>): nat
    requires forall i | 0 <= i < |order| :: order[i] in ledger
  {
    if order == [] then 0
    else Total(order[..|order|-1], ledger) + ledger[order[|order|-1]].frequencySeen
  }

  predicate EntryAgrees(history: seq<Record>, ledger: map<string, Entry>, id: string) {
    if id in ledger then
      && ledger[id].pieceId == id && ledger[id].associatedChats == SightingsOf(history, id)
      && ledger[id].frequencySeen == |ledger[id].associatedChats| > 0
      && ledger[id].firstSeenAt == ledger[id].associatedChats[0].timestamp
      && ledger[id].lastSeenAt == ledger[id].associatedChats[|ledger[id].associatedChats|-1].timestamp
    else SightingsOf(history, id) == []
  }

  ghost predicate LedgerAgrees(history: seq<Record>, ledger: map<string, Entry>) {
    forall id :: EntryAgrees(history, ledger, id)
  }

  /** Keys in insertion order, each once. */
  ghost predicate OrderOf(order: seq<string>, ledger: map<string, Entry>) {
    && (forall i | 0 <= i < |order| :: order[i] in ledger)
    && (forall id | id in ledger :: id in order)
    && forall i, j | 0 <= i < j < |order| :: order[i] != order[j]
  }

  lemma {:induction false} TotalUnchanged(order: seq<string>, ledger: map<string, Entry>, id: string, e: Entry)
    requires (forall i | 0 <= i < |order| :: order[i] in ledger) && forall i | 0 <= i < |order| :: order[i] != id
    ensures Total(order, ledger[id := e]) == Total(order, ledger)
  {
    if order != [] { TotalUnchanged(order[..|order|-1], ledger, id, e); }
  }

  lemma {:induction false} TotalChanges(order: seq<string>, ledger: map<string, Entry>, n: nat, e: Entry)
    requires n < |order| && (forall i | 0 <= i < |order| :: order[i] in ledger)
    requires forall i, j | 0 <= i < j < |order| :: order[i] != order[j]
    ensures Total(order, ledger[order[n] := e]) + ledger[order[n]].frequencySeen == Total(order, ledger) + e.frequencySeen
  {
    var front := order[..|order|-1];
    if n == |order| - 1 {
      TotalUnchanged(front, ledger, order[n], e);
    } else {
      TotalChanges(front, ledger, n, e);
    }
  }

  lemma IngestKeepsLedger(history: seq<Record>, ledger: map<string, Entry>, r: Record)
    requires LedgerAgrees(history, ledger)
    ensures LedgerAgrees(history + [r], ledger[r.pieceId := Updated(ledger, r.pieceId, r.sighting)])
  {
    var history', ledger' := history + [r], ledger[r.pieceId := Updated(ledger, r.pieceId, r.sighting)];
    assert history'[..|history|] == history;
    forall id ensures EntryAgrees(history', ledger', id) {
      assert EntryAgrees(history, ledger, id);
    }
  }

  function Updated(ledger: map<string, Entry>, id: string, s: Sighting): Entry {
    if id in ledger then
      ledger[id].(frequencySeen := ledger[id].frequencySeen + 1, associatedChats := ledger[id].associatedChats + [s], lastSeenAt := s.timestamp)
    else Entry(id, 1, [s], s.timestamp, s.timestamp)
  }

  lemma KnownIffSeen(history: seq<Record>, ledger: map<string, Entry>, id: string)
    requires LedgerAgrees(history, ledger)
    ensures id in ledger <==> SightingsOf(history, id) != []
  {
    assert EntryAgrees(history, ledger, id);
  }

  function NextOrder(order: seq<string>, ledger: map<string, Entry>, id: string): seq<string> {
    if id in ledger then order else order + [id]
  }

  /** One sighting more in the ledger is one more in the sum, whether the piece is new or not. */
  lemma IngestCountsOnce(order: seq<string>, ledger: map<string, Entry>, id: string, s: Sighting)
    requires OrderOf(order, ledger)
    ensures var ledger' := ledger[id := Updated(ledger, id, s)];
            && OrderOf(NextOrder(order, ledger, id), ledger')
            && Total(NextOrder(order, ledger, id), ledger') == Total(order, ledger) + 1
  {
    var e := Updated(ledger, id, s);
    if id in ledger {
      var n :| 0 <= n < |order| && order[n] == id;
      TotalChanges(order, ledger, n, e);
    } else {
      TotalUnchanged(order, ledger, id, e);
      assert (order + [id])[..|order|] == order;
    }
  }

  /** Each entry has seen exactly the history's records of its piece, and the frequencies
      add up to the length of the history. */
  ghost predicate Balanced(history: seq<Record>, order: seq<string>, ledger: map<string, Entry>) {
    LedgerAgrees(history, ledger) && OrderOf(order, ledger) && Total(order, ledger) == |history|
  }

  lemma KeepsBooks(history: seq<Record>, order: seq<string>, ledger: map<string, Entry>, r: Record)
    requires Balanced(history, order, ledger)
    ensures Balanced(history + [r], NextOrder(order, ledger, r.pieceId), ledger[r.pieceId := Updated(ledger, r.pieceId, r.sighting)])
  {
    IngestKeepsLedger(history, ledger, r);
    IngestCountsOnce(order, ledger, r.pieceId, r.sighting);
  }

  class ItemIdentityResolver {
    var piecesLedger: map<string, Entry>
    var resolutionHistory: seq<Record>
    /** The ledger's keys in the order they were inserted. */
    ghost var order: seq<string>

    ghost predicate Valid()
      reads this
    {
      Balanced(resolutionHistory, order, piecesLedger)
    }

    constructor ()
      ensures Valid() && piecesLedger == map[] && resolutionHistory == []
    {
      piecesLedger, resolutionHistory, order := map[], [], [];
      new;
      forall id ensures EntryAgrees([], map[], id) { }
    }

    /** The ledger entry after one more sighting. */
    method Sight(canonicalId: string, s: Sighting) returns (entry: Entry)
      ensures entry == Updated(piecesLedger, canonicalId, s)
    {
      if canonicalId in piecesLedger {
        var seen := piecesLedger[canonicalId];
        entry := seen.(associatedChats := seen.associatedChats + [s], frequencySeen := seen.frequencySeen + 1, lastSeenAt := s.timestamp);
      } else {
        entry := Entry(canonicalId, 1, [s], s.timestamp, s.timestamp);
      }
    }

    method ResolveAndIngestPiece(canonicalId: string, s: Sighting) returns (record: Record)
      requires Valid()
      modifies this
      ensures Valid()
      ensures record == Record(canonicalId, s, SightingsOf(old(resolutionHistory), canonicalId) != [])
      ensures resolutionHistory == old(resolutionHistory) + [record]
      ensures piecesLedger == old(piecesLedger)[canonicalId := Updated(old(piecesLedger), canonicalId, s)]
    {
      KnownIffSeen(resolutionHistory, piecesLedger, canonicalId);
      var isExisting := canonicalId in piecesLedger;
      record := Record(canonicalId, s, isExisting);
      KeepsBooks(resolutionHistory, order, piecesLedger, record);
      var entry := Sight(canonicalId, s);
      order := NextOrder(order, piecesLedger, canonicalId);
      piecesLedger := piecesLedger[canonicalId := entry];
      resolutionHistory := resolutionHistory + [record];
    }
  }
}
