/**
 * Comparing MIME types the way the gateway does:
 * mimeType.split(";")[0].trim().toLowerCase().
 */
module MimeTypes {
  import opened JsText

  function LowerChar(c: char): char {
    if 'A' <= c <= 'Z' then (c as int - 'A' as int + 'a' as int) as char else c
  }

  /** Lower case of the letters A to Z; no other character lowers into the names compared below. */
  function Lower(s: string): (r: string)
    ensures |r| == |s| && forall i | 0 <= i < |s| :: r[i] == LowerChar(s[i])
  {
    seq(|s|, i requires 0 <= i < |s| => LowerChar(s[i]))
  }

  function UpTo(s: string, c: char): string {
    if s == "" || s[0] == c then "" else [s[0]] + UpTo(s[1..], c)
  }

  /** The type without its parameters. */
  function BaseMime(mimeType: string): string {
    Lower(Trim(UpTo(mimeType, ';')))
  }

  /** Parameters play no part, */
  lemma {:induction false} MimeIgnoresParameters(t: string, p: string)
    requires ';' !in t
    ensures BaseMime(t + ";" + p) == BaseMime(t)
  {
    NothingToCut(t, ';');
    CutThere(t, ";" + p);
    assert t + ";" + p == t + (";" + p);
  }

  lemma {:induction false} CutThere(t: string, rest: string)
    requires ';' !in t && rest != "" && rest[0] == ';'
    ensures UpTo(t + rest, ';') == t
  {
    if t == "" {
      assert t + rest == rest;
    } else {
      assert (t + rest)[1..] == t[1..] + rest;
      assert forall c | c in t[1..] :: c in t;
      CutThere(t[1..], rest);
    }
  }

  /** nor does the case of letters. */
  lemma MimeIgnoresCase(s: string)
    ensures BaseMime(Lower(s)) == BaseMime(s)
  {
    UpToLower(s);
    var t := UpTo(s, ';');
    TrimLower(t);
    LowerTwice(Trim(t));
  }

  lemma LowerTwice(s: string)
    ensures Lower(Lower(s)) == Lower(s)
  {
    assert forall i | 0 <= i < |s| :: LowerChar(LowerChar(s[i])) == LowerChar(s[i]);
  }

  lemma {:induction false} UpToLower(s: string)
    ensures UpTo(Lower(s), ';') == Lower(UpTo(s, ';'))
  {
    if s != "" && s[0] != ';' {
      assert Lower(s)[1..] == Lower(s[1..]);
      UpToLower(s[1..]);
    }
  }

  lemma TrimLower(s: string)
    ensures Trim(Lower(s)) == Lower(Trim(s))
  {
    StartLower(s);
    EndLower(TrimStart(s));
  }

  lemma SpaceLower(c: char)
    ensures IsSpace(LowerChar(c)) <==> IsSpace(c)
  {
  }

  /** Cutting off exactly the white space in front. */
  lemma {:induction false} TrimStartIs(s: string, n: nat)
    requires n <= |s| && Blank(s[..n]) && (n < |s| ==> !IsSpace(s[n]))
    ensures TrimStart(s) == s[n..]
  {
    if n > 0 {
      assert s[0] == s[..n][0];
      assert forall i | 0 <= i < n - 1 :: s[1..][i] == s[i+1] && s[..n][i+1] == s[i+1];
      TrimStartIs(s[1..], n - 1);
    }
  }

  lemma StartLower(s: string)
    ensures TrimStart(Lower(s)) == Lower(TrimStart(s))
  {
    var t, l := TrimStart(s), Lower(s);
    var n := |s| - |t|;
    StartDropped(s);
    LowerBlank(s, n);
    if n < |s| {
      assert s[n] == t[0];
      SpaceLower(s[n]);
    }
    TrimStartIs(l, n);
    assert l[n..] == Lower(t);
  }

  lemma LowerBlank(s: string, n: nat)
    requires n <= |s| && Blank(s[..n])
    ensures Blank(Lower(s)[..n])
  {
    forall i | 0 <= i < n ensures IsSpace(Lower(s)[..n][i]) {
      assert s[..n][i] == s[i];
      SpaceLower(s[i]);
    }
  }

  lemma {:induction false} EndLower(s: string)
    ensures TrimEnd(Lower(s)) == Lower(TrimEnd(s))
  {
    if s != "" && IsSpace(s[|s|-1]) {
      assert Lower(s)[..|s|-1] == Lower(s[..|s|-1]);
      EndLower(s[..|s|-1]);
    }
  }

  lemma {:induction false} PlainMime(s: string)
    requires s != "" && ';' !in s && !IsSpace(s[0]) && !IsSpace(s[|s|-1]) && Lower(s) == s
    ensures BaseMime(s) == s
  {
    NothingToCut(s, ';');
    TrimFixed(s);
  }

  lemma {:induction false} NothingToCut(s: string, c: char)
    requires c !in s
    ensures UpTo(s, c) == s
  {
    if s != "" {
      assert s[0] in s;
      assert forall d | d in s[1..] :: d in s;
      NothingToCut(s[1..], c);
    }
  }
}
