/**
 * Grounding a turn that holds voice notes (src/routing/voiceTranscript.ts:
 * groundVoiceTurn, isAudioMessage, isAudioFile). The transcriber may answer
 * anything, answer nothing, or throw.
 */
module Voice {
  import opened Common
  import opened JsText
  import opened MimeTypes

  const TRANSCRIPT_MAX_CHARS := 8_000
  const AUDIO_PREFIX := "audio/"

  /** A message of the turn: its kind, whether its media is ready, and the media's type. */
  datatype Message = Message(isAudioKind: bool, ready: bool, mime: string)

  predicate AudioMime(mime: string) {
    var m := BaseMime(mime);
    |m| >= |AUDIO_PREFIX| && m[..|AUDIO_PREFIX|] == AUDIO_PREFIX
  }

  lemma PrefixIff(s: string, p: string)
    ensures |s| >= |p| && s[..|p|] == p <==> p <= s
  {
  }

  lemma AudioMimeIff(mime: string)
    ensures AudioMime(mime) <==> AUDIO_PREFIX <= BaseMime(mime)
    ensures AUDIO_PREFIX == "audio/"
  {
    PrefixIff(BaseMime(mime), AUDIO_PREFIX);
  }

  predicate IsAudioFile(f: File) {
    AudioMime(f.mimeType)
  }

  predicate IsAudioMessage(m: Message) {
    m.isAudioKind || AudioMime(m.mime)
  }

  /** The two tests and the slot of an answer, passed along so that the alignment below does not
      depend on MIME syntax or on white space. */
  datatype Audio = Audio(file: File -> bool, message: Message -> bool, slot: Option<string> -> Option<string>)

  function ByMime(): Audio {
    Audio(IsAudioFile, IsAudioMessage, Slot)
  }

  lemma ByMimeMeans(m: Message, f: File)
    ensures ByMime().message(m) <==> m.isAudioKind || AUDIO_PREFIX <= BaseMime(m.mime)
    ensures ByMime().file(f) <==> AUDIO_PREFIX <= BaseMime(f.mimeType)
  {
    AudioMimeIff(m.mime);
    AudioMimeIff(f.mimeType);
  }

  // ------------------------------------------------------------------
  // Which message carries which file
  // ------------------------------------------------------------------

  /** Ready messages take the files in order. */
  function Ready(messages: seq<Message>): (n: nat)
    ensures n <= |messages|
  {
    if messages == [] then 0
    else Ready(messages[..|messages|-1]) + if messages[|messages|-1].ready then 1 else 0
  }

  /** The file a message carries when those before it are `before`. */
  function FileOf(before: seq<Message>, m: Message, files: seq<File>): Option<File> {
    if m.ready && Ready(before) < |files| then Some(files[Ready(before)]) else None
  }

  /** The message that carries file j is an audio message. */
  predicate AudioCarries(a: Audio, messages: seq<Message>, j: nat) {
    messages != [] &&
    var before, m := messages[..|messages|-1], messages[|messages|-1];
    if m.ready && Ready(before) == j then a.message(m) else AudioCarries(a, before, j)
  }

  /** The message itself or the file it carries is audio. */
  predicate Audible(a: Audio, before: seq<Message>, m: Message, files: seq<File>) {
    a.message(m) || (FileOf(before, m, files).Some? && a.file(FileOf(before, m, files).value))
  }

  function AudibleCount(a: Audio, messages: seq<Message>, files: seq<File>): nat {
    if messages == [] then 0
    else
      var before, m := messages[..|messages|-1], messages[|messages|-1];
      AudibleCount(a, before, files) + if Audible(a, before, m, files) then 1 else 0
  }

  function AudioFiles(a: Audio, files: seq<File>): nat {
    if files == [] then 0 else AudioFiles(a, files[..|files|-1]) + if a.file(files[|files|-1]) then 1 else 0
  }

  /** Files no message carries. */
  function Trailing(messages: seq<Message>, files: seq<File>): seq<File> {
    if Ready(messages) <= |files| then files[Ready(messages)..] else []
  }

  predicate Keeps(a: Audio, messages: seq<Message>, files: seq<File>, j: nat)
    requires j < |files|
  {
    !a.file(files[j]) && !AudioCarries(a, messages, j)
  }

  /** The files among the first n that survive, in input order. */
  function Kept(a: Audio, messages: seq<Message>, files: seq<File>, n: nat): seq<File>
    requires n <= |files|
  {
    if n == 0 then []
    else Kept(a, messages, files, n - 1) + if Keeps(a, messages, files, n - 1) then [files[n-1]] else []
  }

  lemma {:induction false} KeptHasNoAudio(a: Audio, messages: seq<Message>, files: seq<File>, n: nat)
    requires n <= |files|
    ensures forall i | 0 <= i < |Kept(a, messages, files, n)| :: !a.file(Kept(a, messages, files, n)[i])
    ensures |Kept(a, messages, files, n)| <= n
  {
    if n > 0 { KeptHasNoAudio(a, messages, files, n - 1); }
  }

  lemma {:induction false} CarriedBelowReady(a: Audio, messages: seq<Message>, j: nat)
    requires AudioCarries(a, messages, j)
    ensures j < Ready(messages)
  {
    var before, m := messages[..|messages|-1], messages[|messages|-1];
    if !(m.ready && Ready(before) == j) { CarriedBelowReady(a, before, j); }
  }

  /** One more message decides only about the file it carries. */
  lemma {:induction false} NextMessageKeeps(a: Audio, before: seq<Message>, m: Message, files: seq<File>, n: nat)
    requires n <= |files| && n <= Ready(before)
    ensures Kept(a, before + [m], files, n) == Kept(a, before, files, n)
  {
    assert (before + [m])[..|before|] == before;
    if n > 0 { NextMessageKeeps(a, before, m, files, n - 1); }
  }

  function Least(a: nat, b: nat): nat { if a <= b then a else b }

  lemma StepReady(a: Audio, before: seq<Message>, m: Message, files: seq<File>)
    ensures Ready(before + [m]) == Ready(before) + if m.ready then 1 else 0
    ensures AudibleCount(a, before + [m], files) == AudibleCount(a, before, files) + if Audible(a, before, m, files) then 1 else 0
    ensures Kept(a, before + [m], files, Least(Ready(before + [m]), |files|))
         == Kept(a, before, files, Least(Ready(before), |files|))
            + if FileOf(before, m, files).Some? && !Audible(a, before, m, files) then [FileOf(before, m, files).value] else []
  {
    assert (before + [m])[..|before|] == before;
    NextMessageKeeps(a, before, m, files, Least(Ready(before), |files|));
  }

  lemma TrailingKeeps(a: Audio, messages: seq<Message>, files: seq<File>, j: nat)
    requires Ready(messages) <= j < |files|
    ensures Keeps(a, messages, files, j) <==> !a.file(files[j])
  {
    if AudioCarries(a, messages, j) { CarriedBelowReady(a, messages, j); }
  }

  // ------------------------------------------------------------------
  // Nothing audible: nothing changes
  // ------------------------------------------------------------------

  lemma {:induction false} SilentCarriesNothing(a: Audio, messages: seq<Message>, files: seq<File>, j: nat)
    requires AudibleCount(a, messages, files) == 0
    ensures !AudioCarries(a, messages, j)
  {
    if messages != [] { SilentCarriesNothing(a, messages[..|messages|-1], files, j); }
  }

  lemma {:induction false} SilentFile(a: Audio, messages: seq<Message>, files: seq<File>, j: nat)
    requires AudibleCount(a, messages, files) == 0 && j < |files| && j < Ready(messages)
    ensures !a.file(files[j])
  {
    var before, m := messages[..|messages|-1], messages[|messages|-1];
    if !(m.ready && Ready(before) == j) { SilentFile(a, before, files, j); }
  }

  lemma {:induction false} NoAudioFile(a: Audio, files: seq<File>, j: nat)
    requires AudioFiles(a, files) == 0 && j < |files|
    ensures !a.file(files[j])
  {
    if j < |files| - 1 { NoAudioFile(a, files[..|files|-1], j); }
  }

  lemma {:induction false} SilentKeepsAll(a: Audio, messages: seq<Message>, files: seq<File>, n: nat)
    requires AudibleCount(a, messages, files) == 0 && AudioFiles(a, Trailing(messages, files)) == 0 && n <= |files|
    ensures Kept(a, messages, files, n) == files[..n]
  {
    if n > 0 {
      SilentKeepsAll(a, messages, files, n - 1);
      SilentCarriesNothing(a, messages, files, n - 1);
      if n - 1 < Ready(messages) {
        SilentFile(a, messages, files, n - 1);
      } else {
        NoAudioFile(a, Trailing(messages, files), n - 1 - Ready(messages));
      }
      assert files[..n] == files[..n-1] + [files[n-1]];
    }
  }

  // ------------------------------------------------------------------
  // The method
  // ------------------------------------------------------------------

  datatype Grounding = Grounding(files: seq<File>, transcripts: seq<Option<string>>, voice: bool, transcriptReady: bool, voiceOnly: bool)

  predicate Spoken(t: Option<string>) {
    t.Some? && Trim(t.value) != ""
  }

  // ------------------------------------------------------------------
  // What was heard
  // ------------------------------------------------------------------

  /** `replace(/\s+/g, " ")` */
  function OneSpaced(s: string): string {
    if s == "" then ""
    else if !IsSpace(s[0]) then [s[0]] + OneSpaced(s[1..])
    else if |s| > 1 && IsSpace(s[1]) then OneSpaced(s[1..])
    else " " + OneSpaced(s[1..])
  }

  /** The characters of a text that are no white space, in order. */
  function Solid(s: string): string {
    if s == "" then "" else (if IsSpace(s[0]) then "" else [s[0]]) + Solid(s[1..])
  }

  lemma {:induction false} SolidBoth(s: string, t: string)
    ensures Solid(s + t) == Solid(s) + Solid(t)
  {
    if s == "" {
      assert s + t == t;
    } else {
      assert (s + t)[1..] == s[1..] + t;
      SolidBoth(s[1..], t);
    }
  }

  lemma {:induction false} BlankIff(s: string)
    ensures Solid(s) == "" <==> Blank(s)
  {
    if s != "" {
      BlankIff(s[1..]);
      assert Blank(s) <==> IsSpace(s[0]) && Blank(s[1..]) by {
        if IsSpace(s[0]) && Blank(s[1..]) {
          assert forall i | 1 <= i < |s| :: s[i] == s[1..][i-1];
        }
        if Blank(s) {
          assert forall i | 0 <= i < |s| - 1 :: s[1..][i] == s[i+1];
        }
      }
    }
  }

  lemma {:induction false} OneSpacedKeeps(s: string)
    ensures Solid(OneSpaced(s)) == Solid(s)
  {
    if s != "" {
      OneSpacedKeeps(s[1..]);
      var head := if IsSpace(s[0]) then " " else [s[0]];
      assert head[1..] == "";
      SolidBoth(head, OneSpaced(s[1..]));
    }
  }

  predicate NoSpace(s: string) {
    forall i | 0 <= i < |s| :: !IsSpace(s[i])
  }

  /** A run of white space becomes one space, and what is no white space stays. */
  lemma {:induction false} OneSpacedRun(s: string)
    ensures s != "" && Blank(s) ==> OneSpaced(s) == " "
    ensures NoSpace(s) ==> OneSpaced(s) == s
  {
    if s != "" {
      OneSpacedRun(s[1..]);
      if |s| > 1 { assert s[1..][0] == s[1]; }
      if Blank(s) { assert Blank(s[1..]); }
      if NoSpace(s) { assert NoSpace(s[1..]) && s == [s[0]] + s[1..]; }
    }
  }

  /** A text cut anywhere but inside a run of white space is evened out piece by piece. */
  lemma {:induction false} OneSpacedBoth(a: string, b: string)
    requires a == "" || b == "" || !IsSpace(a[|a|-1]) || !IsSpace(b[0])
    ensures OneSpaced(a + b) == OneSpaced(a) + OneSpaced(b)
  {
    if a == "" {
      assert a + b == b;
    } else if b == "" {
      assert a + b == a;
    } else {
      OneSpacedBoth(a[1..], b);
      HeadOfBoth(a, b);
    }
  }

  lemma HeadOfBoth(a: string, b: string)
    requires a != "" && b != ""
    ensures (a + b)[0] == a[0] && (a + b)[1..] == a[1..] + b && (a + b)[1] == if |a| > 1 then a[1] else b[0]
  {
  }

  lemma Parts(s: string, i: nat, j: nat)
    requires i <= j <= |s|
    ensures s == s[..i] + (s[i..j] + s[j..])
  {
  }

  lemma BlankEnds(a: string, b: string, c: string)
    requires Blank(a) && Blank(c)
    ensures Solid(a + (b + c)) == Solid(b)
  {
    SolidBoth(a, b + c);
    SolidBoth(b, c);
    BlankIff(a);
    BlankIff(c);
  }

  lemma TrimKeeps(s: string)
    ensures Solid(Trim(s)) == Solid(s)
  {
    var i, j := TrimMeans(s);
    Parts(s, i, j);
    BlankEnds(s[..i], s[i..j], s[j..]);
  }

  /** The slot of a transcriber's answer (None where it threw or gave nothing): white space
      evened out, cut to length, None where nothing is left. */
  function Slot(text: Option<string>): Option<string> {
    if text.None? then None else Cut(Trim(OneSpaced(text.value)))
  }

  function Cut(words: string): Option<string> {
    if words == "" then None
    else Some(if |words| <= TRANSCRIPT_MAX_CHARS then words else words[..TRANSCRIPT_MAX_CHARS])
  }

  lemma CutMeans(words: string, text: string)
    requires Solid(words) == Solid(text) && (Solid(words) == "" <==> words == "")
    ensures Cut(words).None? <==> Solid(text) == ""
    ensures Cut(words).Some? ==> 0 < |Cut(words).value| <= 8000
    ensures Cut(words).Some? && |Cut(words).value| < 8000 ==> Solid(Cut(words).value) == Solid(text)
  {
  }

  /** A slot is empty exactly when nothing but white space was heard, is at most 8000 characters
      long, and below that length has every character that was heard, in order. */
  lemma SlotMeans(text: string)
    ensures Slot(Some(text)).None? <==> Blank(text)
    ensures Slot(Some(text)).Some? ==> 0 < |Slot(Some(text)).value| <= 8000
    ensures Slot(Some(text)).Some? && |Slot(Some(text)).value| < 8000 ==> Solid(Slot(Some(text)).value) == Solid(text)
  {
    OneSpacedKeeps(text);
    TrimKeeps(OneSpaced(text));
    BlankIff(text);
    TrimmedIsSolid(OneSpaced(text));
    CutMeans(Trim(OneSpaced(text)), text);
  }

  lemma TrimmedIsSolid(s: string)
    ensures Solid(Trim(s)) == "" <==> Trim(s) == ""
  {
    var i, j := TrimMeans(s);
  }

  /** One slot per audible message; `hear(j)` is what the transcriber answers about file j. */
  function Slots(a: Audio, hear: nat -> Option<string>, messages: seq<Message>, files: seq<File>): (r: seq<Option<string>>)
    ensures |r| == AudibleCount(a, messages, files)
  {
    if messages == [] then []
    else
      var before, m := messages[..|messages|-1], messages[|messages|-1];
      Slots(a, hear, before, files) + NextSlot(a, hear, before, m, files)
  }

  /** An audible message that carries no audio file was not heard. */
  function NextSlot(a: Audio, hear: nat -> Option<string>, before: seq<Message>, m: Message, files: seq<File>): seq<Option<string>> {
    if !Audible(a, before, m, files) then []
    else
      var f := FileOf(before, m, files);
      [if f.Some? && a.file(f.value) then a.slot(hear(Ready(before))) else None]
  }

  /** One slot per audio file from `start` to n. */
  function TrailingSlots(a: Audio, hear: nat -> Option<string>, files: seq<File>, start: nat, n: nat): seq<Option<string>>
    requires n <= |files|
  {
    if n <= start then []
    else TrailingSlots(a, hear, files, start, n - 1) + if a.file(files[n-1]) then [a.slot(hear(n - 1))] else []
  }

  lemma {:induction false} TrailingSlotCount(a: Audio, hear: nat -> Option<string>, files: seq<File>, start: nat, n: nat)
    requires start <= n <= |files|
    ensures |TrailingSlots(a, hear, files, start, n)| == AudioFiles(a, files[start..n])
  {
    if start < n {
      TrailingSlotCount(a, hear, files, start, n - 1);
      assert files[start..n][..n-start-1] == files[start..n-1];
    }
  }

  lemma StepTrailing(a: Audio, hear: nat -> Option<string>, messages: seq<Message>, files: seq<File>, start: nat, i: nat)
    requires start == Ready(messages) && start <= i < |files|
    ensures TrailingSlots(a, hear, files, start, i + 1)
         == TrailingSlots(a, hear, files, start, i) + if a.file(files[i]) then [a.slot(hear(i))] else []
    ensures Kept(a, messages, files, i + 1) == Kept(a, messages, files, i) + if a.file(files[i]) then [] else [files[i]]
  {
    TrailingKeeps(a, messages, files, i);
  }

  lemma StepSlots(a: Audio, hear: nat -> Option<string>, before: seq<Message>, m: Message, files: seq<File>)
    ensures Slots(a, hear, before + [m], files) == Slots(a, hear, before, files) + NextSlot(a, hear, before, m, files)
  {
    assert (before + [m])[..|before|] == before;
  }

  method GroundMessages(a: Audio, hear: nat -> Option<string>, messages: seq<Message>, files: seq<File>)
    returns (fileIdx: nat, kept: seq<File>, transcripts: seq<Option<string>>, voice: bool)
    ensures fileIdx == Ready(messages)
    ensures kept == Kept(a, messages, files, Least(fileIdx, |files|))
    ensures transcripts == Slots(a, hear, messages, files) && (voice <==> transcripts != [])
  {
    fileIdx, kept, transcripts, voice := 0, [], [], false;
    for i := 0 to |messages|
      invariant fileIdx == Ready(messages[..i])
      invariant kept == Kept(a, messages[..i], files, Least(fileIdx, |files|))
      invariant transcripts == Slots(a, hear, messages[..i], files) && (voice <==> transcripts != [])
    {
      var msg := messages[i];
      StepReady(a, messages[..i], msg, files);
      StepSlots(a, hear, messages[..i], msg, files);
      assert messages[..i+1] == messages[..i] + [msg];
      var at := fileIdx;
      var file: Option<File> := None;
      if msg.ready {
        if fileIdx < |files| { file := Some(files[fileIdx]); }
        fileIdx := fileIdx + 1;
      }
      var audio := a.message(msg) || (file.Some? && a.file(file.value));
      if !audio {
        if file.Some? { kept := kept + [file.value]; }
        continue;
      }
      voice := true;
      if file.Some? && a.file(file.value) {
        transcripts := transcripts + [a.slot(hear(at))];
      } else {
        transcripts := transcripts + [None];
      }
    }
    assert messages[..|messages|] == messages;
  }

  method GroundTrailing(a: Audio, hear: nat -> Option<string>, messages: seq<Message>, files: seq<File>, start: nat,
                        kept0: seq<File>, transcripts0: seq<Option<string>>)
    returns (kept: seq<File>, transcripts: seq<Option<string>>)
    requires start == Ready(messages) && kept0 == Kept(a, messages, files, Least(start, |files|))
    ensures kept == Kept(a, messages, files, |files|)
    ensures transcripts == transcripts0 + TrailingSlots(a, hear, files, start, |files|)
  {
    kept, transcripts := kept0, transcripts0;
    var fileIdx := start;
    while fileIdx < |files|
      invariant start <= fileIdx && (start <= |files| ==> fileIdx <= |files|)
      invariant kept == Kept(a, messages, files, Least(fileIdx, |files|))
      invariant transcripts == transcripts0 + TrailingSlots(a, hear, files, start, Least(fileIdx, |files|))
    {
      var file := files[fileIdx];
      StepTrailing(a, hear, messages, files, start, fileIdx);
      if a.file(file) {
        transcripts := transcripts + [a.slot(hear(fileIdx))];
      } else {
        kept := kept + [file];
      }
      fileIdx := fileIdx + 1;
    }
  }

  lemma SilentTurn(a: Audio, hear: nat -> Option<string>, messages: seq<Message>, files: seq<File>)
    requires Slots(a, hear, messages, files) + TrailingSlots(a, hear, files, Ready(messages), |files|) == []
    ensures Kept(a, messages, files, |files|) == files
    ensures messages != [] ==> !a.message(messages[|messages|-1])
  {
    var start := Ready(messages);
    assert Slots(a, hear, messages, files) == [] && TrailingSlots(a, hear, files, start, |files|) == [];
    if start <= |files| {
      TrailingSlotCount(a, hear, files, start, |files|);
      assert files[start..|files|] == files[start..] == Trailing(messages, files);
    }
    SilentKeepsAll(a, messages, files, |files|);
    assert files[..|files|] == files;
  }

  /** No audio file is in the output; kept files are exactly the non-audio files no audio
      message carries, in input order; one transcript slot per audible message and per
      trailing audio file, with what was heard of its file; with nothing audible the files come
      back unchanged. */
  method GroundVoiceTurn(hear: nat -> Option<string>, messages: seq<Message>, files: seq<File>) returns (g: Grounding)
    ensures g.files == Kept(ByMime(), messages, files, |files|)
    ensures forall i | 0 <= i < |g.files| :: !IsAudioFile(g.files[i])
    ensures g.transcripts == Slots(ByMime(), hear, messages, files)
                             + TrailingSlots(ByMime(), hear, files, Ready(messages), |files|)
    ensures g.voice <==> g.transcripts != []
    ensures !g.voice ==> g.files == files && !g.transcriptReady
    ensures g.transcriptReady <==> exists i | 0 <= i < |g.transcripts| :: Spoken(g.transcripts[i])
    ensures g.voiceOnly <==> messages != [] && forall i | 0 <= i < |messages| :: IsAudioMessage(messages[i])
  {
    var fileIdx, kept, transcripts, voice := GroundMessages(ByMime(), hear, messages, files);
    kept, transcripts := GroundTrailing(ByMime(), hear, messages, files, fileIdx, kept, transcripts);
    voice := voice || transcripts != [];
    var voiceOnly := messages != [] && forall i | 0 <= i < |messages| :: IsAudioMessage(messages[i]);
    KeptHasNoAudio(ByMime(), messages, files, |files|);
    if !voice {
      SilentTurn(ByMime(), hear, messages, files);
      return Grounding(files, [], false, false, false);
    }
    var transcriptReady := exists i | 0 <= i < |transcripts| :: Spoken(transcripts[i]);
    g := Grounding(kept, transcripts, true, transcriptReady, voiceOnly);
  }
}
