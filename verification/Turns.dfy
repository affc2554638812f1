/**
 * What a batch of messages says and whom it calls (src/routing/inboundRouter.ts:
 * processBatch, destination, identity, groundBatch): the decisions of a turn as
 * values, and what a finished turn has to account for.
 */
module Turns {
  import opened Common
  import opened ChatBots
  import opened Lanes
  import opened Claims
  import opened JsText
  import opened Replays
  import Logs = OutboundLogs
  import MediaFiles
  import MimeTypes
  import Store = MessageStores
  import Voice

  const STAGED_UPLOAD_BUDGET_BYTES := 4 * 1024 * 1024

  /** `query` is promptQlQuery: None for a message with nothing to post; `file` is the upload
      made of its media once that is ready, normalised. */
  datatype Inbound = Inbound(
    id: string,
    fromMe: bool,
    mentionsSelf: bool,
    query: Option<string>,
    file: Option<File>,
    isAudioKind: bool,
    mediaMime: string
  )

  /** The text and files a turn is posted with once voice notes were grounded; `hold` says an
      untranscribed voice note is all there is. */
  datatype Grounded = Grounded(query: string, files: seq<File>, transcripts: seq<Option<string>>, hold: bool)

  /** How messages are worded for the agent, left uninterpreted. */
  datatype Wording = Wording(envelope: seq<Inbound> -> string, merge: (string, seq<Option<string>>) -> string,
                             paPrompt: string -> string, opening: nat -> string, closing: string,
                             replay: Store.Row -> Option<Replay>)

  function Queries(valid: seq<Inbound>): seq<string> {
    if valid == [] then []
    else (if valid[0].query.Some? then [valid[0].query.value] else []) + Queries(valid[1..])
  }

  /** Each message says its query, in order. */
  lemma {:induction false} QueriesAre(valid: seq<Inbound>, i: nat)
    requires i < |valid| && forall m | m in valid :: m.query.Some?
    ensures |Queries(valid)| == |valid| && Queries(valid)[i] == valid[i].query.value
    decreases |valid|
  {
    assert valid[0] in valid;
    assert forall m | m in valid[1..] :: m in valid;
    if |valid| > 1 { QueriesAre(valid[1..], if i > 0 then i - 1 else 0); }
  }

  /** The ready media of all messages, in order. */
  function ReadyFiles(valid: seq<Inbound>): seq<File> {
    if valid == [] then [] else ReadyFiles(valid[..|valid|-1]) + FileList(valid[|valid|-1])
  }

  function FileList(m: Inbound): seq<File> {
    if m.file.Some? then [m.file.value] else []
  }

  function Note(m: Inbound): Voice.Message {
    Voice.Message(m.isAudioKind, m.file.Some?, m.mediaMime)
  }

  function Notes(valid: seq<Inbound>): (r: seq<Voice.Message>)
    ensures |r| == |valid|
  {
    if valid == [] then [] else Notes(valid[..|valid|-1]) + [Note(valid[|valid|-1])]
  }

  /** A message whose file goes to the agent: neither it nor the file is audio. */
  predicate Plain(a: Voice.Audio, m: Inbound) {
    m.file.Some? && !a.message(Note(m)) && !a.file(m.file.value)
  }

  /** The files of all messages that are no voice notes, in order. */
  function PlainFiles(a: Voice.Audio, valid: seq<Inbound>): seq<File> {
    if valid == [] then []
    else
      var m := valid[|valid|-1];
      PlainFiles(a, valid[..|valid|-1]) + if Plain(a, m) then FileList(m) else []
  }

  lemma {:induction false} EachReadyHasAFile(valid: seq<Inbound>)
    ensures Voice.Ready(Notes(valid)) == |ReadyFiles(valid)|
  {
    if valid != [] {
      EachReadyHasAFile(valid[..|valid|-1]);
      OneMoreReady(Notes(valid[..|valid|-1]), Note(valid[|valid|-1]));
    }
  }

  lemma OneMoreReady(before: seq<Voice.Message>, m: Voice.Message)
    ensures Voice.Ready(before + [m]) == Voice.Ready(before) + if m.ready then 1 else 0
  {
    assert (before + [m])[..|before|] == before;
  }

  lemma {:induction false} KeptOfPrefix(a: Voice.Audio, notes: seq<Voice.Message>, files: seq<File>, more: seq<File>, n: nat)
    requires n <= |files|
    ensures Voice.Kept(a, notes, files + more, n) == Voice.Kept(a, notes, files, n)
  {
    if n > 0 {
      KeptOfPrefix(a, notes, files, more, n - 1);
      assert (files + more)[n-1] == files[n-1];
    }
  }

  /** The alignment by position keeps exactly the files of the messages that are no voice notes. */
  lemma {:induction false} GroundingKeepsPlain(a: Voice.Audio, valid: seq<Inbound>)
    ensures var files := ReadyFiles(valid); Voice.Kept(a, Notes(valid), files, |files|) == PlainFiles(a, valid)
  {
    if valid != [] {
      var front, m := valid[..|valid|-1], valid[|valid|-1];
      var before, files := Notes(front), ReadyFiles(front);
      GroundingKeepsPlain(a, front);
      EachReadyHasAFile(front);
      EachReadyHasAFile(valid);
      Voice.StepReady(a, before, Note(m), files + FileList(m));
      KeptOfPrefix(a, before, files, FileList(m), |files|);
    }
  }

  /** The message or its file is audio. */
  predicate IsVoice(a: Voice.Audio, m: Inbound) {
    a.message(Note(m)) || (m.file.Some? && a.file(m.file.value))
  }

  /** A voice note by its kind, by the type of its media, or by the type of its file; parameters of
      a type do not count. */
  lemma IsVoiceMeans(m: Inbound)
    ensures IsVoice(Voice.ByMime(), m) <==>
              || m.isAudioKind || Voice.AUDIO_PREFIX <= MimeTypes.BaseMime(m.mediaMime)
              || (m.file.Some? && Voice.AUDIO_PREFIX <= MimeTypes.BaseMime(m.file.value.mimeType))
  {
    var none := File("", "", "");
    Voice.ByMimeMeans(Note(m), if m.file.Some? then m.file.value else none);
  }

  /** What was heard of each voice note, in order; `hear(j)` answers about the turn's j-th file. */
  function HeardOf(a: Voice.Audio, hear: nat -> Option<string>, valid: seq<Inbound>): seq<Option<string>> {
    if valid == [] then []
    else
      var front, m := valid[..|valid|-1], valid[|valid|-1];
      HeardOf(a, hear, front)
      + if !IsVoice(a, m) then []
        else if m.file.Some? && a.file(m.file.value) then [a.slot(hear(|ReadyFiles(front)|))]
        else [None]
  }

  lemma {:induction false} SlotsOfPrefix(a: Voice.Audio, hear: nat -> Option<string>, notes: seq<Voice.Message>, files: seq<File>, more: seq<File>)
    requires Voice.Ready(notes) <= |files|
    ensures Voice.Slots(a, hear, notes, files + more) == Voice.Slots(a, hear, notes, files)
  {
    if notes != [] {
      var before, m := notes[..|notes|-1], notes[|notes|-1];
      SlotsOfPrefix(a, hear, before, files, more);
      assert Voice.FileOf(before, m, files + more) == Voice.FileOf(before, m, files);
    }
  }

  /** Each voice note's slot has what was heard of its own file. */
  lemma {:induction false} GroundingHears(a: Voice.Audio, hear: nat -> Option<string>, valid: seq<Inbound>)
    ensures Voice.Slots(a, hear, Notes(valid), ReadyFiles(valid)) == HeardOf(a, hear, valid)
  {
    if valid != [] {
      var front, m := valid[..|valid|-1], valid[|valid|-1];
      var before, files := Notes(front), ReadyFiles(front);
      GroundingHears(a, hear, front);
      EachReadyHasAFile(front);
      SlotsOfPrefix(a, hear, before, files, FileList(m));
      Voice.StepSlots(a, hear, before, Note(m), files + FileList(m));
      assert Voice.FileOf(before, Note(m), files + FileList(m)) == m.file;
    }
  }

  /** What the messages say before grounding: every valid message, claimed or not. */
  function RawQuery(w: Wording, identity: Identity, valid: seq<Inbound>): string {
    if identity.Client? then w.envelope(valid) else JoinLines(Queries(valid))
  }

  predicate NothingHeard(transcripts: seq<Option<string>>) {
    transcripts != [] && forall i | 0 <= i < |transcripts| :: !Voice.Spoken(transcripts[i])
  }

  predicate AllAudio(a: Voice.Audio, notes: seq<Voice.Message>) {
    notes != [] && forall i | 0 <= i < |notes| :: a.message(notes[i])
  }

  /** `said` is what the batch says: all its text, with a slot for each voice note merged in, and
      the file of every message that is no voice note. A turn is held exactly when there are
      voice notes only and nothing was heard. */
  ghost predicate Says(a: Voice.Audio, hear: nat -> Option<string>, w: Wording, identity: Identity, valid: seq<Inbound>, said: Grounded) {
    && said.files == PlainFiles(a, valid)
    && said.transcripts == HeardOf(a, hear, valid)
    && (var raw := if identity.Client? then w.envelope(valid) else JoinLines(Queries(valid));
        said.query == if said.transcripts == [] then raw else w.merge(raw, said.transcripts))
    && (said.hold <==> NothingHeard(said.transcripts) && AllAudio(a, Notes(valid)))
  }

  /** What grounding gives is what the batch says. */
  lemma GroundedSays(a: Voice.Audio, hear: nat -> Option<string>, w: Wording, identity: Identity, valid: seq<Inbound>, g: Voice.Grounding)
    requires g.files == Voice.Kept(a, Notes(valid), ReadyFiles(valid), |ReadyFiles(valid)|)
    requires g.transcripts == Voice.Slots(a, hear, Notes(valid), ReadyFiles(valid))
                              + Voice.TrailingSlots(a, hear, ReadyFiles(valid), Voice.Ready(Notes(valid)), |ReadyFiles(valid)|)
    requires g.voice <==> g.transcripts != []
    requires g.transcriptReady <==> exists i | 0 <= i < |g.transcripts| :: Voice.Spoken(g.transcripts[i])
    requires g.voiceOnly <==> AllAudio(a, Notes(valid))
    ensures var raw := RawQuery(w, identity, valid);
            Says(a, hear, w, identity, valid, Grounded(if g.voice then w.merge(raw, g.transcripts) else raw, g.files, g.transcripts,
                                                 g.voice && !g.transcriptReady && g.voiceOnly))
  {
    EachReadyHasAFile(valid);
    GroundingKeepsPlain(a, valid);
    GroundingHears(a, hear, valid);
  }

  function ImageCount(files: seq<File>): nat {
    if files == [] then 0 else (if IsImage(files[0]) then 1 else 0) + ImageCount(files[1..])
  }

  lemma {:induction false} ImagesAdd(a: seq<File>, b: seq<File>)
    ensures ImageCount(a + b) == ImageCount(a) + ImageCount(b)
  {
    if a == [] {
      assert a + b == b;
    } else {
      assert (a + b)[1..] == a[1..] + b;
      ImagesAdd(a[1..], b);
    }
  }

  lemma OneImage(f: File)
    ensures ImageCount([f]) ==
            var mime := MimeTypes.BaseMime(f.mimeType);
            if mime == "image/jpeg" || mime == "image/png" || mime == "image/webp" || mime == "image/gif" then 1 else 0
  {
    assert [f][1..] == [];
  }

  /** The valid messages keep their order. */
  lemma {:induction false} ValidsInOrder(a: seq<Inbound>, b: seq<Inbound>)
    ensures Valids(a + b) == Valids(a) + Valids(b)
  {
    if a == [] {
      assert a + b == b;
    } else {
      assert (a + b)[1..] == a[1..] + b;
      ValidsInOrder(a[1..], b);
    }
  }

  /** Each image re-encoded towards its share of the upload; other files with name and type tidied. */
  function Staged(files: seq<File>, e: Encoders): (r: seq<File>)
    ensures |r| == |files|
    ensures forall i | 0 <= i < |files| ::
              r[i] == if IsImage(files[i]) then e.stage(files[i], MediaFiles.PerImage(ImageCount(files), 4 * 1024 * 1024))
                      else e.normalize(files[i])
  {
    var share := MediaFiles.PerImage(ImageCount(files), STAGED_UPLOAD_BUDGET_BYTES);
    seq(|files|, i requires 0 <= i < |files| => if IsImage(files[i]) then e.stage(files[i], share) else e.normalize(files[i]))
  }

  /** The codecs of the upload: one image under a cap, a file that is none, and the ladder's last
      rung (see MediaFiles). */
  datatype Encoders = Encoders(stage: (File, nat) -> File, normalize: File -> File, shrink: File -> File)

  /** The ask of the turn got through as posts that deliver `said` whole, its staged files included. */
  ghost predicate Told(said: Grounded, identity: Identity, e: Encoders, asked: seq<Post>) {
    && (exists mode :: Delivered(asked, identity, said.query, mode))
    && var staged := Staged(said.files, e);
       && (Carries(asked, staged) || Carries(asked, Smaller(staged, e.shrink)))
       && Laddered(asked, staged, Smaller(staged, e.shrink), said.query)
  }

  /** How a batch ended: closed, or one claim handed to one dispatch, which waits for the answer on
      the thread it is given. */
  datatype Reply =
    | Closed
    | Greeting(identity: Identity, key: string, token: nat)
    | Dispatched(identity: Identity, key: string, token: nat, threadId: string)

  datatype Turn = Turn(dest: Destination, identity: Identity)

  /** What the shopper register, the group and the settings answer about a chat: the shopper it
      qualifies for, and the record of its stored owner. */
  datatype Lookups = Lookups(linkedMember: bool, candidate: Option<ShopperRecord>, stored: Option<ShopperRecord>,
                             commonRoom: Option<string>, relayUnregistered: bool)

  predicate HasOwner(row: Option<Bot>) {
    row.Some? && row.value.owner.Some?
  }

  function RoomOf(r: Option<ShopperRecord>): Option<string> {
    if r.Some? then Some(r.value.roomName) else None
  }

  /** Where a chat's room may come from, most specific first. */
  function RoomSources(row: Option<Bot>, l: Lookups): seq<Option<string>> {
    var kept := if row.Some? then row.value.roomName else None;
    if HasOwner(row) then [kept, RoomOf(l.stored), l.commonRoom] else [RoomOf(l.candidate), kept, l.commonRoom]
  }

  function FirstKnown(sources: seq<Option<string>>): Option<string> {
    if sources == [] then None else if sources[0].Some? then sources[0] else FirstKnown(sources[1..])
  }

  lemma FirstOfThree(a: Option<string>, b: Option<string>, c: Option<string>)
    ensures FirstKnown([a, b, c]) == if a.Some? then a else if b.Some? then b else c
  {
    assert [c][1..] == [];
    assert FirstKnown([c]) == c;
    assert [b, c][1..] == [c];
    assert FirstKnown([b, c]) == if b.Some? then b else c;
    assert [a, b, c][1..] == [b, c];
  }

  /** What a job reads outside its own state; each is read where the program reads it. */
  datatype World = World(lookups: Lookups, sender: Option<ShopperRecord>, setupComplete: bool, welcomeSent: bool,
                         pureGreeting: bool, running: bool, bareRetag: bool, unreadable: bool,
                         hear: nat -> Option<string>)

  /** The destination of a chat that is not dropped. */
  ghost predicate Placed(isGroup: bool, row: Option<Bot>, l: Lookups, dest: Destination) {
    && Some(dest.roomName) == FirstKnown(RoomSources(row, l))
    && (HasOwner(row) ==> dest.ownerId == row.value.owner && dest.owner == l.stored)
    && (!HasOwner(row) ==> dest.owner == l.candidate)
    && (dest.ownerId.None? <==> !HasOwner(row) && l.candidate.None?)
    && (!HasOwner(row) && l.candidate.Some? ==> dest.ownerId == Some(l.candidate.value.id))
    && (dest.qualified <==> isGroup && l.candidate.Some?)
  }

  /** A left or unlinked group, no room known, or nobody's chat while those are not relayed. */
  ghost predicate Homeless(isGroup: bool, absent: bool, row: Option<Bot>, l: Lookups) {
    || (isGroup && (absent || !l.linkedMember))
    || FirstKnown(RoomSources(row, l)).None?
    || (!HasOwner(row) && l.candidate.None? && !l.relayUnregistered)
  }

  datatype ClaimedMessage = ClaimedMessage(id: string, token: nat)

  /** All the claims, but the one of message `keep` if there is one, were closed with this write. */
  ghost predicate ClosedBut(closed: map<nat, Closing>, claimed: seq<ClaimedMessage>, keep: Option<string>,
                            connectionId: string, t: Logs.Terminal) {
    forall i | 0 <= i < |claimed| && keep != Some(claimed[i].id) ::
      claimed[i].token in closed && closed[claimed[i].token] == Closing(Logs.Key(connectionId, claimed[i].id), t)
  }

  lemma CloseOne(closed: map<nat, Closing>, claimed: seq<ClaimedMessage>, i: nat, keep: Option<string>,
                 connectionId: string, t: Logs.Terminal)
    requires DistinctClaims(claimed) && i < |claimed| && ClosedBut(closed, claimed[..i], keep, connectionId, t)
    ensures var c := claimed[i];
            ClosedBut(closed[c.token := Closing(Logs.Key(connectionId, c.id), t)], claimed[..i+1], keep, connectionId, t)
    ensures keep == Some(claimed[i].id) ==> ClosedBut(closed, claimed[..i+1], keep, connectionId, t)
  {
    forall k | 0 <= k < i ensures claimed[..i][k] == claimed[k] && claimed[k].token != claimed[i].token { }
  }

  lemma ClaimsAreOf(claimed: seq<ClaimedMessage>, batch: seq<Inbound>)
    requires DistinctClaims(claimed) && forall c | c in claimed :: exists m | m in Valids(batch) :: m.id == c.id
    ensures ClaimsOf(claimed, batch)
  {
    forall i | 0 <= i < |claimed| ensures HasMessage(batch, claimed[i].id) {
      assert claimed[i] in claimed;
      var m :| m in Valids(batch) && m.id == claimed[i].id;
      assert m in batch && m.query.Some?;
    }
  }

  /** Each claim is of a message that has something to post, and no two of one message. */
  ghost predicate ClaimsOf(claimed: seq<ClaimedMessage>, batch: seq<Inbound>) {
    DistinctClaims(claimed) && forall i | 0 <= i < |claimed| :: HasMessage(batch, claimed[i].id)
  }

  predicate HasMessage(batch: seq<Inbound>, id: string) {
    exists m | m in batch :: m.id == id && m.query.Some?
  }

  function Valids(batch: seq<Inbound>): (r: seq<Inbound>)
    ensures forall m :: m in r <==> m in batch && m.query.Some?
    ensures r == [] <==> forall m | m in batch :: m.query.None?
  {
    if batch == [] then []
    else (if batch[0].query.Some? then [batch[0]] else []) + Valids(batch[1..])
  }

  function TokensOf(claimed: seq<ClaimedMessage>): set<nat> {
    set c | c in claimed :: c.token
  }

  /** One claim per message, one message per token. */
  ghost predicate DistinctClaims(claimed: seq<ClaimedMessage>) {
    forall i, j | 0 <= i < j < |claimed| :: claimed[i].id != claimed[j].id && claimed[i].token != claimed[j].token
  }

  /** The claim of the message that triggered the reply, or the last claim of the batch. */
  function Primary(claimed: seq<ClaimedMessage>, triggering: string): (c: ClaimedMessage)
    requires claimed != []
    ensures c in claimed
    ensures (exists m | m in claimed :: m.id == triggering) ==> c.id == triggering
    ensures (forall m | m in claimed :: m.id != triggering) ==> c == claimed[|claimed|-1]
  {
    if claimed[0].id == triggering then claimed[0]
    else if |claimed| == 1 then claimed[0]
    else Primary(claimed[1..], triggering)
  }

  /** The last message that mentions the bot, or the last of the batch. */
  function Triggering(valid: seq<Inbound>, last: Inbound): Inbound {
    if valid == [] then last
    else if valid[|valid|-1].mentionsSelf then valid[|valid|-1]
    else Triggering(valid[..|valid|-1], last)
  }

  /** Indeed: nothing behind it mentions the bot, and it does unless nothing does. */
  lemma {:induction false} TriggeringIsLastMention(valid: seq<Inbound>, last: Inbound)
    ensures var t := Triggering(valid, last);
            || (t == last && forall i | 0 <= i < |valid| :: !valid[i].mentionsSelf)
            || exists k | 0 <= k < |valid| :: valid[k] == t && t.mentionsSelf && forall i | k < i < |valid| :: !valid[i].mentionsSelf
  {
    if valid != [] && !valid[|valid|-1].mentionsSelf {
      TriggeringIsLastMention(valid[..|valid|-1], last);
    }
  }

  /** The stored post as it is sent again: same text, name and thread, context only, no files. */
  predicate Resent(stored: Bot, p: Post) {
    && stored.pending.Some? && p.query == stored.pending.value.query && p.identity == stored.pending.value.identity
    && p.threadId == Some(stored.threadId) && p.mode == ForceSkip && p.files == []
  }

  /** A turn on its way: the special cases it met, and how many posts its own ask took. */
  datatype Course = Course(asked: bool, through: bool, greeting: bool, retag: bool, held: bool, askPosts: nat,
                           said: Grounded, paAsked: bool)

  const NOT_ASKED := Course(false, false, false, false, false, 0, Grounded("", [], [], false), false)

  /** Which turns ask the agent, which the assistant, and what comes back; `here` says the chat
      is still available at the end. */
  ghost predicate Ran(isGroup: bool, here: bool, first: Inbound, valid: seq<Inbound>, dest: Destination, identity: Identity,
                      w: World, reply: Reply, made: seq<Post>, c: Course)
  {
    // A shopper calls the agent in a direct chat by any message, in a group by a mention.
    var calls := identity.Shopper? && exists m | m in valid :: !m.fromMe && (!isGroup || m.mentionsSelf);
    // A client calls a shopper's assistant by a mention in that shopper's group.
    var callsPa := isGroup && identity.Client? && dest.qualified && dest.owner.Some? && dest.owner.value.enabled
                   && exists m | m in valid :: !m.fromMe && m.mentionsSelf;
    && (c.through ==> c.asked && 0 < c.askPosts <= |made| && made[c.askPosts-1].outcome.Accepted?)
    && (c.asked ==>
          && (c.greeting <==> !first.fromMe && !isGroup && identity.Shopper? && !w.welcomeSent && w.pureGreeting)
          && (c.retag <==> calls && !c.greeting && w.running && w.bareRetag)
          && (c.held <==> c.said.hold && (calls || callsPa) && !c.retag))
    && (c.through ==>
          && (made[c.askPosts-1].mode == ForceRespond <==> calls && !c.greeting && !c.retag && !c.held)
          && |made| == c.askPosts + (if c.paAsked then 1 else 0)
          && (c.paAsked ==> callsPa && !c.held && made[c.askPosts].identity == Pa(dest.owner.value.id) && made[c.askPosts].mode == ForceRespond)
          && (callsPa && !c.held && here ==> c.paAsked))
    && (c.paAsked ==> c.through)
    && (reply.Dispatched? <==>
          && c.through && here && !c.greeting && !c.retag && !c.held
          && (calls || (c.paAsked && made[c.askPosts].outcome.Accepted?)))
    && (reply.Greeting? <==> c.through && here && c.greeting && !c.held)
    && (!reply.Closed? ==> reply.identity == if c.paAsked then Pa(dest.owner.value.id) else identity)
  }

  function AfterAsk(more: seq<Post>, chatJid: string): Logs.Terminal {
    if more != [] && !more[0].outcome.Accepted? then Logs.MarkFailed else Logs.MarkRelayed(chatJid)
  }

  lemma AfterAskIsTerminal(asked: seq<Post>, more: seq<Post>, chatJid: string)
    requires asked != [] && asked[|asked|-1].outcome.Accepted? && |more| <= 1
    ensures TerminalOf(true, asked + more, chatJid) == AfterAsk(more, chatJid)
  {
    if more == [] { assert asked + more == asked; }
  }

  /** How the claims of a turn that ends without a reply are closed. */
  function TerminalOf(through: bool, made: seq<Post>, chatJid: string): Logs.Terminal {
    if through && made != [] && made[|made|-1].outcome.Accepted? then Logs.MarkRelayed(chatJid) else Logs.MarkFailed
  }

  /** The triggers of a turn and the special cases it meets. */
  datatype Flags = Flags(calls: bool, callsPa: bool, greets: bool, retag: bool, hold: bool)

  function ModeOf(f: Flags): Mode {
    if f.calls && !f.greets && !f.retag && !f.hold then ForceRespond else ForceSkip
  }

  function FlagsOf(isGroup: bool, first: Inbound, valid: seq<Inbound>, dest: Destination, identity: Identity, w: World, hold: bool): Flags {
    var shopperTrigger := ShopperTrigger(valid, isGroup, identity);
    var paTrigger := PaTrigger(valid, isGroup, identity, dest);
    var isFirstOperatorDM := !first.fromMe && !isGroup && identity.Shopper? && !w.welcomeSent;
    var isGreetingFirstDM := isFirstOperatorDM && w.pureGreeting;
    var retagOnly := shopperTrigger && !isGreetingFirstDM && w.running && w.bareRetag;
    Flags(shopperTrigger, paTrigger, isGreetingFirstDM, retagOnly, hold && (shopperTrigger || paTrigger) && !retagOnly)
  }

  lemma FlagsAreSound(isGroup: bool, first: Inbound, valid: seq<Inbound>, dest: Destination, identity: Identity, w: World, hold: bool)
    ensures Sound(FlagsOf(isGroup, first, valid, dest, identity, w, hold), dest, identity)
  {
  }

  predicate Sound(f: Flags, dest: Destination, identity: Identity) {
    && (f.calls || f.greets ==> identity.Shopper?) && (f.callsPa ==> dest.owner.Some? && identity.Client?)
    && (f.retag ==> f.calls && !f.greets)
  }

  /** The first n posts delivered what the batch says. */
  ghost predicate Asked(said: Grounded, identity: Identity, mode: Mode, e: Encoders, made: seq<Post>, n: nat) {
    && 0 < n <= |made| && made[n-1].outcome.Accepted? && made[n-1].mode == mode && Told(said, identity, e, made[..n])
  }

  /** What follows an ask that got through, in terms of the flags. */
  ghost predicate Answered(f: Flags, here: bool, dest: Destination, identity: Identity, reply: Reply, more: seq<Post>) {
    && |more| <= 1
    && (more != [] ==> f.callsPa && dest.owner.Some? && !f.hold && more[0].identity == Pa(dest.owner.value.id) && more[0].mode == ForceRespond)
    && (f.callsPa && !f.hold && here ==> more != [])
    && (reply.Dispatched? <==> here && !f.greets && !f.retag && !f.hold && (f.calls || (more != [] && more[0].outcome.Accepted?)))
    && (reply.Greeting? <==> here && f.greets && !f.hold)
    && (!reply.Closed? ==> reply.identity == if more != [] then Pa(dest.owner.value.id) else identity)
  }

  lemma BothParts<T>(a: seq<T>, b: seq<T>)
    ensures (a + b)[..|a|] == a && (a + b)[|a|..] == b
  {
  }

  lemma AskedFirst(said: Grounded, identity: Identity, mode: Mode, e: Encoders, asked: seq<Post>, more: seq<Post>)
    requires asked != [] && asked[|asked|-1].outcome.Accepted? && asked[|asked|-1].mode == mode && Told(said, identity, e, asked)
    ensures Asked(said, identity, mode, e, asked + more, |asked|) && (asked + more)[|asked|..] == more
  {
    BothParts(asked, more);
  }

  function CourseOf(f: Flags, said: Grounded, made: seq<Post>, n: nat, through: bool): Course {
    Course(true, through, f.greets, f.retag, f.hold, n, said, through && n < |made|)
  }

  /** The ask of a turn that got through says all that the batch says. */
  ghost predicate ToldOf(c: Course, identity: Identity, e: Encoders, made: seq<Post>) {
    c.through ==> c.askPosts <= |made| && Told(c.said, identity, e, made[..c.askPosts])
  }

  lemma NothingRan(isGroup: bool, here: bool, first: Inbound, valid: seq<Inbound>, dest: Destination, identity: Identity, w: World)
    ensures Ran(isGroup, here, first, valid, dest, identity, w, Closed, [], NOT_ASKED)
  {
  }

  lemma FlagsRan(isGroup: bool, here: bool, first: Inbound, valid: seq<Inbound>, dest: Destination, identity: Identity,
                 w: World, reply: Reply, made: seq<Post>, n: nat, through: bool, said: Grounded, e: Encoders)
    requires !identity.Pa?
    requires var f := FlagsOf(isGroup, first, valid, dest, identity, w, said.hold);
             && (through ==> Asked(said, identity, ModeOf(f), e, made, n))
             && (through ==> Answered(f, here, dest, identity, reply, made[n..]))
             && (!through ==> reply.Closed?)
    ensures var f := FlagsOf(isGroup, first, valid, dest, identity, w, said.hold);
            var c := CourseOf(f, said, made, n, through);
            && Ran(isGroup, here, first, valid, dest, identity, w, reply, made, c) && ToldOf(c, identity, e, made)
            && c.asked && c.said == said && c.through == through
  {
    if through && n < |made| {
      assert made[n..][0] == made[n];
    }
  }

  /** A batch that becomes a turn: not empty, with something to post, in a chat that has a
      place, and not a client's before the setup is complete. */
  ghost predicate Received(isGroup: bool, absent: bool, row: Option<Bot>, w: World, batch: seq<Inbound>, turn: Turn) {
    && batch != [] && (exists m | m in batch :: m.query.Some?)
    && !Homeless(isGroup, absent, row, w.lookups) && Placed(isGroup, row, w.lookups, turn.dest)
    && (turn.identity.Client? ==> w.setupComplete)
    && IsPoster(isGroup, batch[0], turn.dest, w.sender, turn.identity)
  }

  /** The owner posts the linked phone's own messages, the registered sender its own; the client
      the rest, and everything in a group that does not qualify. */
  predicate IsPoster(isGroup: bool, first: Inbound, dest: Destination, sender: Option<ShopperRecord>, identity: Identity) {
    var shopper := if first.fromMe then dest.owner else sender;
    && (identity.Client? <==> shopper.None? || (!first.fromMe && isGroup && !dest.qualified))
    && (!identity.Client? ==> identity == Identity.Shopper(shopper.value.id))
  }

  /** Why a batch is dropped while its chat stays available. */
  ghost predicate Unreceived(isGroup: bool, absent: bool, row: Option<Bot>, w: World, batch: seq<Inbound>, echoed: bool) {
    || batch == [] || echoed || (forall m | m in batch :: m.query.None?)
    || Homeless(isGroup, absent, row, w.lookups)
    || (!w.setupComplete && exists dest, identity ::
          Placed(isGroup, row, w.lookups, dest) && IsPoster(isGroup, batch[0], dest, w.sender, identity) && identity.Client?)
  }

  /** A dispatched batch triggered the agent exactly once, with its last post and in
      the name the reply is fetched under; a greeting was posted as context only. */
  ghost predicate TriggerCount(reply: Reply, made: seq<Post>) {
    match reply
    case Closed => true
    case Greeting(_, _, _) => OnlySkips(made)
    case Dispatched(identity, _, _, threadId) =>
      && made != [] && OnlySkips(made[..|made|-1])
      && var last := made[|made|-1];
         last.outcome == Accepted(threadId) && last.mode == ForceRespond && last.identity == identity
  }

  lemma DeliveredSkips(posts: seq<Post>, identity: Identity, query: string, mode: Mode)
    requires Delivered(posts, identity, query, mode)
    ensures mode == ForceSkip ==> OnlySkips(posts)
  {
    ContextOnlySkips(posts[..|posts|-1], identity);
    assert posts == posts[..|posts|-1] + [posts[|posts|-1]];
  }

  lemma RemoveFirstToken(claimed: seq<ClaimedMessage>, i: nat)
    requires DistinctClaims(claimed) && i < |claimed|
    ensures TokensOf(claimed[i..]) - {claimed[i].token} == TokensOf(claimed[i+1..])
    ensures claimed[i].token in TokensOf(claimed[i..])
  {
    assert claimed[i..] == [claimed[i]] + claimed[i+1..];
    assert claimed[i] in claimed[i..];
    forall t | t in TokensOf(claimed[i+1..]) ensures t in TokensOf(claimed[i..]) && t != claimed[i].token {
      var c :| c in claimed[i+1..] && c.token == t;
      assert c in claimed[i..];
    }
  }

  /** The primary token, and those from claim i on. */
  function StillHeld(claimed: seq<ClaimedMessage>, i: nat, primary: ClaimedMessage): set<nat>
    requires i <= |claimed|
  {
    TokensOf(claimed[i..]) + {primary.token}
  }

  lemma KeepFirst(claimed: seq<ClaimedMessage>, primary: ClaimedMessage)
    requires primary in claimed
    ensures StillHeld(claimed, 0, primary) == TokensOf(claimed) && StillHeld(claimed, |claimed|, primary) == {primary.token}
  {
    assert claimed[0..] == claimed;
    assert primary.token in TokensOf(claimed);
  }

  lemma KeepOne(claimed: seq<ClaimedMessage>, i: nat, primary: ClaimedMessage)
    requires DistinctClaims(claimed) && primary in claimed && i < |claimed|
    ensures var held := StillHeld(claimed, i, primary);
            && claimed[i].token in held
            && held - (if claimed[i].id != primary.id then {claimed[i].token} else {}) == StillHeld(claimed, i + 1, primary)
  {
    RemoveFirstToken(claimed, i);
    var k :| 0 <= k < |claimed| && claimed[k] == primary;
    assert claimed[i].id == primary.id <==> i == k;
    assert claimed[i].token == primary.token <==> i == k;
  }

  predicate ShopperTrigger(valid: seq<Inbound>, isGroup: bool, identity: Identity) {
    exists m | m in valid :: !m.fromMe && identity.Shopper? && (!isGroup || m.mentionsSelf)
  }

  predicate PaTrigger(valid: seq<Inbound>, isGroup: bool, identity: Identity, dest: Destination) {
    exists m | m in valid ::
      !m.fromMe && isGroup && dest.qualified && m.mentionsSelf && identity.Client? && dest.owner.Some? && dest.owner.value.enabled
  }
}
