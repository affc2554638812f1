/**
 * Group membership in the router (src/routing/inboundRouter.ts:
 * onSelfMembership, available, remember) over the repository's tables
 * (src/storage/chatBotRepo.ts). The epoch of a chat grows with every
 * membership change, and a batch carries the epoch of its last message.
 */
module Membership {
  import opened Common
  import opened ChatBots
  import opened Chains
  import opened Buffers

  datatype State = State(epochs: map<Chat, nat>, tables: Tables)

  const START := State(map[], EMPTY)

  /** What the router does to the membership state and the bot rows. */
  datatype Event =
    | SelfAdded(chat: Chat, addedBy: Option<string>)
    | SelfRemoved(chat: Chat, addedBy: Option<string>)
    | Remembered(chat: Chat, isGroup: bool, owner: Option<string>, threadId: string, roomName: Option<string>)
    | PendingSet(chat: Chat, post: Option<PendingPost>)

  function Epoch(s: State, c: Chat): nat {
    if c in s.epochs then s.epochs[c] else 0
  }

  predicate Present(s: State, c: Chat) {
    c in s.tables.members && s.tables.members[c].present
  }

  /** An add for a group the gateway is already in changes nothing it counts. */
  predicate Duplicate(s: State, e: Event) {
    e.SelfAdded? && Present(s, e.chat)
  }

  predicate ChangesMembership(s: State, e: Event, c: Chat) {
    (e.SelfAdded? || e.SelfRemoved?) && e.chat == c && !Duplicate(s, e)
  }

  function Bumped(s: State, c: Chat): map<Chat, nat> {
    s.epochs[c := Epoch(s, c) + 1]
  }

  function Step(s: State, e: Event): State {
    match e
    case SelfAdded(c, adder) =>
      State(if Duplicate(s, e) then s.epochs else Bumped(s, c), Apply(s.tables, SetMembership(c, true, adder)))
    case SelfRemoved(c, adder) =>
      State(Bumped(s, c), Apply(s.tables, SetMembership(c, false, adder)))
    case Remembered(c, isGroup, owner, threadId, roomName) =>
      s.(tables := Apply(s.tables, Upsert(c, Handle(owner, threadId, roomName, isGroup && Absent(s.tables, c)))))
    case PendingSet(c, post) => s.(tables := Apply(s.tables, SetPendingPost(c, post)))
  }

  function RunAll(s: State, events: seq<Event>): State
    decreases |events|
  {
    if events == [] then s else RunAll(Step(s, events[0]), events[1..])
  }

  predicate Available(s: State, c: Chat, isGroup: bool, epoch: nat) {
    !isGroup || (epoch == Epoch(s, c) && !Absent(s.tables, c))
  }

  // ------------------------------------------------------------------
  // A group's row is paused exactly when its membership row says absent
  // ------------------------------------------------------------------

  /** Groups are remembered as groups; direct chats never get membership events. */
  predicate KindsAgree(events: seq<Event>, groups: set<Chat>) {
    forall i | 0 <= i < |events| ::
      match events[i]
      case SelfAdded(c, _) => c in groups
      case SelfRemoved(c, _) => c in groups
      case Remembered(c, isGroup, _, _, _) => isGroup == (c in groups)
      case PendingSet(_, _) => true
  }

  ghost predicate PausedIffAbsent(t: Tables, groups: set<Chat>) {
    && (forall c | c in t.bots :: t.bots[c].paused <==> Absent(t, c))
    && (forall c | c in t.members :: c in groups)
  }

  lemma {:induction false} PausedExactlyWhenAbsent(s: State, events: seq<Event>, groups: set<Chat>)
    requires PausedIffAbsent(s.tables, groups) && KindsAgree(events, groups)
    ensures PausedIffAbsent(RunAll(s, events).tables, groups)
    decreases |events|
  {
    if events != [] {
      PausedStep(s, events[0], groups);
      assert KindsAgree(events[1..], groups);
      PausedExactlyWhenAbsent(Step(s, events[0]), events[1..], groups);
    }
  }

  lemma PausedStep(s: State, e: Event, groups: set<Chat>)
    requires PausedIffAbsent(s.tables, groups) && KindsAgree([e], groups)
    ensures PausedIffAbsent(Step(s, e).tables, groups)
  {
    assert [e][0] == e;
    if e.Remembered? && !e.isGroup {
      assert e.chat !in groups;
    }
  }

  /** From an empty store. */
  lemma PausedFromStart(events: seq<Event>, groups: set<Chat>, c: Chat)
    requires KindsAgree(events, groups)
    ensures var t := RunAll(START, events).tables;
            c in t.bots ==> (t.bots[c].paused <==> c in t.members && !t.members[c].present)
  {
    PausedExactlyWhenAbsent(START, events, groups);
  }

  // ------------------------------------------------------------------
  // The fence
  // ------------------------------------------------------------------

  /** Only duplicate adds happened to the group. */
  predicate Undisturbed(s: State, events: seq<Event>, c: Chat)
    decreases |events|
  {
    events == [] || (!ChangesMembership(s, events[0], c) && Undisturbed(Step(s, events[0]), events[1..], c))
  }

  /** The epoch stands still exactly while nothing but duplicate adds happens, and never goes back. */
  lemma {:induction false} EpochCounts(s: State, events: seq<Event>, c: Chat)
    ensures Epoch(RunAll(s, events), c) >= Epoch(s, c)
    ensures Epoch(RunAll(s, events), c) == Epoch(s, c) <==> Undisturbed(s, events, c)
    decreases |events|
  {
    if events != [] {
      EpochCounts(Step(s, events[0]), events[1..], c);
      assert Epoch(Step(s, events[0]), c) == Epoch(s, c) + if ChangesMembership(s, events[0], c) then 1 else 0;
    }
  }

  lemma {:induction false} UndisturbedKeepsPresence(s: State, events: seq<Event>, c: Chat)
    requires Undisturbed(s, events, c)
    ensures Absent(RunAll(s, events).tables, c) <==> Absent(s.tables, c)
    ensures Present(RunAll(s, events), c) <==> Present(s, c)
    decreases |events|
  {
    if events != [] {
      UndisturbedKeepsPresence(Step(s, events[0]), events[1..], c);
    }
  }

  /** A batch accepted at `s` passes later exactly when the group was not absent then and
      only duplicate adds happened to it since; so never again after a removal, even after
      a re-add, and a duplicate add drops nothing. */
  lemma FenceIsExact(s: State, events: seq<Event>, c: Chat)
    ensures Available(RunAll(s, events), c, true, Epoch(s, c)) <==> Undisturbed(s, events, c) && !Absent(s.tables, c)
  {
    EpochCounts(s, events, c);
    if Undisturbed(s, events, c) {
      UndisturbedKeepsPresence(s, events, c);
    }
  }

  lemma {:induction false} RemovalDisturbs(s: State, events: seq<Event>, c: Chat, i: nat)
    requires i < |events| && events[i].SelfRemoved? && events[i].chat == c
    ensures !Undisturbed(s, events, c)
    decreases |events|
  {
    if i > 0 { RemovalDisturbs(Step(s, events[0]), events[1..], c, i - 1); }
  }

  /** After a removal, nothing accepted before it is ever available again. */
  lemma RemovedIsFencedForever(s: State, before: seq<Event>, adder: Option<string>, after: seq<Event>, c: Chat)
    ensures !Available(RunAll(s, before + [SelfRemoved(c, adder)] + after), c, true, Epoch(s, c))
  {
    var events := before + [SelfRemoved(c, adder)] + after;
    assert events[|before|] == SelfRemoved(c, adder);
    RemovalDisturbs(s, events, c, |before|);
    FenceIsExact(s, events, c);
  }

  /** The fence as a queued batch of a group meets it. */
  predicate Passes(s: State, w: Work) {
    w.Batch? && Available(s, w.key.chat, true, w.epoch)
  }

  /** A flushed group burst passes exactly when its last message does: when only duplicate
      adds happened since that message was accepted and the group was there then. When the
      earlier messages were accepted makes no difference. */
  lemma BatchPassesIffLastDoes(s: State, events: seq<Event>, key: BufferKey, items: seq<Item>)
    requires items != [] && items[|items|-1].epoch == Epoch(s, key.chat)
    ensures Passes(RunAll(s, events), FlushedBatch(key, items)) <==>
              Available(RunAll(s, events), key.chat, true, items[|items|-1].epoch)
    ensures Passes(RunAll(s, events), FlushedBatch(key, items)) <==>
              Undisturbed(s, events, key.chat) && !Absent(s.tables, key.chat)
  {
    FenceIsExact(s, events, key.chat);
  }

  function JoinedOnce(c: Chat): State {
    Step(START, SelfAdded(c, None))
  }

  function LeftAndBack(c: Chat): State {
    Step(Step(JoinedOnce(c), SelfRemoved(c, None)), SelfAdded(c, None))
  }

  lemma BackAgain(c: Chat)
    ensures Available(LeftAndBack(c), c, true, Epoch(LeftAndBack(c), c))
    ensures !Available(LeftAndBack(c), c, true, Epoch(JoinedOnce(c), c))
  {
    assert Epoch(JoinedOnce(c), c) == 1 && Epoch(LeftAndBack(c), c) == 3;
  }

  /** Two messages of one sender within a second, taken up at any two epochs, leave as one batch. */
  method OneBurst(first: Message, e: nat, second: Message, f: nat) returns (batch: Work)
    requires SenderBufferKey(second) == SenderBufferKey(first)
    ensures batch == FlushedBatch(SenderBufferKey(first), [Item(first, e), Item(second, f)])
  {
    var buffers := new BurstBuffers(1_000, 0);
    buffers.Handle(first, e, false);
    buffers.Handle(second, f, false);
    var key := SenderBufferKey(first);
    buffers.Fire(buffers.clientBuffers[key].timer);
    batch := buffers.works[0];
  }

  /** So an earlier message is not fenced. The run: a message is buffered, the group is left
      and joined again, the next message of the sender joins the buffer, the timer fires;
      the batch holds both and passes, though alone the first would be dropped. */
  method EarlierMessageIsNotFenced(first: Message, second: Message) returns (batch: Work)
    requires first.isGroup && second.isGroup && SenderBufferKey(second) == SenderBufferKey(first)
    ensures batch == FlushedBatch(SenderBufferKey(first), [Item(first, Epoch(JoinedOnce(first.chat), first.chat)),
                                                           Item(second, Epoch(LeftAndBack(first.chat), first.chat))])
    ensures Passes(LeftAndBack(first.chat), batch)
    ensures !Available(LeftAndBack(first.chat), first.chat, true, Epoch(JoinedOnce(first.chat), first.chat))
  {
    var e, f := Epoch(JoinedOnce(first.chat), first.chat), Epoch(LeftAndBack(first.chat), first.chat);
    BackAgain(first.chat);
    batch := OneBurst(first, e, second, f);
  }

  // ------------------------------------------------------------------
  // The router's object
  // ------------------------------------------------------------------

  class MembershipFence {
    var epochs: map<Chat, nat>
    const chatBots: ChatBotRepo

    function Now(): State
      reads this, chatBots
    {
      State(epochs, chatBots.State())
    }

    constructor ()
      ensures Now() == START && fresh(chatBots)
    {
      epochs := map[];
      chatBots := new ChatBotRepo();
    }

    method OnSelfMembership(c: Chat, add: bool, addedBy: Option<string>)
      modifies this, chatBots
      ensures Now() == Step(old(Now()), if add then SelfAdded(c, addedBy) else SelfRemoved(c, addedBy))
    {
      if !add || !(c in chatBots.members && chatBots.members[c].present) {
        epochs := epochs[c := (if c in epochs then epochs[c] else 0) + 1];
      }
      chatBots.SetMembership(c, add, addedBy);
    }

    method Remember(c: Chat, isGroup: bool, owner: Option<string>, threadId: string, roomName: Option<string>)
      modifies chatBots
      ensures Now() == Step(old(Now()), Remembered(c, isGroup, owner, threadId, roomName))
    {
      var paused := isGroup && c in chatBots.members && !chatBots.members[c].present;
      chatBots.Upsert(c, Handle(owner, threadId, roomName, paused));
    }

    method SetPendingPost(c: Chat, post: Option<PendingPost>)
      modifies chatBots
      ensures Now() == Step(old(Now()), PendingSet(c, post))
    {
      chatBots.SetPendingPost(c, post);
    }
  }
}
