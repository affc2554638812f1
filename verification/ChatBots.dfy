/**
 * The per-chat bot rows and group membership rows (src/storage/chatBotRepo.ts).
 * Two tables keyed by chat; timestamps other than the pause flag are not kept.
 */
module ChatBots {
  import opened Common

  datatype Identity =
    | Client
    | Shopper(shopperId: string)
    | Pa(onBehalfOf: string)

  datatype PendingPost = PendingPost(identity: Identity, query: string, messageId: Option<string>)

  datatype Bot = Bot(
    owner: Option<string>,
    threadId: string,
    roomName: Option<string>,
    paused: bool,
    pending: Option<PendingPost>
  )

  datatype Member = Member(present: bool, addedBy: Option<string>)

  datatype Tables = Tables(bots: map<Chat, Bot>, members: map<Chat, Member>)

  const EMPTY := Tables(map[], map[])

  /** What a caller passes to `upsert`. */
  datatype Handle = Handle(owner: Option<string>, threadId: string, roomName: Option<string>, paused: bool)

  /** Only a new bot of a shopper may take over a row nobody owns. */
  predicate TakesOver(row: Bot, h: Handle) {
    row.owner.None? && h.owner.Some? && row.threadId != h.threadId
  }

  function UpsertRow(row: Option<Bot>, h: Handle): Bot {
    match row
    case None => Bot(h.owner, h.threadId, h.roomName, h.paused, None)
    case Some(b) =>
      b.(owner := if TakesOver(b, h) then h.owner else b.owner,
         roomName := if TakesOver(b, h) then h.roomName else b.roomName,
         threadId := h.threadId,
         paused := h.paused)
  }

  function MemberRow(row: Option<Member>, present: bool, addedBy: Option<string>): Member {
    match row
    case None => Member(present, addedBy)
    case Some(m) => Member(present, if !m.present || m.addedBy.None? then addedBy else m.addedBy)
  }

  datatype Op =
    | Upsert(chat: Chat, handle: Handle)
    | SetMembership(chat: Chat, present: bool, addedBy: Option<string>)
    | SetPendingPost(chat: Chat, post: Option<PendingPost>)

  function Apply(t: Tables, op: Op): Tables {
    match op
    case Upsert(c, h) => t.(bots := t.bots[c := UpsertRow(Lookup(t.bots, c), h)])
    case SetMembership(c, present, addedBy) =>
      Tables(
        if c in t.bots then t.bots[c := t.bots[c].(paused := !present)] else t.bots,
        t.members[c := MemberRow(Lookup(t.members, c), present, addedBy)])
    case SetPendingPost(c, post) =>
      if c in t.bots then t.(bots := t.bots[c := t.bots[c].(pending := post)]) else t
  }

  function Run(t: Tables, ops: seq<Op>): Tables
    decreases |ops|
  {
    if ops == [] then t else Run(Apply(t, ops[0]), ops[1..])
  }

  /** `membership(..)?.present === 0`: an unknown group counts as present. */
  predicate Absent(t: Tables, c: Chat) {
    c in t.members && !t.members[c].present
  }

  // ------------------------------------------------------------------
  // Ownership, for every sequence of repository calls
  // ------------------------------------------------------------------

  /** Once set, a chat's owner and room outlive every later call, for every caller. */
  lemma {:induction false} OwnerAndRoomAreFixed(t: Tables, ops: seq<Op>, c: Chat)
    requires c in t.bots && t.bots[c].owner.Some?
    ensures var t' := Run(t, ops);
            c in t'.bots && t'.bots[c].owner == t.bots[c].owner && t'.bots[c].roomName == t.bots[c].roomName
    decreases |ops|
  {
    if ops != [] {
      OwnerAndRoomAreFixed(Apply(t, ops[0]), ops[1..], c);
    }
  }

  /** An ownerless row gains an owner in one step exactly when a shopper's handle
      with another thread is recorded, and then owner, room and thread change together. */
  lemma OwnerIsGainedOnlyWithNewThread(t: Tables, op: Op, c: Chat)
    requires c in t.bots && t.bots[c].owner.None?
    ensures c in Apply(t, op).bots
    ensures Apply(t, op).bots[c].owner.Some? <==>
              op.Upsert? && op.chat == c && op.handle.owner.Some? && op.handle.threadId != t.bots[c].threadId
    ensures Apply(t, op).bots[c].owner.Some? ==>
              var b := Apply(t, op).bots[c];
              b.owner == op.handle.owner && b.roomName == op.handle.roomName
              && b.threadId == op.handle.threadId && b.pending == t.bots[c].pending
    ensures Apply(t, op).bots[c].owner.None? ==> Apply(t, op).bots[c].roomName == t.bots[c].roomName
  {
  }

  // ------------------------------------------------------------------
  // The repository object
  // ------------------------------------------------------------------

  class ChatBotRepo {
    var bots: map<Chat, Bot>
    var members: map<Chat, Member>

    function State(): Tables
      reads this
    {
      Tables(bots, members)
    }

    constructor ()
      ensures State() == EMPTY
    {
      bots, members := map[], map[];
    }

    method SetMembership(c: Chat, present: bool, addedBy: Option<string>)
      modifies this
      ensures State() == Apply(old(State()), Op.SetMembership(c, present, addedBy))
    {
      if c in members {
        var row := members[c];
        members := members[c := Member(present,
          if !row.present then addedBy
          else if row.addedBy.Some? then row.addedBy else addedBy)];
      } else {
        members := members[c := Member(present, addedBy)];
      }
      if c in bots {
        bots := bots[c := bots[c].(paused := !present)];
      }
    }

    method SetPendingPost(c: Chat, post: Option<PendingPost>)
      modifies this`bots
      ensures State() == Apply(old(State()), Op.SetPendingPost(c, post))
    {
      if c in bots {
        bots := bots[c := bots[c].(pending := post)];
      }
    }

    method Upsert(c: Chat, h: Handle)
      modifies this`bots
      ensures State() == Apply(old(State()), Op.Upsert(c, h))
    {
      if c !in bots {
        bots := bots[c := Bot(h.owner, h.threadId, h.roomName, h.paused, None)];
        return;
      }
      var row := bots[c];
      var promoted := row.owner.None? && h.owner.Some? && row.threadId != h.threadId;
      bots := bots[c := Bot(
        if promoted then h.owner else row.owner,
        h.threadId,
        if promoted then h.roomName else row.roomName,
        h.paused,
        row.pending)];
    }
  }
}
