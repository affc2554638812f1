/**
 * The jobs of one chat: a live batch, the retry of a pending post, and the
 * replay of captured history (src/routing/inboundRouter.ts: processBatch,
 * retryPending, onHistoryBatch). Each runs on the chat's lane; between any two
 * awaits membership events, other senders and the socket may step.
 *
 * What lies outside the router is a value passed in or chosen where the code
 * asks for it: shopper lookups, the setup status, prompt text, voice
 * grounding, whether a run is in flight, the welcome log and the clock.
 */
module Batches {
  import opened Common
  import opened ChatBots
  import opened Lanes
  import opened Claims
  import opened Replays
  import opened Turns
  import Logs = OutboundLogs
  import Store = MessageStores
  import Voice

  class ChatJobs {
    const chat: Chat
    const lane: Lane
    const desk: ClaimDesk
    const messages: Store.MessageStore
    const encoders: Encoders
    const wording: Wording
    /** History rows of this chat whose replay was accepted, in order. */
    ghost var replayed: seq<string>

    ghost predicate Valid()
      reads this, lane, desk, desk.log, messages
    {
      && lane.Valid() && desk.Valid() && messages.Valid()
      && ReplayIsMarked(replayed, messages.rows, chat)
    }

    constructor (chat: Chat, lane: Lane, desk: ClaimDesk, messages: Store.MessageStore,
                encoders: Encoders, wording: Wording)
      requires lane.Valid() && desk.Valid() && messages.Valid()
      ensures Valid() && this.chat == chat && this.lane == lane && this.desk == desk && this.messages == messages
      ensures replayed == []
    {
      this.chat, this.lane, this.desk, this.messages := chat, lane, desk, messages;
      this.encoders, this.wording := encoders, wording;
      replayed := [];
    }

    /** Steps of other parties on the shared tables while this job waits. */
    method Others()
      requires Valid()
      modifies desk.log, messages
      ensures Valid() && RowsGrow(old(messages.rows), messages.rows)
    {
      desk.Interfere();
      var steps: nat :| true;
      for i := 0 to steps
        invariant Valid() && RowsGrow(old(messages.rows), messages.rows)
      {
        var inserting: bool :| true;
        var c: Chat :| true;
        var id: string :| true;
        ghost var before := messages.rows;
        if inserting {
          var ts: nat :| true;
          var history: bool :| true;
          var isNew := messages.Insert(c, id, ts, history);
        } else {
          var found := messages.MarkRelayed(c, id);
        }
        ReplayMarksStay(replayed, before, messages.rows, chat);
      }
    }

    /** Re-send the stored text, as context, on the bot it was stored with; clear it on success,
        and keep it otherwise. */
    method RetryPending(dest: Destination, setupComplete: bool) returns (ok: bool, ghost made: seq<Post>)
      requires Valid() && desk.held == {}
      modifies lane, desk`granted, desk`held, desk`closed, desk.log, messages
      ensures Valid() && desk.held == {} && RowsGrow(old(messages.rows), messages.rows)
      ensures lane.Progress() && lane.posts == old(lane.posts) + made
      ensures OnlySkips(made) && (ok ==> !HasPending(lane.row))
      ensures !HasPending(old(lane.row)) ==> ok && made == [] && lane.row == old(lane.row)
      ensures HasPending(old(lane.row)) ==>
                var stored := old(lane.row).value;
                && (made == [] <==> stored.pending.value.identity.Client? && !setupComplete)
                && (made != [] ==> |made| == 1 && Resent(stored, made[0]))
                && (ok <==> made != [] && made[0].outcome.Accepted?)
                && (!ok ==> lane.row.Some? && lane.row.value.pending == stored.pending)
    {
      ok, made := true, [];
      if !HasPending(lane.row) {
        return;
      }
      var pending := lane.row.value.pending.value;
      if pending.identity.Client? && !setupComplete {
        ok := false;
        return;
      }
      ok, made := Resend(dest, lane.row.value, pending);
      assert OnlySkips(made);
      if !ok { return; }
      if pending.messageId.Some? {
        RelayRecovered(pending.messageId.value);
      }
      lane.SetPending(None);
    }

    method Resend(dest: Destination, existing: Bot, pending: PendingPost) returns (ok: bool, ghost made: seq<Post>)
      requires Valid() && lane.row == Some(existing) && existing.pending == Some(pending)
      modifies lane, desk.log, messages
      ensures Valid() && lane.Progress() && RowsGrow(old(messages.rows), messages.rows)
      ensures |made| == 1 && lane.posts == old(lane.posts) + made && Resent(existing, made[0])
      ensures ok == made[0].outcome.Accepted?
      ensures lane.row.Some? && lane.row.value.pending == existing.pending
    {
      var owner: Option<ShopperRecord> :| true;
      var pendingDest := Destination(owner, existing.owner,
        if existing.roomName.Some? then existing.roomName.value else dest.roomName, dest.qualified);
      var r;
      ghost var p;
      r, p := lane.Submit(pendingDest, pending.identity, pending.query, ForceSkip, [], true, pending.messageId);
      made := [p];
      Others();
      ok := r.Accepted?;
    }

    /** A recovered message is closed in both tables without a WhatsApp reply. */
    method RelayRecovered(id: string)
      requires Valid() && desk.held == {}
      modifies desk`granted, desk`held, desk`closed, desk.log, messages
      ensures Valid() && desk.held == {} && RowsGrow(old(messages.rows), messages.rows)
      ensures messages.rows == Store.Marked(old(messages.rows), chat, id)
      ensures forall t | t in desk.granted && t !in old(desk.granted) ::
                t in desk.closed && desk.closed[t] == Closing(Logs.Key(chat.connectionId, id), Logs.MarkRelayed(chat.chatJid))
    {
      MarkRelayed(id);
      var now: int :| true;
      var claim := desk.Claim(chat.connectionId, id, now);
      if claim.Claimed? {
        desk.Close(chat.connectionId, id, claim.token, Logs.MarkRelayed(chat.chatJid), now);
      }
    }

    method MarkRelayed(id: string)
      requires Valid()
      modifies messages
      ensures Valid() && messages.rows == Store.Marked(old(messages.rows), chat, id)
      ensures RowsGrow(old(messages.rows), messages.rows)
    {
      var found := messages.MarkRelayed(chat, id);
      ReplayMarksStay(replayed, old(messages.rows), messages.rows, chat);
    }

    method MarkAllRelayed(valid: seq<Inbound>)
      requires Valid()
      modifies messages
      ensures Valid()
    {
      for i := 0 to |valid|
        invariant Valid()
      {
        MarkRelayed(valid[i].id);
      }
    }

    // ----------------------------------------------------------------
    // A live batch
    // ----------------------------------------------------------------

    /** Claim every valid message; the loop runs without an await, at one instant. */
    method ClaimAll(valid: seq<Inbound>) returns (claimed: seq<ClaimedMessage>, now: int)
      requires Valid() && desk.held == {}
      modifies desk`granted, desk`held, desk.log
      ensures Valid() && desk.held == TokensOf(claimed) && DistinctClaims(claimed)
      ensures forall c | c in claimed :: exists m | m in valid :: m.id == c.id
      ensures forall i | 0 <= i < |valid| :: !desk.Claimable(chat.connectionId, valid[i].id, now)
    {
      claimed := [];
      now :| true;
      for i := 0 to |valid|
        invariant Valid() && desk.held == TokensOf(claimed) && DistinctClaims(claimed)
        invariant forall c | c in claimed :: exists m | m in valid :: m.id == c.id
        invariant forall c | c in claimed :: desk.PendingSince(chat.connectionId, c.id, now) && c.token in desk.granted
        invariant forall k | 0 <= k < i :: !desk.Claimable(chat.connectionId, valid[k].id, now)
      {
        var claim := desk.Claim(chat.connectionId, valid[i].id, now);
        if claim.Claimed? {
          var c := ClaimedMessage(valid[i].id, claim.token);
          assert TokensOf(claimed + [c]) == TokensOf(claimed) + {claim.token};
          claimed := claimed + [c];
        }
      }
    }

    method CloseAll(claimed: seq<ClaimedMessage>, t: Logs.Terminal)
      requires Valid() && desk.held == TokensOf(claimed) && DistinctClaims(claimed)
      modifies desk`held, desk`closed, desk.log
      ensures Valid() && desk.held == {}
      ensures ClosedBut(desk.closed, claimed, None, chat.connectionId, t)
    {
      assert claimed[0..] == claimed;
      for i := 0 to |claimed|
        invariant Valid() && desk.held == TokensOf(claimed[i..])
        invariant ClosedBut(desk.closed, claimed[..i], None, chat.connectionId, t)
      {
        CloseOne(desk.closed, claimed, i, None, chat.connectionId, t);
        RemoveFirstToken(claimed, i);
        var now: int :| true;
        desk.Close(chat.connectionId, claimed[i].id, claimed[i].token, t, now);
      }
    }

    /** Every claim but the primary one is relayed; the primary one goes to the dispatcher. */
    method KeepPrimary(claimed: seq<ClaimedMessage>, primary: ClaimedMessage)
      requires Valid() && desk.held == TokensOf(claimed) && DistinctClaims(claimed) && primary in claimed
      modifies desk`held, desk`handed, desk`closed, desk.log
      ensures Valid() && desk.held == {} && desk.handed == old(desk.handed) + [primary.token]
      ensures Logs.WritesOf(desk.log.history, primary.token) == 0
      ensures ClosedBut(desk.closed, claimed, Some(primary.id), chat.connectionId, Logs.MarkRelayed(chat.chatJid))
    {
      KeepFirst(claimed, primary);
      for i := 0 to |claimed|
        invariant Valid() && desk.handed == old(desk.handed)
        invariant ClosedBut(desk.closed, claimed[..i], Some(primary.id), chat.connectionId, Logs.MarkRelayed(chat.chatJid))
        invariant desk.held == StillHeld(claimed, i, primary)
      {
        KeepOrRelay(claimed, i, primary);
      }
      assert claimed[..|claimed|] == claimed;
      desk.HandOver(primary.token);
    }

    method KeepOrRelay(claimed: seq<ClaimedMessage>, i: nat, primary: ClaimedMessage)
      requires Valid() && DistinctClaims(claimed) && primary in claimed && i < |claimed|
      requires desk.held == StillHeld(claimed, i, primary)
      requires ClosedBut(desk.closed, claimed[..i], Some(primary.id), chat.connectionId, Logs.MarkRelayed(chat.chatJid))
      modifies desk`held, desk`closed, desk.log
      ensures Valid() && desk.held == StillHeld(claimed, i + 1, primary)
      ensures ClosedBut(desk.closed, claimed[..i+1], Some(primary.id), chat.connectionId, Logs.MarkRelayed(chat.chatJid))
    {
      KeepOne(claimed, i, primary);
      CloseOne(desk.closed, claimed, i, Some(primary.id), chat.connectionId, Logs.MarkRelayed(chat.chatJid));
      RelayUnlessPrimary(claimed[i], primary);
    }

    method RelayUnlessPrimary(c: ClaimedMessage, primary: ClaimedMessage)
      requires Valid() && c.token in desk.held
      modifies desk`held, desk`closed, desk.log
      ensures Valid() && desk.held == old(desk.held) - if c.id != primary.id then {c.token} else {}
      ensures c.id == primary.id ==> desk.closed == old(desk.closed)
      ensures c.id != primary.id ==>
                desk.closed == old(desk.closed)[c.token := Closing(Logs.Key(chat.connectionId, c.id), Logs.MarkRelayed(chat.chatJid))]
    {
      if c.id != primary.id {
        var now: int :| true;
        desk.Close(chat.connectionId, c.id, c.token, Logs.MarkRelayed(chat.chatJid), now);
      }
    }

    /** Where a message's chat belongs. It is dropped exactly for a left or unlinked group, when
        no room is known, or when nobody owns the chat and unregistered senders are not relayed;
        an owner once stored stays, and the first room known, from the most specific, is taken. */
    method FindDestination(l: Lookups) returns (dest: Option<Destination>)
      requires Valid()
      modifies lane`row, lane`member, lane`epoch, lane`rows, desk.log, messages
      ensures Valid() && lane.Progress() && SameBot(old(lane.row), lane.row)
      ensures RowsGrow(old(messages.rows), messages.rows) && lane.posts == old(lane.posts)
      ensures dest.None? <==> Homeless(lane.isGroup, old(lane.Absent()), old(lane.row), l)
      ensures dest.Some? ==> Placed(lane.isGroup, old(lane.row), l, dest.value)
    {
      var existing := lane.row;
      if lane.isGroup {
        if lane.Absent() { return None; }
        lane.Await();
        Others();
        if !l.linkedMember { return None; }
      }
      var fixed := existing.Some? && existing.value.owner.Some?;
      var ownerId := if fixed then existing.value.owner
                     else if l.candidate.Some? then Some(l.candidate.value.id) else None;
      var owner := if fixed then l.stored else l.candidate;
      FirstOfThree(if existing.Some? then existing.value.roomName else None, RoomOf(l.stored), l.commonRoom);
      FirstOfThree(RoomOf(l.candidate), if existing.Some? then existing.value.roomName else None, l.commonRoom);
      var room := if fixed && existing.value.roomName.Some? then existing.value.roomName
                  else if owner.Some? then Some(owner.value.roomName)
                  else if existing.Some? && existing.value.roomName.Some? then existing.value.roomName
                  else l.commonRoom;
      if room.None? || (ownerId.None? && !l.relayUnregistered) { return None; }
      return Some(Destination(owner, ownerId, room.value, lane.isGroup && l.candidate.Some?));
    }

    /** Who posts: the owner for the linked phone's own messages, else the registered sender;
        the client if there is none, or in a group that does not qualify. */
    method IdentityOf(first: Inbound, dest: Destination, sender: Option<ShopperRecord>) returns (identity: Identity)
      ensures IsPoster(lane.isGroup, first, dest, sender, identity)
    {
      if first.fromMe {
        return if dest.owner.Some? then Identity.Shopper(dest.owner.value.id) else Client;
      }
      if lane.isGroup && !dest.qualified { return Client; }
      return if sender.Some? then Identity.Shopper(sender.value.id) else Client;
    }

    /** The waits before the ask, then the upload ladder. */
    method AskTurn(first: Inbound, dest: Destination, identity: Identity, said: Grounded, mode: Mode)
      returns (ask: Outcome, ghost made: seq<Post>)
      requires Valid() && !HasPending(lane.row)
      modifies lane, desk.log, messages
      ensures Valid() && lane.Progress() && lane.posts == old(lane.posts) + made
      ensures made != [] && ask == made[|made|-1].outcome
      ensures ask.Accepted? ==> !HasPending(lane.row) && !lane.Promoting(dest) && Delivered(made, identity, said.query, mode)
      ensures ask.Accepted? ==> Told(said, identity, encoders, made)
      ensures OfTurn(made, identity, said.query, mode) && (!ask.Accepted? ==> ContextOnly(made, identity))
    {
      // Meanwhile the job has waited for the run in flight and for the transcripts.
      lane.Await();
      var staged := Staged(said.files, encoders);
      ghost var rungs;
      ask, made, rungs := lane.SubmitMediaAsk(dest, identity, said.query, mode, staged, encoders.shrink, Some(first.id));
      Others();
    }

    /** A way out of a turn: all claims closed, or the primary one handed on while the chat is available. */
    twostate predicate TurnEnds(reply: Reply, claimed: seq<ClaimedMessage>, at: nat)
      reads this, lane, desk, desk.log, messages
    {
      && Valid() && desk.held == {} && lane.Progress()
      && desk.handed == old(desk.handed) + (if reply.Closed? then [] else [reply.token])
      && (!reply.Closed? ==>
            && ClaimedMessage(reply.key, reply.token) in claimed
            && Logs.WritesOf(desk.log.history, reply.token) == 0
            && ClosedBut(desk.closed, claimed, Some(reply.key), chat.connectionId, Logs.MarkRelayed(chat.chatJid))
            && lane.Available(at)
            && !reply.identity.Client?)
    }

    /** Voice notes become text before the ask; their audio is not uploaded. */
    method Ground(hear: nat -> Option<string>, identity: Identity, valid: seq<Inbound>) returns (said: Grounded)
      ensures Says(Voice.ByMime(), hear, wording, identity, valid, said)
    {
      var notes, files, raw := Notes(valid), ReadyFiles(valid), RawQuery(wording, identity, valid);
      var g := Voice.GroundVoiceTurn(hear, notes, files);
      GroundedSays(Voice.ByMime(), hear, wording, identity, valid, g);
      var query := if g.voice then wording.merge(raw, g.transcripts) else raw;
      said := Grounded(query, g.files, g.transcripts, g.voice && !g.transcriptReady && g.voiceOnly);
    }

    /** From the claims to the reply. */
    method RunTurn(first: Inbound, last: Inbound, valid: seq<Inbound>, at: nat, dest: Destination, identity: Identity,
                   claimed: seq<ClaimedMessage>, w: World) returns (reply: Reply, ghost made: seq<Post>, ghost c: Course)
      requires Valid() && desk.held == TokensOf(claimed) && DistinctClaims(claimed) && claimed != []
      requires !HasPending(lane.row) && !identity.Pa?
      modifies lane, desk`held, desk`handed, desk`closed, desk.log, messages
      ensures TurnEnds(reply, claimed, at)
      ensures lane.posts == old(lane.posts) + made && TriggerCount(reply, made)
      ensures c.asked <==> old(lane.Available(at)) && !w.unreadable
      ensures lane.Available(at) && !w.unreadable ==> c.asked
      ensures c.asked ==> Says(Voice.ByMime(), w.hear, wording, identity, valid, c.said)
      ensures !c.asked ==> made == []
      ensures ToldOf(c, identity, encoders, made)
      ensures Ran(lane.isGroup, lane.Available(at), first, valid, dest, identity, w, reply, made, c)
      ensures reply.Closed? ==>
                ClosedBut(desk.closed, claimed, None, chat.connectionId, TerminalOf(c.through, made, chat.chatJid))
      ensures !reply.Closed? ==> ClaimedMessage(reply.key, reply.token) == Primary(claimed, Triggering(valid, last).id)
    {
      made, c := [], NOT_ASKED;
      if !lane.Available(at) || w.unreadable {
        CloseAll(claimed, Logs.MarkFailed);
        reply := Closed;
        NothingRan(lane.isGroup, lane.Available(at), first, valid, dest, identity, w);
        return;
      }
      var said := Ground(w.hear, identity, valid);
      assert unchanged(lane, desk, desk.log, messages);
      reply, made, c := TakeTurn(first, last, valid, at, dest, identity, claimed, w, said);
    }

    /** A turn that gets to its ask, once its voice notes are grounded. */
    method TakeTurn(first: Inbound, last: Inbound, valid: seq<Inbound>, at: nat, dest: Destination, identity: Identity,
                    claimed: seq<ClaimedMessage>, w: World, said: Grounded)
      returns (reply: Reply, ghost made: seq<Post>, ghost c: Course)
      requires Valid() && desk.held == TokensOf(claimed) && DistinctClaims(claimed) && claimed != []
      requires !HasPending(lane.row) && !identity.Pa?
      modifies lane, desk`held, desk`handed, desk`closed, desk.log, messages
      ensures TurnEnds(reply, claimed, at)
      ensures lane.posts == old(lane.posts) + made && TriggerCount(reply, made)
      ensures c.asked && c.said == said
      ensures ToldOf(c, identity, encoders, made)
      ensures Ran(lane.isGroup, lane.Available(at), first, valid, dest, identity, w, reply, made, c)
      ensures reply.Closed? ==>
                ClosedBut(desk.closed, claimed, None, chat.connectionId, TerminalOf(c.through, made, chat.chatJid))
      ensures !reply.Closed? ==> ClaimedMessage(reply.key, reply.token) == Primary(claimed, Triggering(valid, last).id)
    {
      var f := FlagsOf(lane.isGroup, first, valid, dest, identity, w, said.hold);
      FlagsAreSound(lane.isGroup, first, valid, dest, identity, w, said.hold);
      ghost var n, through;
      reply, made, n, through := AskAndRespond(first, last, valid, at, dest, identity, claimed, f, said);
      c := CourseOf(f, said, made, n, through);
      FlagsRan(lane.isGroup, lane.Available(at), first, valid, dest, identity, w, reply, made, n, through, said, encoders);
    }

    /** The ask with everything the batch says, then the reply. */
    method AskAndRespond(first: Inbound, last: Inbound, valid: seq<Inbound>, at: nat, dest: Destination, identity: Identity,
                         claimed: seq<ClaimedMessage>, f: Flags, said: Grounded)
      returns (reply: Reply, ghost made: seq<Post>, ghost n: nat, ghost through: bool)
      requires Valid() && desk.held == TokensOf(claimed) && DistinctClaims(claimed) && claimed != []
      requires !HasPending(lane.row) && Sound(f, dest, identity)
      modifies lane, desk`held, desk`handed, desk`closed, desk.log, messages
      ensures TurnEnds(reply, claimed, at)
      ensures lane.posts == old(lane.posts) + made && TriggerCount(reply, made)
      ensures through ==> Asked(said, identity, ModeOf(f), encoders, made, n)
      ensures through ==> Answered(f, lane.Available(at), dest, identity, reply, made[n..])
      ensures !through ==> reply.Closed? && (made != [] ==> !made[|made|-1].outcome.Accepted?)
      ensures reply.Closed? ==>
                ClosedBut(desk.closed, claimed, None, chat.connectionId, TerminalOf(through, made, chat.chatJid))
      ensures !reply.Closed? ==> ClaimedMessage(reply.key, reply.token) == Primary(claimed, Triggering(valid, last).id)
    {
      ghost var asked, more;
      var ask;
      ask, asked := AskTurn(first, dest, identity, said, ModeOf(f));
      n := |asked|;
      if !ask.Accepted? {
        CloseAll(claimed, Logs.MarkFailed);
        return Closed, asked, n, false;
      }
      reply, more := Respond(last, valid, at, dest, identity, claimed, f, said.query, ask.threadId, asked);
      made, through := asked + more, true;
      Regroup(old(lane.posts), asked, more);
      AskedFirst(said, identity, ModeOf(f), encoders, asked, more);
      AfterAskIsTerminal(asked, more, chat.chatJid);
    }

    /** After the ask got through: hold, relay, or hand the primary claim to a dispatch. */
    method Respond(last: Inbound, valid: seq<Inbound>, at: nat, dest: Destination, identity: Identity,
                   claimed: seq<ClaimedMessage>, f: Flags, query: string, threadId: string, ghost asked: seq<Post>)
      returns (reply: Reply, ghost more: seq<Post>)
      requires Valid() && desk.held == TokensOf(claimed) && DistinctClaims(claimed) && claimed != []
      requires !HasPending(lane.row) && !lane.Promoting(dest)
      requires Delivered(asked, identity, query, ModeOf(f)) && Sound(f, dest, identity)
      requires asked[|asked|-1].outcome == Accepted(threadId)
      modifies lane, desk`held, desk`handed, desk`closed, desk.log, messages
      ensures TurnEnds(reply, claimed, at)
      ensures lane.posts == old(lane.posts) + more && TriggerCount(reply, asked + more)
      ensures Answered(f, lane.Available(at), dest, identity, reply, more)
      ensures reply.Closed? ==> ClosedBut(desk.closed, claimed, None, chat.connectionId, AfterAsk(more, chat.chatJid))
      ensures !reply.Closed? ==> ClaimedMessage(reply.key, reply.token) == Primary(claimed, Triggering(valid, last).id)
    {
      more := [];
      assert asked + [] == asked;
      DeliveredSkips(asked, identity, query, ModeOf(f));
      MarkAllRelayed(valid);
      if f.hold {
        lane.Await();
        Others();
        CloseAll(claimed, Logs.MarkRelayed(chat.chatJid));
        return Closed, more;
      }
      var responder, thread := identity, threadId;
      if f.callsPa && !f.retag && lane.Available(at) {
        responder := Pa(dest.owner.value.id);
        var ask;
        ask, more := AskPa(dest, responder);
        if !ask.Accepted? {
          CloseAll(claimed, Logs.MarkFailed);
          return Closed, more;
        }
        thread := ask.threadId;
        assert (asked + more)[..|asked|] == asked;
      }
      reply := Conclude(last, valid, at, responder, claimed, f, thread);
    }

    /** Nobody was called, or the chat changed: relay. Otherwise hand on. */
    method Conclude(last: Inbound, valid: seq<Inbound>, at: nat, responder: Identity, claimed: seq<ClaimedMessage>, f: Flags,
                    threadId: string)
      returns (reply: Reply)
      requires Valid() && desk.held == TokensOf(claimed) && DistinctClaims(claimed) && claimed != []
      requires responder.Client? ==> f.retag || !(f.calls || f.callsPa || f.greets) || !lane.Available(at)
      modifies desk`held, desk`handed, desk`closed, desk.log
      ensures TurnEnds(reply, claimed, at)
      ensures reply.Closed? <==> f.retag || !(f.calls || f.callsPa || f.greets) || !lane.Available(at)
      ensures reply.Closed? ==> ClosedBut(desk.closed, claimed, None, chat.connectionId, Logs.MarkRelayed(chat.chatJid))
      ensures !reply.Closed? ==>
                && (if f.greets then reply.Greeting? else reply.Dispatched? && reply.threadId == threadId) && reply.identity == responder
                && ClaimedMessage(reply.key, reply.token) == Primary(claimed, Triggering(valid, last).id)
    {
      if f.retag || (!f.calls && !f.callsPa && !f.greets) || !lane.Available(at) {
        CloseAll(claimed, Logs.MarkRelayed(chat.chatJid));
        return Closed;
      }
      if responder.Client? {
        // The early return of the source is never taken: it would drop the claims.
        assert false;
      }
      reply := HandOn(last, valid, at, responder, claimed, f.greets, threadId);
    }

    /** The second post of a group turn: the note that makes the assistant answer. */
    method AskPa(dest: Destination, responder: Identity) returns (ask: Outcome, ghost more: seq<Post>)
      requires Valid() && !HasPending(lane.row) && !lane.Promoting(dest) && dest.owner.Some?
      modifies lane, desk.log, messages
      ensures Valid() && lane.Progress() && lane.posts == old(lane.posts) + more
      ensures |more| == 1 && more[0].identity == responder && more[0].mode == ForceRespond
      ensures more[0].query == wording.paPrompt(dest.owner.value.name) && more[0].files == []
      ensures ask == more[0].outcome
    {
      ghost var p;
      ask, p := lane.Submit(dest, responder, wording.paPrompt(dest.owner.value.name), ForceRespond, [], true, None);
      more := [p];
      Others();
    }

    /** One claim goes to one dispatch; the others are relayed. */
    method HandOn(last: Inbound, valid: seq<Inbound>, at: nat, responder: Identity, claimed: seq<ClaimedMessage>,
                  greets: bool, threadId: string) returns (reply: Reply)
      requires Valid() && desk.held == TokensOf(claimed) && DistinctClaims(claimed) && claimed != []
      requires lane.Available(at) && !responder.Client?
      modifies desk`held, desk`handed, desk`closed, desk.log
      ensures TurnEnds(reply, claimed, at)
      ensures (if greets then reply.Greeting? else reply.Dispatched? && reply.threadId == threadId) && reply.identity == responder
      ensures ClaimedMessage(reply.key, reply.token) == Primary(claimed, Triggering(valid, last).id)
    {
      var primary := Primary(claimed, Triggering(valid, last).id);
      KeepPrimary(claimed, primary);
      reply := if greets then Greeting(responder, primary.id, primary.token)
               else Dispatched(responder, primary.id, primary.token, threadId);
    }

    /** The drops: echoes, left groups, empty batches, no destination, no client setup. */
    method Receive(batch: seq<Inbound>, at: nat, w: World) returns (turn: Option<Turn>)
      requires Valid() && desk.held == {}
      modifies lane, desk.log, messages
      ensures Valid() && desk.held == {} && lane.Progress() && lane.posts == old(lane.posts)
      ensures turn.Some? ==> lane.Available(at)
      ensures turn.Some? ==> Received(lane.isGroup, old(lane.Absent()), old(lane.row), w, batch, turn.value)
      ensures turn.None? ==> Unreceived(lane.isGroup, old(lane.Absent()), old(lane.row), w, batch, old(Echoed(batch))) || !lane.Available(at)
      ensures old(Echoed(batch)) || !old(lane.Available(at)) ==> turn.None?
    {
      turn := None;
      if batch == [] { return; }
      var first := batch[0];
      if first.fromMe && desk.log.IsGatewayMessage(chat.connectionId, chat.chatJid, first.id) { return; }
      if !lane.Available(at) || Valids(batch) == [] { return; }
      var dest := FindDestination(w.lookups);
      if dest.None? || !lane.Available(at) { return; }
      var identity := IdentityOf(first, dest.value, w.sender);
      if identity.Client? && !w.setupComplete { return; }
      turn := Some(Turn(dest.value, identity));
    }

    /** The batch opens with a message of ours that came back. */
    predicate Echoed(batch: seq<Inbound>)
      reads desk.log
    {
      batch != [] && batch[0].fromMe && desk.log.IsGatewayMessage(chat.connectionId, chat.chatJid, batch[0].id)
    }

    /** One debounced batch, accepted while the chat's epoch was `at`. */
    method ProcessBatch(batch: seq<Inbound>, at: nat, w: World)
      returns (reply: Reply, ghost resent: seq<Post>, ghost made: seq<Post>, ghost turn: Option<Turn>,
               ghost claimed: seq<ClaimedMessage>, ghost c: Course)
      requires Valid() && desk.held == {}
      modifies lane, desk`granted, desk`held, desk`handed, desk`closed, desk.log, messages
      ensures Valid() && desk.held == {} && lane.Progress()
      ensures desk.handed == old(desk.handed) + if reply.Closed? then [] else [reply.token]
      ensures lane.posts == old(lane.posts) + resent + made && OnlySkips(resent) && TriggerCount(reply, made)
      ensures !reply.Closed? ==> Logs.WritesOf(desk.log.history, reply.token) == 0 && lane.Available(at) && !reply.identity.Client?
      // What becomes a turn, and what is dropped.
      ensures !old(lane.Available(at)) || old(Echoed(batch)) ==> turn.None?
      ensures turn.Some? ==> Received(lane.isGroup, old(lane.Absent()), old(lane.row), w, batch, turn.value)
      ensures turn.None? ==> Unreceived(lane.isGroup, old(lane.Absent()), old(lane.row), w, batch, old(Echoed(batch))) || !lane.Available(at)
      ensures turn.None? ==> reply.Closed? && resent == [] && made == [] && claimed == []
      // Its claims, and how each is closed.
      ensures ClaimsOf(claimed, batch) && Accounted(desk.closed, claimed, batch, reply, made, c)
      // What is said, and who is asked to answer.
      ensures turn.Some? ==> TurnRan(lane.isGroup, lane.Available(at), batch, turn.value, w, claimed, reply, made, c)
    {
      reply, resent, made, claimed, c := Closed, [], [], [], NOT_ASKED;
      var received := Receive(batch, at, w);
      turn := received;
      if received.None? { return; }
      reply, resent, made, claimed, c := Proceed(batch, at, w, received.value);
    }

    /** A received batch: the retry of the pending post, the claims, the turn. */
    method Proceed(batch: seq<Inbound>, at: nat, w: World, turn: Turn)
      returns (reply: Reply, ghost resent: seq<Post>, ghost made: seq<Post>, ghost claimed: seq<ClaimedMessage>, ghost c: Course)
      requires Valid() && desk.held == {} && batch != [] && !turn.identity.Pa?
      modifies lane, desk`granted, desk`held, desk`handed, desk`closed, desk.log, messages
      ensures Valid() && desk.held == {} && lane.Progress()
      ensures desk.handed == old(desk.handed) + if reply.Closed? then [] else [reply.token]
      ensures lane.posts == old(lane.posts) + resent + made && OnlySkips(resent) && TriggerCount(reply, made)
      ensures !reply.Closed? ==> Logs.WritesOf(desk.log.history, reply.token) == 0 && lane.Available(at) && !reply.identity.Client?
      ensures ClaimsOf(claimed, batch) && Accounted(desk.closed, claimed, batch, reply, made, c)
      ensures TurnRan(lane.isGroup, lane.Available(at), batch, turn, w, claimed, reply, made, c)
    {
      reply, resent, made, claimed, c := Closed, [], [], [], NOT_ASKED;
      var recovered;
      recovered, resent := RetryPending(turn.dest, w.setupComplete);
      if !recovered {
        NoClaims(batch, turn, w, lane.Available(at));
        return;
      }
      reply, made, claimed, c := Take(batch, at, w, turn);
    }

    method Take(batch: seq<Inbound>, at: nat, w: World, turn: Turn)
      returns (reply: Reply, ghost made: seq<Post>, ghost claimed: seq<ClaimedMessage>, ghost c: Course)
      requires Valid() && desk.held == {} && batch != [] && !turn.identity.Pa? && !HasPending(lane.row)
      modifies lane, desk`granted, desk`held, desk`handed, desk`closed, desk.log, messages
      ensures Valid() && desk.held == {} && lane.Progress()
      ensures desk.handed == old(desk.handed) + if reply.Closed? then [] else [reply.token]
      ensures lane.posts == old(lane.posts) + made && TriggerCount(reply, made)
      ensures !reply.Closed? ==> Logs.WritesOf(desk.log.history, reply.token) == 0 && lane.Available(at) && !reply.identity.Client?
      ensures ClaimsOf(claimed, batch) && Accounted(desk.closed, claimed, batch, reply, made, c)
      ensures TurnRan(lane.isGroup, lane.Available(at), batch, turn, w, claimed, reply, made, c)
    {
      var valid := Valids(batch);
      var claims, now := ClaimAll(valid);
      claimed := claims;
      ClaimsAreOf(claims, batch);
      if claims == [] {
        assert TokensOf([]) == {};
        reply, made, c := Closed, [], NOT_ASKED;
        NoClaims(batch, turn, w, lane.Available(at));
        return;
      }
      reply, made, c := RunTurn(batch[0], batch[|batch|-1], valid, at, turn.dest, turn.identity, claims, w);
    }

    lemma NoClaims(batch: seq<Inbound>, turn: Turn, w: World, here: bool)
      requires batch != []
      ensures ClaimsOf([], batch) && Accounted(desk.closed, [], batch, Closed, [], NOT_ASKED)
      ensures TurnRan(lane.isGroup, here, batch, turn, w, [], Closed, [], NOT_ASKED)
    {
      NothingRan(lane.isGroup, here, batch[0], Valids(batch), turn.dest, turn.identity, w);
    }

    /** How the claims ended: with a reply, all but its own relayed; without one, all alike. */
    ghost predicate Accounted(closed: map<nat, Closing>, claimed: seq<ClaimedMessage>, batch: seq<Inbound>, reply: Reply,
                              made: seq<Post>, c: Course)
    {
      if reply.Closed? then ClosedBut(closed, claimed, None, chat.connectionId, TerminalOf(c.through, made, chat.chatJid))
      else
        && batch != [] && claimed != [] && ClaimedMessage(reply.key, reply.token) == Primary(claimed, Triggering(Valids(batch), batch[|batch|-1]).id)
        && ClosedBut(closed, claimed, Some(reply.key), chat.connectionId, Logs.MarkRelayed(chat.chatJid))
    }

    /** What was said and answered. A turn with claims gets to its ask unless it cannot be read or its chat changed. */
    ghost predicate TurnRan(isGroup: bool, here: bool, batch: seq<Inbound>, turn: Turn, w: World, claimed: seq<ClaimedMessage>,
                            reply: Reply, made: seq<Post>, c: Course)
    {
      && batch != []
      && (c.asked ==> claimed != [] && !w.unreadable && Says(Voice.ByMime(), w.hear, wording, turn.identity, Valids(batch), c.said))
      && (claimed != [] && !w.unreadable && here ==> c.asked)
      && (!c.asked ==> made == [])
      && ToldOf(c, turn.identity, encoders, made)
      && Ran(isGroup, here, batch[0], Valids(batch), turn.dest, turn.identity, w, reply, made, c)
    }

    // ----------------------------------------------------------------
    // Replay of captured history
    // ----------------------------------------------------------------

    /** One row's post: context only, and never kept for retry. */
    method PostRow(row: Store.Row, dest: Destination, at: nat) returns (accepted: bool, ghost made: seq<Post>)
      requires Valid() && !lane.Promoting(dest)
      modifies lane, desk.log, messages
      ensures Valid() && lane.Progress() && !lane.Promoting(dest) && lane.posts == old(lane.posts) + made
      ensures RowsGrow(old(messages.rows), messages.rows)
      ensures made == [] ==> !accepted && (wording.replay(row).None? || !lane.Available(at))
      ensures made != [] ==>
                && wording.replay(row).Some? && |made| == 1 && IsReplay(made[0], wording.replay(row).value)
                && accepted == made[0].outcome.Accepted?
    {
      accepted, made := false, [];
      lane.Await();
      var prepared := wording.replay(row);
      if prepared.None? || !lane.Available(at) { return; }
      lane.Await();
      // At most one file, so submitTurn is one submit, and a refused upload is not retried.
      var r;
      ghost var p;
      r, p := lane.Submit(dest, prepared.value.identity, prepared.value.query, ForceSkip,
                          if prepared.value.file.Some? then [prepared.value.file.value] else [], false, Some(row.id));
      made := [p];
      Others();
      accepted := r.Accepted?;
    }

    /** A row whose post is accepted is marked; any other stays waiting. */
    method ReplayRow(row: Store.Row, dest: Destination, at: nat) returns (ghost made: seq<Post>)
      requires Valid() && row.id !in replayed && InTable([row], messages.rows, chat)
      requires !lane.Promoting(dest)
      modifies this`replayed, lane, desk.log, messages
      ensures Valid() && lane.Progress() && !lane.Promoting(dest) && lane.posts == old(lane.posts) + made
      ensures RowsGrow(old(messages.rows), messages.rows)
      ensures replayed == old(replayed) + if made != [] && made[0].outcome.Accepted? then [row.id] else []
      ensures made == [] ==> wording.replay(row).None? || !lane.Available(at)
      ensures made != [] ==> |made| == 1 && wording.replay(row).Some? && IsReplay(made[0], wording.replay(row).value)
    {
      var accepted;
      accepted, made := PostRow(row, dest, at);
      if accepted {
        InTableStays([row], old(messages.rows), messages.rows, chat);
        Accept(row);
      }
    }

    method Accept(row: Store.Row)
      requires Valid() && row.id !in replayed && InTable([row], messages.rows, chat)
      modifies this`replayed, messages
      ensures Valid() && replayed == old(replayed) + [row.id] && RowsGrow(old(messages.rows), messages.rows)
    {
      AcceptedIsMarked(messages.rows, chat, row);
      MarkRelayed(row.id);
      replayed := replayed + [row.id];
    }

    /** Offer every waiting history row of the chat once, oldest first, between two bracket posts. */
    method OnHistoryBatch(at: nat, w: World) returns (ghost list: seq<Store.Row>, ghost resent: seq<Post>, ghost h: History)
      requires Valid() && desk.held == {}
      modifies this`replayed, lane, desk`granted, desk`held, desk`closed, desk.log, messages
      ensures Valid() && desk.held == {} && lane.Progress()
      ensures lane.posts == old(lane.posts) + resent + h.posts && OnlySkips(resent) && AllSkips(h.posts)
      ensures Replayed(wording.replay, list, old(replayed), replayed, h, lane.Available(at))
      ensures h.posts != [] ==> StillListed(list, old(messages.rows), messages.rows, chat)
      ensures h.posts == [] ==>
                || StillListed([], old(messages.rows), messages.rows, chat) || !lane.Available(at) || !w.setupComplete
                || Homeless(lane.isGroup, old(lane.Absent()), old(lane.row), w.lookups) || HasPending(lane.row)
      ensures !old(lane.Available(at)) ==> resent == [] && h.posts == []
    {
      resent, h := [], NO_HISTORY;
      var rows := messages.ListUnrelayedHistory(chat);
      list := rows;
      NothingReplayed(wording.replay, list, replayed, lane.Available(at));
      RowsGrowSelf(messages.rows);
      NoneDropped(messages.rows, messages.rows, chat);
      if rows == [] || !lane.Available(at) || !w.setupComplete { return; }
      WaitingIsNotReplayed(replayed, messages.rows, chat);
      ReplayListInTable(messages.rows, chat);
      ghost var r0 := messages.rows;
      var dest := FindDestination(w.lookups);
      NothingReplayed(wording.replay, list, replayed, lane.Available(at));
      if dest.None? || !lane.Available(at) { return; }
      InTableStays(rows, r0, messages.rows, chat);
      NoneDropped(r0, messages.rows, chat);
      list, resent, h := ReplayTo(dest.value, at, w, rows, r0);
    }

    /** An old common bot's pending post goes first; then the rows. */
    method ReplayTo(dest: Destination, at: nat, w: World, rows: seq<Store.Row>, ghost r0: seq<Store.Row>)
      returns (ghost list: seq<Store.Row>, ghost resent: seq<Post>, ghost h: History)
      requires Valid() && desk.held == {} && RowsGrow(r0, messages.rows) && StillListed(rows, r0, messages.rows, chat)
      requires rows != [] && InTable(rows, messages.rows, chat) && NoDuplicates(Ids(rows))
      requires forall r | r in rows :: r.id !in replayed
      modifies this`replayed, lane, desk`granted, desk`held, desk`closed, desk.log, messages
      ensures Valid() && desk.held == {} && lane.Progress()
      ensures lane.posts == old(lane.posts) + resent + h.posts && OnlySkips(resent) && AllSkips(h.posts)
      ensures Replayed(wording.replay, list, old(replayed), replayed, h, lane.Available(at))
      ensures h.posts != [] ==> StillListed(list, r0, messages.rows, chat)
      ensures h.posts == [] ==> !lane.Available(at) || HasPending(lane.row) || StillListed([], r0, messages.rows, chat)
    {
      list, h := rows, NO_HISTORY;
      var todo;
      todo, resent := Recover(dest, at, w, rows, r0);
      NothingReplayed(wording.replay, list, replayed, lane.Available(at));
      if todo == [] { return; }
      list := todo;
      ghost var r2 := messages.rows;
      h := ReplayBracket(todo, dest, at);
      StillListedLater(list, r0, r2, messages.rows, chat);
      Regroup(old(lane.posts), resent, h.posts);
    }

    /** The rows left to post once nothing of the old bot is pending; none if it stays pending. */
    method Recover(dest: Destination, at: nat, w: World, rows: seq<Store.Row>, ghost r0: seq<Store.Row>)
      returns (todo: seq<Store.Row>, ghost resent: seq<Post>)
      requires Valid() && desk.held == {} && RowsGrow(r0, messages.rows) && StillListed(rows, r0, messages.rows, chat)
      requires rows != [] && InTable(rows, messages.rows, chat) && NoDuplicates(Ids(rows))
      requires forall r | r in rows :: r.id !in replayed
      modifies lane, desk`granted, desk`held, desk`closed, desk.log, messages
      ensures Valid() && desk.held == {} && lane.Progress() && RowsGrow(r0, messages.rows)
      ensures lane.posts == old(lane.posts) + resent && OnlySkips(resent)
      ensures InTable(todo, messages.rows, chat) && NoDuplicates(Ids(todo)) && forall r | r in todo :: r.id !in replayed
      ensures todo != [] ==> StillListed(todo, r0, messages.rows, chat) && (lane.Promoting(dest) ==> !HasPending(lane.row))
      ensures todo == [] ==> !lane.Available(at) || HasPending(lane.row) || StillListed([], r0, messages.rows, chat)
    {
      todo, resent := rows, [];
      if lane.Promoting(dest) {
        var recovered;
        ghost var r1 := messages.rows;
        recovered, resent := RetryPending(dest, w.setupComplete);
        RowsGrowTwice(r0, r1, messages.rows);
        if !recovered || !lane.Available(at) { return [], resent; }
        todo := Reread(r0);
      }
    }

    method Reread(ghost r0: seq<Store.Row>) returns (rows: seq<Store.Row>)
      requires Valid() && RowsGrow(r0, messages.rows)
      ensures StillListed(rows, r0, messages.rows, chat)
      ensures InTable(rows, messages.rows, chat) && NoDuplicates(Ids(rows))
      ensures forall r | r in rows :: r.id !in replayed
    {
      rows := messages.ListUnrelayedHistory(chat);
      WaitingIsNotReplayed(replayed, messages.rows, chat);
      ReplayListInTable(messages.rows, chat);
      NoneMissed(r0, messages.rows, chat);
    }

    method ReplayBracket(list: seq<Store.Row>, dest: Destination, at: nat) returns (ghost h: History)
      requires Valid() && (lane.Promoting(dest) ==> !HasPending(lane.row))
      requires InTable(list, messages.rows, chat) && NoDuplicates(Ids(list))
      requires forall r | r in list :: r.id !in replayed
      modifies this`replayed, lane, desk.log, messages
      ensures Valid() && lane.Progress() && RowsGrow(old(messages.rows), messages.rows)
      ensures lane.posts == old(lane.posts) + h.posts && AllSkips(h.posts) && h.posts != []
      ensures h.posts[0].query == wording.opening(|list|) && h.posts[0].identity == Client
      ensures Replayed(wording.replay, list, old(replayed), replayed, h, lane.Available(at))
    {
      var r;
      ghost var p;
      r, p := lane.Submit(dest, Client, wording.opening(|list|), ForceSkip, [], false, None);
      h := History([p], [], 0, []);
      Others();
      if !r.Accepted? { return; }
      InTableStays(list, old(messages.rows), messages.rows, chat);
      ghost var tried, rowPosts, ids, r1 := 0, [], [], messages.rows;
      tried, rowPosts, ids := ReplayRows(list, dest, at);
      RowsGrowTwice(old(messages.rows), r1, messages.rows);
      ghost var closing := CloseBracket(dest, at);
      PostedSkips(wording.replay, list[..tried], rowPosts, ids);
      h := BracketOf(p, rowPosts, closing, tried, ids, old(lane.posts));
    }

    /** "End of history", unless the chat changed. */
    method CloseBracket(dest: Destination, at: nat) returns (ghost closing: seq<Post>)
      requires Valid() && !lane.Promoting(dest)
      modifies lane
      ensures Valid() && lane.Progress() && lane.posts == old(lane.posts) + closing && AllSkips(closing)
      ensures old(lane.Available(at)) ==> |closing| == 1 && closing[0].query == wording.closing
      ensures !old(lane.Available(at)) ==> !lane.Available(at)
    {
      closing := [];
      if lane.Available(at) {
        var r;
        ghost var q;
        r, q := lane.Submit(dest, Client, wording.closing, ForceSkip, [], false, None);
        closing := [q];
      }
    }

    method ReplayRows(list: seq<Store.Row>, dest: Destination, at: nat)
      returns (ghost tried: nat, ghost made: seq<Post>, ghost ids: seq<string>)
      requires Valid() && !lane.Promoting(dest)
      requires InTable(list, messages.rows, chat) && NoDuplicates(Ids(list))
      requires forall r | r in list :: r.id !in replayed
      modifies this`replayed, lane, desk.log, messages
      ensures Valid() && lane.Progress() && !lane.Promoting(dest) && RowsGrow(old(messages.rows), messages.rows)
      ensures lane.posts == old(lane.posts) + made && replayed == old(replayed) + ids
      ensures tried <= |list| && Posted(wording.replay, list[..tried], made, ids)
      ensures lane.Available(at) ==> tried == |list|
    {
      tried, made, ids := 0, [], [];
      assert list[..0] == [];
      for i := 0 to |list|
        invariant Valid() && lane.Progress() && !lane.Promoting(dest)
        invariant RowsGrow(old(messages.rows), messages.rows) && InTable(list, messages.rows, chat)
        invariant NewFrom(list, i, replayed)
        invariant tried <= i && (tried == i || !lane.Available(at)) && Posted(wording.replay, list[..tried], made, ids)
        invariant lane.posts == old(lane.posts) + made && replayed == old(replayed) + ids
      {
        if !lane.Available(at) { return; }
        ghost var rows, posts, done := messages.rows, lane.posts, replayed;
        RowInTable(list, messages.rows, chat, i);
        ghost var one := ReplayRow(list[i], dest, at);
        InTableStays(list, rows, messages.rows, chat);
        RowsGrowTwice(old(messages.rows), rows, messages.rows);
        NewNext(list, i, done, replayed);
        tried, made, ids := RowsNext(wording.replay, list, i, lane.Available(at), made, ids, one, old(lane.posts), old(replayed));
      }
    }
  }
}
