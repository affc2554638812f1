/**
 * The debounce buffers of the router (src/routing/inboundRouter.ts: handle,
 * touchBurst, flushBuffer, burstQuietMs, senderBufferKey). Timers are explicit:
 * an armed timer may fire at any moment, and a cleared one never does.
 */
module Buffers {
  import opened Common
  import opened Chains

  datatype Message = Message(chat: Chat, isGroup: bool, senderPhone: Option<string>, senderJid: string, messageId: string, isImage: bool)

  /** A message and the epoch its chat had when it was accepted. */
  datatype Item = Item(msg: Message, epoch: nat)

  datatype BufferKey = BufferKey(chat: Chat, party: string)

  datatype Buffer = Buffer(items: seq<Item>, timer: nat)

  /** What a chained job works on. */
  datatype Work =
    | Echo(item: Item)
    | Batch(key: BufferKey, items: seq<Item>, epoch: nat)

  /** The batch a flushed buffer leaves as: all its messages, the epoch of the last one. */
  function FlushedBatch(key: BufferKey, items: seq<Item>): Work
    requires items != []
  {
    Batch(key, items, items[|items|-1].epoch)
  }

  /** Groups are debounced per sender, direct chats per chat. */
  function SenderBufferKey(m: Message): BufferKey {
    BufferKey(m.chat, if m.isGroup then (if m.senderPhone.Some? then m.senderPhone.value else m.senderJid) else m.chat.chatJid)
  }

  /** Two messages share a buffer if and only if they are of one chat and, in a group, of one
      sender: the same phone number, or the same address where no number is known. */
  lemma SameBufferIff(a: Message, b: Message)
    requires a.chat == b.chat ==> a.isGroup == b.isGroup
    ensures SenderBufferKey(a) == SenderBufferKey(b) <==>
              a.chat == b.chat && (!a.isGroup || SenderOf(a) == SenderOf(b))
  {
  }

  function SenderOf(m: Message): string {
    if m.senderPhone.Some? then m.senderPhone.value else m.senderJid
  }

  predicate HoldsImage(items: seq<Item>) {
    exists i | 0 <= i < |items| :: items[i].msg.isImage
  }

  function BurstQuietMs(textMs: int, mediaMs: int, items: seq<Item>, isImage: bool): int {
    if isImage || HoldsImage(items) then Max(textMs, mediaMs) else textMs
  }

  /** The wait is that for text, or with a photo the longer of the two.
      A message leaves at once only if text is not debounced and, should it or its burst hold a
      photo, albums are not either. */
  lemma AtOnceIff(textMs: int, mediaMs: int, items: seq<Item>, isImage: bool)
    ensures BurstQuietMs(textMs, mediaMs, items, isImage) <= 0 <==>
              textMs <= 0 && (mediaMs <= 0 || (!isImage && forall i | 0 <= i < |items| :: !items[i].msg.isImage))
    ensures var ms := BurstQuietMs(textMs, mediaMs, items, isImage);
            if !isImage && (forall i | 0 <= i < |items| :: !items[i].msg.isImage) then ms == textMs
            else ms >= textMs && ms >= mediaMs && (ms == textMs || ms == mediaMs)
  {
  }

  // ------------------------------------------------------------------
  // What a run has done with the messages of one sender
  // ------------------------------------------------------------------

  /** The messages of key `k` in a list of handled ones, in order. */
  function Of(handled: seq<Item>, k: BufferKey): seq<Item> {
    if handled == [] then []
    else
      var last := handled[|handled|-1];
      Of(handled[..|handled|-1], k) + if SenderBufferKey(last.msg) == k then [last] else []
  }

  function ItemsOf(w: Work, k: BufferKey): seq<Item> {
    if w.Batch? && w.key == k then w.items else []
  }

  /** The messages of key `k` over all batches, in the order they were enqueued. */
  function Enqueued(works: seq<Work>, k: BufferKey): seq<Item> {
    if works == [] then [] else Enqueued(works[..|works|-1], k) + ItemsOf(works[|works|-1], k)
  }

  function Open(buffers: map<BufferKey, Buffer>, k: BufferKey): seq<Item> {
    if k in buffers then buffers[k].items else []
  }

  lemma OfExtends(handled: seq<Item>, item: Item, k: BufferKey)
    ensures Of(handled + [item], k) == Of(handled, k) + if SenderBufferKey(item.msg) == k then [item] else []
  {
    assert (handled + [item])[..|handled|] == handled;
  }

  lemma EnqueuedExtends(works: seq<Work>, w: Work, k: BufferKey)
    ensures Enqueued(works + [w], k) == Enqueued(works, k) + ItemsOf(w, k)
  {
    assert (works + [w])[..|works|] == works;
  }

  /** Nothing is lost, doubled or reordered: per key, what was handled is what was
      enqueued followed by what the open buffer still holds. */
  ghost predicate ConservedAt(handled: seq<Item>, works: seq<Work>, buffers: map<BufferKey, Buffer>, k: BufferKey) {
    Of(handled, k) == Enqueued(works, k) + Open(buffers, k)
  }

  ghost predicate Conserved(handled: seq<Item>, works: seq<Work>, buffers: map<BufferKey, Buffer>) {
    forall k :: ConservedAt(handled, works, buffers, k)
  }

  lemma ConservedHolds(handled: seq<Item>, works: seq<Work>, buffers: map<BufferKey, Buffer>, k: BufferKey)
    requires Conserved(handled, works, buffers)
    ensures Of(handled, k) == Enqueued(works, k) + Open(buffers, k)
  {
    assert ConservedAt(handled, works, buffers, k);
  }

  lemma Shift<T>(a: seq<T>, b: seq<T>, c: seq<T>)
    ensures (a + b) + c == a + (b + c)
    ensures a + [] == a
  {
  }

  /** A message that finds no open buffer leaves as a batch of its own. */
  lemma PassedOn(handled: seq<Item>, works: seq<Work>, buffers: map<BufferKey, Buffer>, item: Item)
    requires Conserved(handled, works, buffers) && SenderBufferKey(item.msg) !in buffers
    ensures Conserved(handled + [item], works + [Batch(SenderBufferKey(item.msg), [item], item.epoch)], buffers)
  {
    var w := Batch(SenderBufferKey(item.msg), [item], item.epoch);
    forall k ensures ConservedAt(handled + [item], works + [w], buffers, k) {
      ConservedHolds(handled, works, buffers, k);
      OfExtends(handled, item, k);
      EnqueuedExtends(works, w, k);
      Shift(Enqueued(works, k), Open(buffers, k), []);
    }
  }

  lemma Appended(handled: seq<Item>, works: seq<Work>, buffers: map<BufferKey, Buffer>, item: Item, timer: nat)
    requires Conserved(handled, works, buffers)
    ensures var k := SenderBufferKey(item.msg);
            Conserved(handled + [item], works, buffers[k := Buffer(Open(buffers, k) + [item], timer)])
  {
    var key := SenderBufferKey(item.msg);
    var buffers' := buffers[key := Buffer(Open(buffers, key) + [item], timer)];
    forall k ensures ConservedAt(handled + [item], works, buffers', k) {
      ConservedHolds(handled, works, buffers, k);
      OfExtends(handled, item, k);
      Shift(Enqueued(works, k), Open(buffers, k), [item]);
      Shift(Of(handled, k), [], []);
    }
  }

  lemma Rearmed(handled: seq<Item>, works: seq<Work>, buffers: map<BufferKey, Buffer>, key: BufferKey, timer: nat)
    requires Conserved(handled, works, buffers) && key in buffers
    ensures Conserved(handled, works, buffers[key := buffers[key].(timer := timer)])
  {
    var buffers' := buffers[key := buffers[key].(timer := timer)];
    forall k ensures ConservedAt(handled, works, buffers', k) {
      ConservedHolds(handled, works, buffers, k);
    }
  }

  lemma Flushed(handled: seq<Item>, works: seq<Work>, buffers: map<BufferKey, Buffer>, key: BufferKey, epoch: nat)
    requires Conserved(handled, works, buffers) && key in buffers
    ensures Conserved(handled, works + [Batch(key, buffers[key].items, epoch)], buffers - {key})
  {
    var w := Batch(key, buffers[key].items, epoch);
    var buffers' := buffers - {key};
    forall k ensures ConservedAt(handled, works + [w], buffers', k) {
      ConservedHolds(handled, works, buffers, k);
      EnqueuedExtends(works, w, k);
      Shift(Enqueued(works, k), ItemsOf(w, k), Open(buffers', k));
      Shift(Enqueued(works, k), [], []);
    }
  }

  lemma Echoed(handled: seq<Item>, works: seq<Work>, buffers: map<BufferKey, Buffer>, item: Item)
    requires Conserved(handled, works, buffers)
    ensures Conserved(handled, works + [Echo(item)], buffers)
  {
    forall k ensures ConservedAt(handled, works + [Echo(item)], buffers, k) {
      ConservedHolds(handled, works, buffers, k);
      EnqueuedExtends(works, Echo(item), k);
      Shift(Enqueued(works, k), [], []);
    }
  }

  // ------------------------------------------------------------------
  // No message overtakes an earlier one of its sender
  // ------------------------------------------------------------------

  /** The messages of key `k` in the batches whose job has started. */
  function Begun(works: seq<Work>, stage: seq<Stage>, k: BufferKey): seq<Item>
    requires |stage| == |works|
  {
    if works == [] then []
    else
      var n := |works| - 1;
      Begun(works[..n], stage[..n], k) + if stage[n] == Waiting then [] else ItemsOf(works[n], k)
  }

  /** A batch is chained on its own chat. */
  predicate ChainedByChat(jobs: seq<Job>, works: seq<Work>) {
    |works| == |jobs| && forall i | 0 <= i < |works| && works[i].Batch? :: works[i].key.chat == jobs[i].chat
  }

  lemma {:induction false} AllBegun(jobs: seq<Job>, works: seq<Work>, stage: seq<Stage>, k: BufferKey)
    requires |stage| == |jobs| && ChainedByChat(jobs, works)
    requires forall i | 0 <= i < |jobs| && jobs[i].chat == k.chat :: stage[i] == Settled
    ensures Begun(works, stage, k) == Enqueued(works, k)
    decreases |jobs|
  {
    if jobs != [] {
      var n := |jobs| - 1;
      AllBegun(jobs[..n], works[..n], stage[..n], k);
    }
  }

  /** The messages of a sender whose work has begun are the first ones it sent. */
  lemma {:induction false} BegunIsPrefix(jobs: seq<Job>, works: seq<Work>, stage: seq<Stage>, k: BufferKey)
    requires |stage| == |jobs| && ChainedByChat(jobs, works) && InOrder(jobs, stage)
    ensures Begun(works, stage, k) <= Enqueued(works, k)
    decreases |jobs|
  {
    if jobs != [] {
      var n := |jobs| - 1;
      BegunIsPrefix(jobs[..n], works[..n], stage[..n], k);
      if stage[n] != Waiting && works[n].Batch? && works[n].key == k {
        AllBegun(jobs[..n], works[..n], stage[..n], k);
      }
    }
  }

  /** At any moment: begun work is what the sender sent first, and what has not
      begun is waiting in a later job or in the open buffer. */
  lemma NeverOvertakes(handled: seq<Item>, works: seq<Work>, buffers: map<BufferKey, Buffer>,
                       tails: map<Chat, nat>, jobs: seq<Job>, stage: seq<Stage>, k: BufferKey)
    requires Good(tails, jobs, stage) && ChainedByChat(jobs, works) && Conserved(handled, works, buffers)
    ensures Begun(works, stage, k) <= Of(handled, k)
    ensures Enqueued(works, k) <= Of(handled, k) && Of(handled, k)[|Enqueued(works, k)|..] == Open(buffers, k)
  {
    BegunIsPrefix(jobs, works, stage, k);
    ConservedHolds(handled, works, buffers, k);
  }

  // ------------------------------------------------------------------
  // Timers
  // ------------------------------------------------------------------

  /** Every open buffer has exactly one armed timer, and every armed timer an open buffer. */
  ghost predicate Armed(buffers: map<BufferKey, Buffer>, timers: map<nat, BufferKey>, issued: nat) {
    && (forall k | k in buffers :: buffers[k].timer in timers && timers[buffers[k].timer] == k)
    && (forall t | t in timers :: t < issued && timers[t] in buffers && buffers[timers[t]].timer == t)
  }

  /** A buffer stays open only when the next message of its sender has to join it. */
  ghost predicate Waits(buffers: map<BufferKey, Buffer>, textMs: int, mediaMs: int) {
    forall k | k in buffers :: buffers[k].items != [] && OneSender(buffers[k].items, k) && StaysOpen(buffers[k].items, textMs, mediaMs)
  }

  predicate OneSender(items: seq<Item>, k: BufferKey) {
    forall i | 0 <= i < |items| :: SenderBufferKey(items[i].msg) == k
  }

  /** With the text debounce off, an open buffer holds an image. */
  predicate StaysOpen(items: seq<Item>, textMs: int, mediaMs: int) {
    textMs > 0 || (HoldsImage(items) && Max(textMs, mediaMs) > 0)
  }

  // ------------------------------------------------------------------
  // The router's buffers
  // ------------------------------------------------------------------

  class BurstBuffers {
    const textMs: int
    const mediaMs: int
    const chains: ChainMap
    var clientBuffers: map<BufferKey, Buffer>
    /** Armed timers and what they flush; ids are never reused. */
    var timers: map<nat, BufferKey>
    var issued: nat
    /** What each chained job works on, by job number. */
    var works: seq<Work>
    /** The non-echo messages handled so far. */
    ghost var handled: seq<Item>

    ghost predicate Valid()
      reads this, chains
    {
      && chains.Valid() && ChainedByChat(chains.jobs, works)
      && Conserved(handled, works, clientBuffers)
      && Armed(clientBuffers, timers, issued)
      && Waits(clientBuffers, textMs, mediaMs)
    }

    constructor (textMs: int, mediaMs: int)
      ensures Valid() && handled == [] && works == [] && clientBuffers == map[] && fresh(chains)
      ensures this.textMs == textMs && this.mediaMs == mediaMs
    {
      this.textMs, this.mediaMs := textMs, mediaMs;
      chains := new ChainMap();
      clientBuffers, timers, issued, works, handled := map[], map[], 0, [], [];
      new;
      forall k ensures ConservedAt([], [], map[], k) { }
    }

    method EnqueueBatch(key: BufferKey, items: seq<Item>, epoch: nat)
      requires chains.Valid() && ChainedByChat(chains.jobs, works)
      modifies this`works, chains
      ensures chains.Valid() && ChainedByChat(chains.jobs, works)
      ensures works == old(works) + [Batch(key, items, epoch)]
    {
      var run := chains.Enqueue(key.chat);
      works := works + [Batch(key, items, epoch)];
    }

    /** setTimeout for a buffer that is open or about to be. */
    method Arm(k: BufferKey) returns (t: nat)
      requires forall t | t in timers :: t < issued
      modifies this`timers, this`issued
      ensures t == old(issued) && issued == t + 1 && timers == old(timers)[t := k]
    {
      t := issued;
      issued := issued + 1;
      timers := timers[t := k];
    }

    /** Every message that is not our own echo joins its sender's burst or leaves at once. */
    method Handle(msg: Message, epoch: nat, echo: bool)
      requires Valid()
      modifies this, chains
      ensures Valid()
      ensures echo ==> handled == old(handled) && works == old(works) + [Echo(Item(msg, epoch))] && clientBuffers == old(clientBuffers)
      ensures !echo ==> handled == old(handled) + [Item(msg, epoch)]
      ensures !echo && BurstQuietMs(textMs, mediaMs, old(Open(clientBuffers, SenderBufferKey(msg))), msg.isImage) <= 0 ==>
                SenderBufferKey(msg) !in old(clientBuffers) && clientBuffers == old(clientBuffers)
                && works == old(works) + [FlushedBatch(SenderBufferKey(msg), [Item(msg, epoch)])]
      ensures !echo && BurstQuietMs(textMs, mediaMs, old(Open(clientBuffers, SenderBufferKey(msg))), msg.isImage) > 0 ==>
                works == old(works) && SenderBufferKey(msg) in clientBuffers
                && clientBuffers[SenderBufferKey(msg)].items == old(Open(clientBuffers, SenderBufferKey(msg))) + [Item(msg, epoch)]
    {
      var item := Item(msg, epoch);
      if echo {
        Echoed(handled, works, clientBuffers, item);
        var run := chains.Enqueue(msg.chat);
        works := works + [Echo(item)];
        return;
      }
      var bufKey := SenderBufferKey(msg);
      var quietMs := BurstQuietMs(textMs, mediaMs, Open(clientBuffers, bufKey), msg.isImage);
      if quietMs <= 0 {
        PassedOn(handled, works, clientBuffers, item);
        handled := handled + [item];
        EnqueueBatch(bufKey, [item], epoch);
        return;
      }
      Collect(item, bufKey);
    }

    /** Open or extend the buffer, and restart its quiet window. */
    method Collect(item: Item, bufKey: BufferKey)
      requires Valid() && bufKey == SenderBufferKey(item.msg)
      requires BurstQuietMs(textMs, mediaMs, Open(clientBuffers, bufKey), item.msg.isImage) > 0
      modifies this`clientBuffers, this`timers, this`issued, this`handled
      ensures Valid() && handled == old(handled) + [item] && bufKey in clientBuffers
      ensures clientBuffers[bufKey].items == Open(old(clientBuffers), bufKey) + [item]
    {
      ghost var before := clientBuffers;
      var items := Open(clientBuffers, bufKey) + [item];
      if bufKey in clientBuffers {
        timers := timers - {clientBuffers[bufKey].timer};
      }
      var t := Arm(bufKey);
      Appended(handled, works, clientBuffers, item, t);
      handled := handled + [item];
      clientBuffers := clientBuffers[bufKey := Buffer(items, t)];
      StillWaits(before, bufKey, item, t, textMs, mediaMs);
    }

    /** A photo still downloading keeps its sender's burst open. */
    method TouchBurst(msg: Message, echo: bool) returns (held: bool)
      requires Valid()
      modifies this`clientBuffers, this`timers, this`issued
      ensures Valid()
      ensures held <==> !echo && SenderBufferKey(msg) in old(clientBuffers) && Max(textMs, mediaMs) > 0
      ensures forall k :: Open(clientBuffers, k) == Open(old(clientBuffers), k)
    {
      var bufKey := SenderBufferKey(msg);
      if echo || bufKey !in clientBuffers { return false; }
      var quietMs := BurstQuietMs(textMs, mediaMs, clientBuffers[bufKey].items, true);
      if quietMs <= 0 { return false; }
      timers := timers - {clientBuffers[bufKey].timer};
      var t := Arm(bufKey);
      Rearmed(handled, works, clientBuffers, bufKey, t);
      clientBuffers := clientBuffers[bufKey := clientBuffers[bufKey].(timer := t)];
      held := true;
    }

    /** An armed timer fires: the whole buffer leaves as one batch with its last epoch. */
    method Fire(t: nat)
      requires Valid() && t in timers
      modifies this`clientBuffers, this`timers, this`works, chains
      ensures Valid()
      ensures clientBuffers == old(clientBuffers) - {old(timers)[t]}
      ensures works == old(works) + [FlushedBatch(old(timers)[t], old(clientBuffers)[old(timers)[t]].items)]
    {
      var bufKey := timers[t];
      timers := timers - {t};
      FlushBuffer(bufKey);
    }

    method FlushBuffer(bufKey: BufferKey)
      requires chains.Valid() && ChainedByChat(chains.jobs, works)
      requires Conserved(handled, works, clientBuffers) && Waits(clientBuffers, textMs, mediaMs)
      requires bufKey in clientBuffers && Armed(clientBuffers - {bufKey}, timers - {clientBuffers[bufKey].timer}, issued)
      modifies this`clientBuffers, this`timers, this`works, chains
      ensures Valid()
      ensures clientBuffers == old(clientBuffers) - {bufKey}
      ensures works == old(works) + [FlushedBatch(bufKey, old(clientBuffers)[bufKey].items)]
    {
      var buf := clientBuffers[bufKey];
      var lastEpoch := buf.items[|buf.items|-1].epoch;
      Flushed(handled, works, clientBuffers, bufKey, lastEpoch);
      clientBuffers := clientBuffers - {bufKey};
      timers := timers - {buf.timer};
      EnqueueBatch(bufKey, buf.items, lastEpoch);
    }
  }

  lemma StillWaits(buffers: map<BufferKey, Buffer>, key: BufferKey, item: Item, timer: nat, textMs: int, mediaMs: int)
    requires Waits(buffers, textMs, mediaMs) && key == SenderBufferKey(item.msg)
    requires BurstQuietMs(textMs, mediaMs, Open(buffers, key), item.msg.isImage) > 0
    ensures Waits(buffers[key := Buffer(Open(buffers, key) + [item], timer)], textMs, mediaMs)
  {
    var items := Open(buffers, key) + [item];
    if item.msg.isImage {
      assert items[|items|-1].msg.isImage;
    } else if HoldsImage(Open(buffers, key)) {
      var i :| 0 <= i < |Open(buffers, key)| && Open(buffers, key)[i].msg.isImage;
      assert items[i].msg.isImage;
    }
  }
}
