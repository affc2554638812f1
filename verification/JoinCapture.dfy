/**
 * One WhatsApp connection around group joins (src/whatsapp/socket.ts):
 * membership events, join waits, history capture, live messages. Inbound jobs
 * run one at a time; at every await any number of membership events, links and
 * unlinks may come in. A timer only queues a job, so it is a job like any other.
 */
module JoinCapture {
  import opened Common
  import opened JoinTraces
  import opened MessageStores

  datatype Wait = Wait(messages: seq<Live>, epoch: nat)

  /** A parsed live message; `ours` says the outbound log knows it as our own echo. */
  datatype Live = Live(chat: Chat, isGroup: bool, id: string, ts: nat, ours: bool)

  /** A parsed history entry. */
  datatype Old = Old(chat: Chat, id: string, ts: nat, ours: bool)

  function Ids(messages: seq<Live>): seq<string> {
    if messages == [] then [] else Ids(messages[..|messages|-1]) + [messages[|messages|-1].id]
  }

  function EpochIn(epochs: map<Chat, nat>, c: Chat): nat {
    if c in epochs then epochs[c] else 0
  }

  // ------------------------------------------------------------------
  // The state agrees with the trace
  // ------------------------------------------------------------------

  ghost predicate EpochsMatch(trace: seq<Event>, epochs: map<Chat, nat>) {
    forall c :: EpochAt(trace, epochs, c)
  }

  predicate EpochAt(trace: seq<Event>, epochs: map<Chat, nat>, c: Chat) {
    EpochIn(epochs, c) == EpochOf(trace, c)
  }

  ghost predicate WaitsMatch(trace: seq<Event>, waits: map<Chat, Wait>) {
    forall c :: WaitAt(trace, waits, c)
  }

  /** An open wait has the group's current epoch and exactly the messages held. */
  predicate WaitAt(trace: seq<Event>, waits: map<Chat, Wait>, c: Chat) {
    && (c in waits <==> WaitOpen(trace, c))
    && (c in waits ==> waits[c].epoch == EpochOf(trace, c) && Ids(waits[c].messages) == HeldIn(trace, c) && AllFrom(waits[c].messages, c))
  }

  predicate AllFrom(messages: seq<Live>, c: Chat) {
    forall i | 0 <= i < |messages| :: messages[i].isGroup && messages[i].chat == c
  }

  ghost predicate Agrees(trace: seq<Event>, epochs: map<Chat, nat>, waits: map<Chat, Wait>) {
    Lawful(trace) && EpochsMatch(trace, epochs) && WaitsMatch(trace, waits)
  }

  lemma AgreesAt(trace: seq<Event>, epochs: map<Chat, nat>, waits: map<Chat, Wait>, c: Chat)
    requires Agrees(trace, epochs, waits)
    ensures EpochIn(epochs, c) == EpochOf(trace, c) && WaitAt(trace, waits, c)
  {
    assert EpochAt(trace, epochs, c) && WaitAt(trace, waits, c);
  }

  /** Every open wait belongs to its group's current epoch and holds what was taken up in it. */
  lemma WaitIsCurrent(trace: seq<Event>, epochs: map<Chat, nat>, waits: map<Chat, Wait>, c: Chat)
    requires Agrees(trace, epochs, waits) && c in waits
    ensures waits[c].epoch == EpochIn(epochs, c) && Ids(waits[c].messages) == HeldIn(trace, c)
  {
    AgreesAt(trace, epochs, waits, c);
  }

  /** The old wait goes; a new one opens empty, for the new epoch. */
  function WithJoin(waits: map<Chat, Wait>, c: Chat, opens: bool, epoch: nat): map<Chat, Wait> {
    if opens then waits[c := Wait([], epoch)] else waits - {c}
  }

  lemma AfterJoined(trace: seq<Event>, epochs: map<Chat, nat>, waits: map<Chat, Wait>, c: Chat, opens: bool)
    requires Agrees(trace, epochs, waits)
    ensures var n := EpochIn(epochs, c) + 1;
            Agrees(trace + [Joined(c, opens)], epochs[c := n], WithJoin(waits, c, opens, n))
  {
    var n := EpochIn(epochs, c) + 1;
    var trace', epochs', waits' := trace + [Joined(c, opens)], epochs[c := n], WithJoin(waits, c, opens, n);
    Extend(trace, Joined(c, opens));
    AgreesAt(trace, epochs, waits, c);
    forall d ensures EpochAt(trace', epochs', d) && WaitAt(trace', waits', d) {
      AgreesAt(trace, epochs, waits, d);
    }
  }

  lemma AfterLeft(trace: seq<Event>, epochs: map<Chat, nat>, waits: map<Chat, Wait>, c: Chat)
    requires Agrees(trace, epochs, waits)
    ensures Agrees(trace + [Left(c)], epochs[c := EpochIn(epochs, c) + 1], waits - {c})
  {
    var epochs' := epochs[c := EpochIn(epochs, c) + 1];
    Extend(trace, Left(c));
    forall d ensures EpochAt(trace + [Left(c)], epochs', d) && WaitAt(trace + [Left(c)], waits - {c}, d) {
      AgreesAt(trace, epochs, waits, d);
    }
  }

  lemma AfterCleared(trace: seq<Event>, epochs: map<Chat, nat>, waits: map<Chat, Wait>)
    requires Agrees(trace, epochs, waits)
    ensures Agrees(trace + [Cleared], epochs, map[])
  {
    Extend(trace, Cleared);
    forall d ensures EpochAt(trace + [Cleared], epochs, d) && WaitAt(trace + [Cleared], map[], d) {
      AgreesAt(trace, epochs, waits, d);
    }
  }

  lemma AfterHeld(trace: seq<Event>, epochs: map<Chat, nat>, waits: map<Chat, Wait>, m: Live)
    requires Agrees(trace, epochs, waits) && m.chat in waits && m.isGroup
    ensures Agrees(trace + [Held(m.chat, m.id)], epochs, waits[m.chat := Wait(waits[m.chat].messages + [m], waits[m.chat].epoch)])
  {
    var c := m.chat;
    AgreesAt(trace, epochs, waits, c);
    var waits' := waits[c := Wait(waits[c].messages + [m], waits[c].epoch)];
    Extend(trace, Held(c, m.id));
    assert (waits[c].messages + [m])[..|waits[c].messages|] == waits[c].messages;
    forall d ensures EpochAt(trace + [Held(c, m.id)], epochs, d) && WaitAt(trace + [Held(c, m.id)], waits', d) {
      AgreesAt(trace, epochs, waits, d);
    }
  }

  lemma AfterReleased(trace: seq<Event>, epochs: map<Chat, nat>, waits: map<Chat, Wait>, c: Chat)
    requires Agrees(trace, epochs, waits) && c in waits && !Unoffered(trace, c)
    ensures Agrees(trace + [Released(c, waits[c].epoch, Ids(waits[c].messages))], epochs, waits - {c})
  {
    var e := Released(c, waits[c].epoch, Ids(waits[c].messages));
    AgreesAt(trace, epochs, waits, c);
    Extend(trace, e);
    forall d ensures EpochAt(trace + [e], epochs, d) && WaitAt(trace + [e], waits - {c}, d) {
      AgreesAt(trace, epochs, waits, d);
    }
  }

  /** Events that change neither epochs nor waits. */
  lemma AfterQuiet(trace: seq<Event>, epochs: map<Chat, nat>, waits: map<Chat, Wait>, e: Event)
    requires Agrees(trace, epochs, waits)
    requires e.Captured? || e.Offered? || (e.Routed? && e.chat !in waits && e.epoch == EpochIn(epochs, e.chat))
    ensures Agrees(trace + [e], epochs, waits)
  {
    Extend(trace, e);
    if e.Routed? { AgreesAt(trace, epochs, waits, e.chat); }
    forall d ensures EpochAt(trace + [e], epochs, d) && WaitAt(trace + [e], waits, d) {
      AgreesAt(trace, epochs, waits, d);
    }
  }

  // ------------------------------------------------------------------
  // One route per stored group message
  // ------------------------------------------------------------------

  datatype Name = Name(chat: Chat, id: string)

  ghost predicate Distinct(names: seq<Name>) {
    forall i, j | 0 <= i < j < |names| :: names[i] != names[j]
  }

  predicate IsLiveRow(rows: seq<Row>, n: Name) {
    Holds(rows, n.chat, n.id) && !rows[Find(rows, n.chat, n.id)].isHistory
  }

  predicate IsRelayedHistory(rows: seq<Row>, n: Name) {
    Holds(rows, n.chat, n.id) && rows[Find(rows, n.chat, n.id)].isHistory && rows[Find(rows, n.chat, n.id)].relayed
  }

  ghost predicate OneRoute(rows: seq<Row>, live: seq<Name>, replayed: seq<Name>) {
    && Unique(rows) && Distinct(live) && Distinct(replayed)
    && (forall i | 0 <= i < |live| :: IsLiveRow(rows, live[i]))
    && (forall i | 0 <= i < |replayed| :: IsRelayedHistory(rows, replayed[i]))
  }

  /** No stored group message takes both routes. */
  lemma NeverBothRoutes(rows: seq<Row>, live: seq<Name>, replayed: seq<Name>, i: nat, j: nat)
    requires OneRoute(rows, live, replayed) && i < |live| && j < |replayed|
    ensures live[i] != replayed[j]
  {
    assert IsLiveRow(rows, live[i]) && IsRelayedHistory(rows, replayed[j]);
  }

  lemma InsertKeepsRoutes(rows: seq<Row>, live: seq<Name>, replayed: seq<Name>, c: Chat, id: string, ts: nat, isHistory: bool)
    requires OneRoute(rows, live, replayed)
    ensures OneRoute(Inserted(rows, c, id, ts, isHistory), live, replayed)
    ensures !Holds(rows, c, id) && !isHistory ==> Name(c, id) !in live && IsLiveRow(Inserted(rows, c, id, ts, isHistory), Name(c, id))
  {
    var rows' := Inserted(rows, c, id, ts, isHistory);
    KindIsFixed(rows, c, id, ts, isHistory, c, id);
    forall n: Name | Holds(rows, n.chat, n.id)
      ensures Holds(rows', n.chat, n.id) && rows'[Find(rows', n.chat, n.id)] == rows[Find(rows, n.chat, n.id)]
    {
      SameRow(rows, rows', n);
    }
    if !Holds(rows, c, id) {
      assert rows'[|rows|].chat == c && rows'[|rows|].id == id;
      assert Find(rows', c, id) == |rows|;
    }
  }

  lemma SameRow(rows: seq<Row>, more: seq<Row>, n: Name)
    requires Unique(more) && rows <= more && Holds(rows, n.chat, n.id)
    ensures Holds(more, n.chat, n.id) && more[Find(more, n.chat, n.id)] == rows[Find(rows, n.chat, n.id)]
  {
    var k := Find(rows, n.chat, n.id);
    assert more[k] == rows[k];
  }

  lemma MarkKeepsRoutes(rows: seq<Row>, live: seq<Name>, replayed: seq<Name>, c: Chat, id: string)
    requires OneRoute(rows, live, replayed)
    ensures OneRoute(Marked(rows, c, id), live, replayed)
    ensures Holds(rows, c, id) && rows[Find(rows, c, id)].isHistory ==> IsRelayedHistory(Marked(rows, c, id), Name(c, id))
  {
    KindIsFixed(rows, c, id, 0, false, c, id);
    var marked := Marked(rows, c, id);
    forall n: Name | Holds(rows, n.chat, n.id) ensures Holds(marked, n.chat, n.id) && SameButRelayed(marked[Find(marked, n.chat, n.id)], rows[Find(rows, n.chat, n.id)]) {
      MarkedRow(rows, c, id, n);
    }
    if Holds(rows, c, id) { MarkedItself(rows, c, id); }
  }

  predicate SameButRelayed(a: Row, b: Row) {
    a.chat == b.chat && a.id == b.id && a.isHistory == b.isHistory && (b.relayed ==> a.relayed)
  }

  lemma MarkedRow(rows: seq<Row>, c: Chat, id: string, n: Name)
    requires Unique(rows) && Holds(rows, n.chat, n.id)
    ensures var marked := Marked(rows, c, id);
            Holds(marked, n.chat, n.id) && SameButRelayed(marked[Find(marked, n.chat, n.id)], rows[Find(rows, n.chat, n.id)])
  {
    var marked, k := Marked(rows, c, id), Find(rows, n.chat, n.id);
    assert marked[k].chat == n.chat && marked[k].id == n.id;
    var f := Find(marked, n.chat, n.id);
    assert rows[f].chat == n.chat && rows[f].id == n.id;
  }

  lemma MarkedItself(rows: seq<Row>, c: Chat, id: string)
    requires Unique(rows) && Holds(rows, c, id)
    ensures var marked := Marked(rows, c, id);
            Holds(marked, c, id) && marked[Find(marked, c, id)] == rows[Find(rows, c, id)].(relayed := true)
  {
    var marked, k := Marked(rows, c, id), Find(rows, c, id);
    assert marked[k].chat == c && marked[k].id == id;
    var f := Find(marked, c, id);
    assert rows[f].chat == c && rows[f].id == id;
  }

  // ------------------------------------------------------------------
  // What an await may change
  // ------------------------------------------------------------------

  /** In an unchanged epoch no wait opens or grows, one goes only when the connection is linked
      anew, and no history is captured. */
  predicate PassedAt(t0: seq<Event>, w0: map<Chat, Wait>, t1: seq<Event>, w1: map<Chat, Wait>, c: Chat) {
    && EpochOf(t0, c) <= EpochOf(t1, c)
    && (EpochOf(t0, c) == EpochOf(t1, c) ==>
          && (c in w1 ==> c in w0 && w1[c] == w0[c])
          && (c in w0 ==> c in w1 || ClearedSince(t0, t1))
          && (Unoffered(t1, c) ==> Unoffered(t0, c)))
  }

  ghost predicate Passed(t0: seq<Event>, w0: map<Chat, Wait>, t1: seq<Event>, w1: map<Chat, Wait>) {
    t0 <= t1 && forall c :: PassedAt(t0, w0, t1, w1, c)
  }

  lemma PassedTwice(t0: seq<Event>, w0: map<Chat, Wait>, t1: seq<Event>, w1: map<Chat, Wait>, t2: seq<Event>, w2: map<Chat, Wait>)
    requires Passed(t0, w0, t1, w1) && Passed(t1, w1, t2, w2)
    ensures Passed(t0, w0, t2, w2)
  {
    forall c ensures PassedAt(t0, w0, t2, w2, c) {
      assert PassedAt(t0, w0, t1, w1, c) && PassedAt(t1, w1, t2, w2, c);
      ClearedLater(t0, t1, t2);
    }
  }

  /** No link or unlink in between; as a predicate of its own for runs of quiet events. */
  predicate NotCleared(t0: seq<Event>, t1: seq<Event>) {
    !ClearedSince(t0, t1)
  }

  lemma NotClearedTwice(t0: seq<Event>, t1: seq<Event>, t2: seq<Event>)
    requires t0 <= t1 <= t2 && NotCleared(t0, t1) && NotCleared(t1, t2)
    ensures NotCleared(t0, t2)
  {
    forall i | |t0| <= i < |t2| ensures !t2[i].Cleared? {
      if i < |t1| { assert t1[i] == t2[i]; }
    }
  }

  lemma PendingQuiet(t0: seq<Event>, t1: seq<Event>, pending: set<Chat>)
    requires t0 <= t1 && SameEpochs(t0, t1)
    ensures PendingKept(t0, pending, t1, pending)
  {
    forall c ensures PendingAt(t0, pending, t1, pending, c) {
      assert EpochOf(t1, c) == EpochOf(t0, c);
    }
  }

  predicate OfferedSince(t0: seq<Event>, t1: seq<Event>, c: Chat) {
    exists i | |t0| <= i < |t1| :: t1[i] == Offered(c)
  }

  lemma OfferedEarlier(t0: seq<Event>, t1: seq<Event>, t2: seq<Event>, c: Chat)
    requires t0 < t1 <= t2 && t1[|t1|-1] == Offered(c)
    ensures OfferedSince(t0, t2, c)
  {
    assert t2[|t1|-1] == t1[|t1|-1];
  }

  lemma OfferedLater(t0: seq<Event>, t1: seq<Event>, t2: seq<Event>, c: Chat)
    requires t0 <= t1 <= t2 && OfferedSince(t1, t2, c)
    ensures OfferedSince(t0, t2, c)
  {
    var i :| |t1| <= i < |t2| && t2[i] == Offered(c);
    assert t2[i] == Offered(c);
  }

  lemma ClearedLater(t0: seq<Event>, t1: seq<Event>, t2: seq<Event>)
    requires t0 <= t1 <= t2
    ensures ClearedSince(t0, t1) || ClearedSince(t1, t2) ==> ClearedSince(t0, t2)
  {
    if ClearedSince(t0, t1) {
      var i :| |t0| <= i < |t1| && t1[i].Cleared?;
      assert t2[i] == t1[i];
    }
  }

  lemma PassedEvent(trace: seq<Event>, waits: map<Chat, Wait>, e: Event, waits': map<Chat, Wait>)
    requires !e.Captured?
    requires e.Cleared? || forall c | c in waits && c !in waits' :: e == Left(c) || (e.Joined? && e.chat == c)
    requires forall c :: c in waits' ==> (c in waits && waits'[c] == waits[c]) || (e.Joined? && e.chat == c)
    ensures Passed(trace, waits, trace + [e], waits')
  {
    Extend(trace, e);
    assert (trace + [e])[|trace|] == e;
    forall c ensures PassedAt(trace, waits, trace + [e], waits', c) {
    }
  }

  lemma PassedJoin(trace: seq<Event>, waits: map<Chat, Wait>, c: Chat, opens: bool, epoch: nat)
    ensures Passed(trace, waits, trace + [Joined(c, opens)], WithJoin(waits, c, opens, epoch))
  {
    PassedEvent(trace, waits, Joined(c, opens), WithJoin(waits, c, opens, epoch));
  }

  lemma PassedCleared(trace: seq<Event>, waits: map<Chat, Wait>)
    ensures Passed(trace, waits, trace + [Cleared], map[])
  {
    PassedEvent(trace, waits, Cleared, map[]);
  }

  /** In an unchanged epoch no wait opens. */
  predicate NoneOpenedAt(t0: seq<Event>, w0: map<Chat, Wait>, t1: seq<Event>, w1: map<Chat, Wait>, c: Chat) {
    EpochOf(t0, c) <= EpochOf(t1, c) && (EpochOf(t0, c) == EpochOf(t1, c) && c in w1 ==> c in w0)
  }

  ghost predicate NoneOpened(t0: seq<Event>, w0: map<Chat, Wait>, t1: seq<Event>, w1: map<Chat, Wait>) {
    forall c :: NoneOpenedAt(t0, w0, t1, w1, c)
  }

  lemma PassedOpensNone(t0: seq<Event>, w0: map<Chat, Wait>, t1: seq<Event>, w1: map<Chat, Wait>)
    requires Passed(t0, w0, t1, w1)
    ensures NoneOpened(t0, w0, t1, w1)
  {
    forall c ensures NoneOpenedAt(t0, w0, t1, w1, c) {
      assert PassedAt(t0, w0, t1, w1, c);
    }
  }

  lemma NoneOpenedTwice(t0: seq<Event>, w0: map<Chat, Wait>, t1: seq<Event>, w1: map<Chat, Wait>, t2: seq<Event>, w2: map<Chat, Wait>)
    requires NoneOpened(t0, w0, t1, w1) && NoneOpened(t1, w1, t2, w2)
    ensures NoneOpened(t0, w0, t2, w2)
  {
    forall c ensures NoneOpenedAt(t0, w0, t2, w2, c) {
      assert NoneOpenedAt(t0, w0, t1, w1, c) && NoneOpenedAt(t1, w1, t2, w2, c);
    }
  }

  /** An event that is no membership change opens no wait. */
  lemma QuietOpensNone(trace: seq<Event>, w0: map<Chat, Wait>, e: Event, w1: map<Chat, Wait>)
    requires !e.Joined? && w1.Keys <= w0.Keys
    ensures NoneOpened(trace, w0, trace + [e], w1)
  {
    Extend(trace, e);
    forall c ensures NoneOpenedAt(trace, w0, trace + [e], w1, c) { }
  }

  lemma NothingOpens(trace: seq<Event>, waits: map<Chat, Wait>)
    ensures NoneOpened(trace, waits, trace, waits)
  {
    forall c ensures NoneOpenedAt(trace, waits, trace, waits, c) { }
  }

  /** A group stays pending unless its membership changes or the connection is linked anew, and
      becomes pending only with its membership. */
  predicate PendingAt(t0: seq<Event>, p0: set<Chat>, t1: seq<Event>, p1: set<Chat>, c: Chat) {
    && EpochOf(t0, c) <= EpochOf(t1, c)
    && (c in p0 ==> c in p1 || EpochOf(t0, c) != EpochOf(t1, c) || ClearedSince(t0, t1))
    && (c in p1 ==> c in p0 || EpochOf(t0, c) != EpochOf(t1, c))
  }

  predicate ClearedSince(t0: seq<Event>, t1: seq<Event>) {
    exists i | |t0| <= i < |t1| :: t1[i].Cleared?
  }

  ghost predicate PendingKept(t0: seq<Event>, p0: set<Chat>, t1: seq<Event>, p1: set<Chat>) {
    t0 <= t1 && forall c :: PendingAt(t0, p0, t1, p1, c)
  }

  lemma PendingSelf(trace: seq<Event>, pending: set<Chat>)
    ensures PendingKept(trace, pending, trace, pending)
  {
    forall c ensures PendingAt(trace, pending, trace, pending, c) { }
  }

  lemma PendingTwice(t0: seq<Event>, p0: set<Chat>, t1: seq<Event>, p1: set<Chat>, t2: seq<Event>, p2: set<Chat>)
    requires PendingKept(t0, p0, t1, p1) && PendingKept(t1, p1, t2, p2)
    ensures PendingKept(t0, p0, t2, p2)
  {
    forall c ensures PendingAt(t0, p0, t2, p2, c) {
      assert PendingAt(t0, p0, t1, p1, c) && PendingAt(t1, p1, t2, p2, c);
      ClearedLater(t0, t1, t2);
    }
  }

  lemma PendingEvent(trace: seq<Event>, pending: set<Chat>, e: Event, pending': set<Chat>)
    requires e.Cleared? || forall c | c in pending && c !in pending' :: e == Left(c)
    requires forall c | c in pending' && c !in pending :: e.Joined? && e.chat == c
    ensures PendingKept(trace, pending, trace + [e], pending')
  {
    Extend(trace, e);
    assert (trace + [e])[|trace|] == e;
    forall c ensures PendingAt(trace, pending, trace + [e], pending', c) { }
  }

  lemma PendingLeft(trace: seq<Event>, pending: set<Chat>, c: Chat)
    ensures PendingKept(trace, pending, trace + [Left(c)], pending - {c})
  {
    PendingEvent(trace, pending, Left(c), pending - {c});
  }

  lemma PendingJoin(trace: seq<Event>, pending: set<Chat>, c: Chat, opens: bool, pending': set<Chat>)
    requires pending <= pending' <= pending + {c}
    ensures PendingKept(trace, pending, trace + [Joined(c, opens)], pending')
  {
    PendingEvent(trace, pending, Joined(c, opens), pending');
  }

  // ------------------------------------------------------------------
  // Nothing stored is lost
  // ------------------------------------------------------------------

  ghost predicate StillHeld(a: seq<Row>, b: seq<Row>) {
    forall c, id :: Holds(a, c, id) ==> Holds(b, c, id)
  }

  ghost predicate SameHeld(a: seq<Row>, b: seq<Row>) {
    forall c, id :: Holds(a, c, id) <==> Holds(b, c, id)
  }

  lemma {:induction false} DueSame(messages: seq<Live>, c: Chat, a: seq<Row>, b: seq<Row>, broken: nat -> bool)
    requires SameHeld(a, b)
    ensures Due(messages, c, a, broken) == Due(messages, c, b, broken)
  {
    if messages != [] { DueSame(messages[..|messages|-1], c, a, b, broken); }
  }

  /** Every entry is in the table. */
  ghost predicate Stored(rows: seq<Row>, c: Chat, entries: seq<Old>) {
    forall i | 0 <= i < |entries| :: Holds(rows, c, entries[i].id)
  }

  lemma StoredNext(a: seq<Row>, b: seq<Row>, c: Chat, entries: seq<Old>, i: nat)
    requires i < |entries| && Stored(a, c, entries[..i]) && StillHeld(a, b) && Holds(b, c, entries[i].id)
    ensures Stored(b, c, entries[..i+1])
  {
    var longer := entries[..i+1];
    forall k | 0 <= k < |longer| ensures Holds(b, c, longer[k].id) {
      if k < i { assert entries[..i][k] == entries[k]; }
    }
  }

  lemma StoredAll(rows: seq<Row>, c: Chat, entries: seq<Old>)
    requires Stored(rows, c, ReverseSorted(entries))
    ensures Stored(rows, c, entries)
  {
    SortedIsAll(entries);
    var sorted := ReverseSorted(entries);
    forall i | 0 <= i < |entries| ensures Holds(rows, c, entries[i].id) {
      assert entries[i] in multiset(sorted);
      var k :| 0 <= k < |sorted| && sorted[k] == entries[i];
    }
  }

  predicate Lists(entries: seq<Old>, id: string) {
    exists i | 0 <= i < |entries| :: entries[i].id == id
  }

  /** The table has what it had and the entries of group c, nothing else. */
  ghost predicate Brought(a: seq<Row>, b: seq<Row>, c: Chat, entries: seq<Old>) {
    forall d, id :: Holds(b, d, id) <==> Holds(a, d, id) || (d == c && Lists(entries, id))
  }

  lemma BroughtNext(r0: seq<Row>, a: seq<Row>, b: seq<Row>, c: Chat, entries: seq<Old>, i: nat)
    requires i < |entries| && Brought(r0, a, c, entries[..i]) && Holds(b, c, entries[i].id)
    requires forall d, id | !(d == c && id == entries[i].id) :: Holds(b, d, id) <==> Holds(a, d, id)
    requires StillHeld(a, b)
    ensures Brought(r0, b, c, entries[..i+1])
  {
    var shorter, longer := entries[..i], entries[..i+1];
    assert longer[i] == entries[i];
    forall d, id ensures Holds(b, d, id) <==> Holds(r0, d, id) || (d == c && Lists(longer, id)) {
      if Lists(shorter, id) {
        var k :| 0 <= k < i && shorter[k].id == id;
        assert longer[k] == shorter[k];
      }
      if Lists(longer, id) {
        var k :| 0 <= k < |longer| && longer[k].id == id;
        if k < i { assert shorter[k] == longer[k]; }
      }
    }
  }

  lemma BroughtAll(a: seq<Row>, b: seq<Row>, c: Chat, entries: seq<Old>)
    requires Brought(a, b, c, ReverseSorted(entries))
    ensures Brought(a, b, c, entries)
  {
    SortedIsAll(entries);
    var sorted := ReverseSorted(entries);
    forall d, id ensures Holds(b, d, id) <==> Holds(a, d, id) || (d == c && Lists(entries, id)) {
      if Lists(entries, id) {
        var k :| 0 <= k < |entries| && entries[k].id == id;
        assert entries[k] in multiset(sorted);
        var n :| 0 <= n < |sorted| && sorted[n] == entries[k];
      }
      if Lists(sorted, id) {
        var k :| 0 <= k < |sorted| && sorted[k].id == id;
        assert sorted[k] in multiset(entries);
        var n :| 0 <= n < |entries| && entries[n] == sorted[k];
      }
    }
  }

  ghost predicate SameEpochs(t0: seq<Event>, t1: seq<Event>) {
    forall d :: EpochOf(t1, d) == EpochOf(t0, d)
  }

  lemma InsertStores(rows: seq<Row>, c: Chat, id: string, ts: nat, isHistory: bool)
    requires Unique(rows)
    ensures StillHeld(rows, Inserted(rows, c, id, ts, isHistory)) && Holds(Inserted(rows, c, id, ts, isHistory), c, id)
  {
    var rows' := Inserted(rows, c, id, ts, isHistory);
    forall d, i | Holds(rows, d, i) ensures Holds(rows', d, i) {
      KindIsFixed(rows, c, id, ts, isHistory, d, i);
    }
    if !Holds(rows, c, id) {
      assert rows'[|rows|].chat == c && rows'[|rows|].id == id;
    }
  }

  lemma MarkStores(rows: seq<Row>, c: Chat, id: string)
    requires Unique(rows)
    ensures StillHeld(rows, Marked(rows, c, id)) && SameHeld(rows, Marked(rows, c, id))
  {
    var marked := Marked(rows, c, id);
    forall d, i | Holds(rows, d, i) ensures Holds(marked, d, i) {
      KindIsFixed(rows, c, id, 0, false, d, i);
    }
    forall d, i | Holds(marked, d, i) ensures Holds(rows, d, i) {
      var n := Find(marked, d, i);
      assert rows[n].chat == d && rows[n].id == i;
    }
  }

  // ------------------------------------------------------------------
  // Orders
  // ------------------------------------------------------------------

  /** `names` are some of the messages, in their order. */
  predicate Picked(names: seq<Name>, messages: seq<Live>) {
    names == [] ||
    (messages != [] &&
     var front, last := messages[..|messages|-1], messages[|messages|-1];
     (Picked(names, front) || (names[|names|-1] == Name(last.chat, last.id) && Picked(names[..|names|-1], front))))
  }

  lemma PickedNext(names: seq<Name>, messages: seq<Live>, m: Live)
    requires Picked(names, messages)
    ensures Picked(names, messages + [m]) && Picked(names + [Name(m.chat, m.id)], messages + [m])
  {
    assert (messages + [m])[..|messages|] == messages;
    assert (names + [Name(m.chat, m.id)])[..|names|] == names;
  }

  /** The names of one group among those routed. */
  function Only(names: seq<Name>, c: Chat): seq<Name> {
    if names == [] then []
    else Only(names[..|names|-1], c) + if names[|names|-1].chat == c then [names[|names|-1]] else []
  }

  predicate Mentions(messages: seq<Live>, c: Chat, id: string) {
    exists i | 0 <= i < |messages| :: messages[i].chat == c && messages[i].id == id
  }

  /** Message n of a group has to reach the router: it is no echo of ours, its download does not
      fail, and it is new, to the table as to the batch. */
  predicate IsDue(messages: seq<Live>, n: nat, rows: seq<Row>, broken: nat -> bool)
    requires n < |messages|
  {
    var m := messages[n];
    m.isGroup && !m.ours && !broken(n) && !Holds(rows, m.chat, m.id) && !Mentions(messages[..n], m.chat, m.id)
  }

  /** The direct messages that go on: all but our echoes and those whose download fails. */
  function Directs(messages: seq<Live>, broken: nat -> bool): seq<Name> {
    if messages == [] then []
    else
      var n := |messages| - 1;
      Directs(messages[..n], broken)
      + if messages[n].isGroup || messages[n].ours || broken(n) then [] else [Name(messages[n].chat, messages[n].id)]
  }

  lemma DirectsNext(messages: seq<Live>, m: Live, broken: nat -> bool)
    ensures Directs(messages + [m], broken)
         == Directs(messages, broken) + if m.isGroup || m.ours || broken(|messages|) then [] else [Name(m.chat, m.id)]
  {
    assert (messages + [m])[..|messages|] == messages;
  }

  /** One message more in the lists of what went on. */
  lemma UpsertNext(batch: seq<Live>, i: nat, broken: nat -> bool, routed: seq<Name>, one: bool, live: seq<Name>, direct: seq<Name>)
    returns (more: seq<Name>)
    requires i < |batch| && Picked(routed, batch[..i])
    ensures more == if one then routed + [Name(batch[i].chat, batch[i].id)] else routed
    ensures Picked(more, batch[..i+1])
    ensures live + more == (live + routed) + if one then [Name(batch[i].chat, batch[i].id)] else []
    ensures direct + Directs(batch[..i+1], broken)
         == (direct + Directs(batch[..i], broken))
            + if batch[i].isGroup || batch[i].ours || broken(i) then [] else [Name(batch[i].chat, batch[i].id)]
  {
    more := if one then routed + [Name(batch[i].chat, batch[i].id)] else routed;
    assert batch[..i+1] == batch[..i] + [batch[i]];
    PickedNext(routed, batch[..i], batch[i]);
    DirectsNext(batch[..i], batch[i], broken);
  }

  /** The messages of group c that have to reach the router, in order. */
  function Due(messages: seq<Live>, c: Chat, rows: seq<Row>, broken: nat -> bool): seq<Name> {
    if messages == [] then []
    else
      var n := |messages| - 1;
      Due(messages[..n], c, rows, broken) + if messages[n].chat == c && IsDue(messages, n, rows, broken) then [Name(c, messages[n].id)] else []
  }

  /** Every message that is due is among them. */
  lemma {:induction false} DueHasAll(messages: seq<Live>, c: Chat, rows: seq<Row>, broken: nat -> bool, n: nat)
    requires n < |messages| && messages[n].chat == c && IsDue(messages, n, rows, broken)
    ensures exists k :: 0 <= k < |Due(messages, c, rows, broken)| && Due(messages, c, rows, broken)[k] == Name(c, messages[n].id)
  {
    var due, last := Due(messages, c, rows, broken), |messages| - 1;
    if n == last {
      assert due[|due|-1] == Name(c, messages[n].id);
    } else {
      var front := messages[..last];
      assert front[..n] == messages[..n];
      DueHasAll(front, c, rows, broken, n);
      var k :| 0 <= k < |Due(front, c, rows, broken)| && Due(front, c, rows, broken)[k] == Name(c, messages[n].id);
      assert due[k] == Due(front, c, rows, broken)[k];
    }
  }

  /** While a group without a wait stays in the batch's epoch: what was routed of it is what was
      due, and the table has what it had and what the batch brought. */
  ghost predicate RoutedAt(c: Chat, snapshot: map<Chat, nat>, waits0: map<Chat, Wait>, epochs0: map<Chat, nat>, epochs: map<Chat, nat>,
                           rows0: seq<Row>, rows: seq<Row>, messages: seq<Live>, broken: nat -> bool, routed: seq<Name>)
  {
    c !in waits0 && EpochIn(snapshot, c) == EpochIn(epochs0, c) == EpochIn(epochs, c) ==>
      && Only(routed, c) == Due(messages, c, rows0, broken)
      && forall id :: Holds(rows, c, id) <==> Holds(rows0, c, id) || Mentions(messages, c, id)
  }

  ghost predicate AllRouted(snapshot: map<Chat, nat>, waits0: map<Chat, Wait>, epochs0: map<Chat, nat>, epochs: map<Chat, nat>,
                            rows0: seq<Row>, rows: seq<Row>, messages: seq<Live>, broken: nat -> bool, routed: seq<Name>)
  {
    forall c :: RoutedAt(c, snapshot, waits0, epochs0, epochs, rows0, rows, messages, broken, routed)
  }

  /** What handling one message did, as far as the next ones depend on it. */
  ghost predicate Handled(m: Live, snapshot: map<Chat, nat>, waits: map<Chat, Wait>, epochs: map<Chat, nat>, epochs': map<Chat, nat>,
                          rows: seq<Row>, rows': seq<Row>, broken: bool, routed: bool)
  {
    && (!(m.isGroup && m.chat in waits) ==>
          && Holds(rows', m.chat, m.id)
          && (routed <==>
                && m.isGroup && !m.ours && !broken && !Holds(rows, m.chat, m.id)
                && EpochIn(snapshot, m.chat) == EpochIn(epochs, m.chat) == EpochIn(epochs', m.chat)))
    && (forall c, id | !(c == m.chat && id == m.id) :: Holds(rows', c, id) <==> Holds(rows, c, id))
    && (m.isGroup && m.chat in waits ==> !routed && rows' == rows)
  }

  lemma MentionsNext(messages: seq<Live>, m: Live, c: Chat, id: string)
    ensures Mentions(messages + [m], c, id) <==> Mentions(messages, c, id) || (m.chat == c && m.id == id)
  {
    var more := messages + [m];
    if Mentions(messages, c, id) {
      var i :| 0 <= i < |messages| && messages[i].chat == c && messages[i].id == id;
      assert more[i] == messages[i];
    }
    if m.chat == c && m.id == id { assert more[|messages|] == m; }
  }

  lemma DueNext(messages: seq<Live>, m: Live, c: Chat, rows: seq<Row>, broken: nat -> bool)
    ensures Due(messages + [m], c, rows, broken)
         == Due(messages, c, rows, broken)
            + if m.chat == c && m.isGroup && !m.ours && !broken(|messages|) && !Holds(rows, c, m.id) && !Mentions(messages, c, m.id)
              then [Name(c, m.id)] else []
  {
    assert (messages + [m])[..|messages|] == messages;
  }

  lemma OnlyNext(names: seq<Name>, n: Name, c: Chat)
    ensures Only(names + [n], c) == Only(names, c) + if n.chat == c then [n] else []
  {
    assert (names + [n])[..|names|] == names;
  }

  /** One message more. */
  lemma RoutedNext(c: Chat, snapshot: map<Chat, nat>, waits0: map<Chat, Wait>, waits: map<Chat, Wait>,
                   epochs0: map<Chat, nat>, epochs: map<Chat, nat>, epochs': map<Chat, nat>,
                   rows0: seq<Row>, rows: seq<Row>, rows': seq<Row>, messages: seq<Live>, m: Live,
                   broken: nat -> bool, routed: seq<Name>, one: bool)
    requires RoutedAt(c, snapshot, waits0, epochs0, epochs, rows0, rows, messages, broken, routed)
    requires Handled(m, snapshot, waits, epochs, epochs', rows, rows', broken(|messages|), one)
    requires EpochIn(epochs0, c) <= EpochIn(epochs, c) <= EpochIn(epochs', c)
    requires EpochIn(epochs, c) == EpochIn(epochs0, c) && c in waits ==> c in waits0
    ensures RoutedAt(c, snapshot, waits0, epochs0, epochs', rows0, rows', messages + [m], broken,
                     if one then routed + [Name(m.chat, m.id)] else routed)
  {
    if c !in waits0 && EpochIn(snapshot, c) == EpochIn(epochs0, c) == EpochIn(epochs', c) {
      DueNext(messages, m, c, rows0, broken);
      OnlyNext(routed, Name(m.chat, m.id), c);
      forall id ensures Holds(rows', c, id) <==> Holds(rows0, c, id) || Mentions(messages + [m], c, id) {
        MentionsNext(messages, m, c, id);
      }
    }
  }

  lemma AllRoutedNext(snapshot: map<Chat, nat>, t0: seq<Event>, t1: seq<Event>, t2: seq<Event>,
                      waits0: map<Chat, Wait>, waits: map<Chat, Wait>, waits': map<Chat, Wait>,
                      epochs0: map<Chat, nat>, epochs: map<Chat, nat>, epochs': map<Chat, nat>,
                      rows0: seq<Row>, rows: seq<Row>, rows': seq<Row>, batch: seq<Live>, i: nat,
                      broken: nat -> bool, routed: seq<Name>, one: bool)
    requires i < |batch|
    requires AllRouted(snapshot, waits0, epochs0, epochs, rows0, rows, batch[..i], broken, routed)
    requires Handled(batch[i], snapshot, waits, epochs, epochs', rows, rows', broken(i), one)
    requires Agrees(t0, epochs0, waits0) && Agrees(t1, epochs, waits) && Agrees(t2, epochs', waits')
    requires NoneOpened(t0, waits0, t1, waits) && NoneOpened(t1, waits, t2, waits')
    ensures AllRouted(snapshot, waits0, epochs0, epochs', rows0, rows', batch[..i+1], broken,
                      if one then routed + [Name(batch[i].chat, batch[i].id)] else routed)
  {
    var more := if one then routed + [Name(batch[i].chat, batch[i].id)] else routed;
    var longer := batch[..i+1];
    assert longer == batch[..i] + [batch[i]] && |batch[..i]| == i;
    forall c ensures RoutedAt(c, snapshot, waits0, epochs0, epochs', rows0, rows', longer, broken, more) {
      AgreesAt(t0, epochs0, waits0, c);
      AgreesAt(t1, epochs, waits, c);
      AgreesAt(t2, epochs', waits', c);
      assert NoneOpenedAt(t0, waits0, t1, waits, c) && NoneOpenedAt(t1, waits, t2, waits', c);
      assert RoutedAt(c, snapshot, waits0, epochs0, epochs, rows0, rows, batch[..i], broken, routed);
      RoutedNext(c, snapshot, waits0, waits, epochs0, epochs, epochs', rows0, rows, rows', batch[..i], batch[i], broken, routed, one);
    }
  }

  /** Picked from messages of one group: nothing else. */
  lemma {:induction false} OnlyOfOne(names: seq<Name>, messages: seq<Live>, c: Chat)
    requires Picked(names, messages) && AllFrom(messages, c)
    ensures Only(names, c) == names
    decreases |messages|
  {
    if names != [] {
      var front, last := messages[..|messages|-1], messages[|messages|-1];
      assert AllFrom(front, c);
      if Picked(names, front) {
        OnlyOfOne(names, front, c);
      } else {
        OnlyOfOne(names[..|names|-1], front, c);
      }
    }
  }

  lemma InsertHolds(rows: seq<Row>, c: Chat, id: string, ts: nat, isHistory: bool)
    requires Unique(rows)
    ensures forall d, i | !(d == c && i == id) :: Holds(Inserted(rows, c, id, ts, isHistory), d, i) <==> Holds(rows, d, i)
    ensures Holds(Inserted(rows, c, id, ts, isHistory), c, id)
  {
    InsertStores(rows, c, id, ts, isHistory);
    var rows' := Inserted(rows, c, id, ts, isHistory);
    forall d, i | !(d == c && i == id) && Holds(rows', d, i) ensures Holds(rows, d, i) {
      var n := Find(rows', d, i);
      assert rows[n] == rows'[n];
    }
  }

  /** Stable: before the first entry that is strictly later. */
  function InsertOld(sorted: seq<Old>, o: Old): seq<Old> {
    if sorted == [] then [o]
    else if o.ts < sorted[0].ts then [o] + sorted
    else [sorted[0]] + InsertOld(sorted[1..], o)
  }

  /** messages.reverse().sort(by timestamp) */
  function ReverseSorted(entries: seq<Old>): seq<Old> {
    if entries == [] then [] else InsertOld(ReverseSorted(entries[1..]), entries[0])
  }

  // ------------------------------------------------------------------
  // The connection
  // ------------------------------------------------------------------

  class Connection {
    const captureGroupHistory: bool
    const joinWaitMs: int
    const messages: MessageStore
    var groupEpochs: map<Chat, nat>
    var selfPresent: map<Chat, bool>
    var pendingHistoryGroups: set<Chat>
    var joinWaits: map<Chat, Wait>
    ghost var trace: seq<Event>
    /** Group messages handed to the router live, and history rows the replay got accepted. */
    ghost var live: seq<Name>
    ghost var replayed: seq<Name>
    /** Direct messages handed to the router. */
    ghost var direct: seq<Name>

    ghost predicate Valid()
      reads this, messages
    {
      Agrees(trace, groupEpochs, joinWaits) && OneRoute(messages.rows, live, replayed)
    }

    constructor (captureGroupHistory: bool, joinWaitMs: int)
      ensures Valid() && trace == [] && live == [] && replayed == [] && direct == [] && fresh(messages)
    {
      this.captureGroupHistory, this.joinWaitMs := captureGroupHistory, joinWaitMs;
      messages := new MessageStore();
      groupEpochs, selfPresent, pendingHistoryGroups, joinWaits := map[], map[], {}, map[];
      trace, live, replayed, direct := [], [], [], [];
      new;
      forall c ensures EpochAt([], map[], c) && WaitAt([], map[], c) { }
    }

    /** A membership event: synchronous, at any time. */
    method OnSelfMembership(c: Chat, add: bool, hasSocket: bool)
      requires Valid()
      modifies this`groupEpochs, this`selfPresent, this`pendingHistoryGroups, this`joinWaits, this`trace
      ensures Valid()
      ensures Passed(old(trace), old(joinWaits), trace, joinWaits)
      ensures PendingKept(old(trace), old(pendingHistoryGroups), trace, pendingHistoryGroups)
      ensures add && c in old(selfPresent) && old(selfPresent)[c] ==> trace == old(trace) && joinWaits == old(joinWaits)
      ensures !(add && c in old(selfPresent) && old(selfPresent)[c]) ==>
                trace == old(trace) + [if add then Joined(c, captureGroupHistory && joinWaitMs > 0 && hasSocket) else Left(c)]
    {
      var duplicateAdd := add && c in selfPresent && selfPresent[c];
      selfPresent := selfPresent[c := add];
      if duplicateAdd {
        PendingSelf(trace, pendingHistoryGroups);
        forall d ensures PassedAt(trace, joinWaits, trace, joinWaits, d) { }
        return;
      }
      if add { Join(c, hasSocket); } else { Leave(c); }
    }

    method Leave(c: Chat)
      requires Valid()
      modifies this`groupEpochs, this`pendingHistoryGroups, this`joinWaits, this`trace
      ensures Valid() && Passed(old(trace), old(joinWaits), trace, joinWaits)
      ensures PendingKept(old(trace), old(pendingHistoryGroups), trace, pendingHistoryGroups)
      ensures trace == old(trace) + [Left(c)] && c !in pendingHistoryGroups
    {
      PendingLeft(trace, pendingHistoryGroups, c);
      AfterLeft(trace, groupEpochs, joinWaits, c);
      PassedEvent(trace, joinWaits, Left(c), joinWaits - {c});
      groupEpochs := groupEpochs[c := EpochIn(groupEpochs, c) + 1];
      joinWaits, pendingHistoryGroups, trace := joinWaits - {c}, pendingHistoryGroups - {c}, trace + [Left(c)];
    }

    /** A first join opens a wait when history is captured, a wait is configured and the socket is up. */
    method Join(c: Chat, hasSocket: bool)
      requires Valid()
      modifies this`groupEpochs, this`pendingHistoryGroups, this`joinWaits, this`trace
      ensures Valid() && Passed(old(trace), old(joinWaits), trace, joinWaits)
      ensures trace == old(trace) + [Joined(c, captureGroupHistory && joinWaitMs > 0 && hasSocket)]
      ensures captureGroupHistory ==> c in pendingHistoryGroups
      ensures PendingKept(old(trace), old(pendingHistoryGroups), trace, pendingHistoryGroups)
    {
      var opens := captureGroupHistory && joinWaitMs > 0 && hasSocket;
      var epoch := EpochIn(groupEpochs, c) + 1;
      var pending := if captureGroupHistory then pendingHistoryGroups + {c} else pendingHistoryGroups;
      AfterJoined(trace, groupEpochs, joinWaits, c, opens);
      PassedJoin(trace, joinWaits, c, opens, epoch);
      PendingJoin(trace, pendingHistoryGroups, c, opens, pending);
      groupEpochs, pendingHistoryGroups := groupEpochs[c := epoch], pending;
      joinWaits, trace := WithJoin(joinWaits, c, opens, epoch), trace + [Joined(c, opens)];
    }

    /** link() and unlink(): waits go without a membership change. */
    method Clear()
      requires Valid()
      modifies this`selfPresent, this`pendingHistoryGroups, this`joinWaits, this`trace
      ensures Valid() && joinWaits == map[] && trace == old(trace) + [Cleared]
      ensures Passed(old(trace), old(joinWaits), trace, joinWaits) && PendingKept(old(trace), old(pendingHistoryGroups), trace, pendingHistoryGroups)
    {
      PendingEvent(trace, pendingHistoryGroups, Cleared, {});
      AfterCleared(trace, groupEpochs, joinWaits);
      PassedCleared(trace, joinWaits);
      pendingHistoryGroups, selfPresent, joinWaits, trace := {}, map[], map[], trace + [Cleared];
    }

    /** Any number of events between suspending a job and resuming it. */
    method Await()
      requires Valid()
      modifies this`groupEpochs, this`selfPresent, this`pendingHistoryGroups, this`joinWaits, this`trace
      ensures Valid() && Passed(old(trace), old(joinWaits), trace, joinWaits)
      ensures PendingKept(old(trace), old(pendingHistoryGroups), trace, pendingHistoryGroups)
    {
      var steps: nat :| true;
      forall c ensures PassedAt(trace, joinWaits, trace, joinWaits, c) { }
      PendingSelf(trace, pendingHistoryGroups);
      for i := 0 to steps
        invariant Valid() && Passed(old(trace), old(joinWaits), trace, joinWaits)
        invariant PendingKept(old(trace), old(pendingHistoryGroups), trace, pendingHistoryGroups)
      {
        ghost var t1, w1, p1 := trace, joinWaits, pendingHistoryGroups;
        var c: Chat, add: bool, hasSocket: bool, clear: bool :| true;
        if clear { Clear(); } else { OnSelfMembership(c, add, hasSocket); }
        PassedTwice(old(trace), old(joinWaits), t1, w1, trace, joinWaits);
        PendingTwice(old(trace), old(pendingHistoryGroups), t1, p1, trace, pendingHistoryGroups);
      }
    }

    // ----------------------------------------------------------------
    // Live messages
    // ----------------------------------------------------------------

    predicate Stale(m: Live, snapshot: map<Chat, nat>)
      reads this`groupEpochs
    {
      m.isGroup && EpochIn(snapshot, m.chat) != EpochIn(groupEpochs, m.chat)
    }

    /** A message of a group with an open wait is held, if it is of the wait's epoch. */
    method Hold(m: Live, snapshot: map<Chat, nat>)
      requires Valid() && m.isGroup && m.chat in joinWaits
      modifies this`joinWaits, this`trace
      ensures Valid()
      ensures trace == old(trace) + if EpochIn(snapshot, m.chat) == old(joinWaits)[m.chat].epoch then [Held(m.chat, m.id)] else []
      ensures NoneOpened(old(trace), old(joinWaits), trace, joinWaits) && PendingKept(old(trace), old(pendingHistoryGroups), trace, pendingHistoryGroups)
    {
      var wait := joinWaits[m.chat];
      NothingOpens(trace, joinWaits);
      PendingSelf(trace, pendingHistoryGroups);
      PendingEvent(trace, pendingHistoryGroups, Held(m.chat, m.id), pendingHistoryGroups);
      if wait.epoch == EpochIn(snapshot, m.chat) {
        QuietOpensNone(trace, joinWaits, Held(m.chat, m.id), joinWaits[m.chat := Wait(wait.messages + [m], wait.epoch)]);
        AfterHeld(trace, groupEpochs, joinWaits, m);
        joinWaits, trace := joinWaits[m.chat := Wait(wait.messages + [m], wait.epoch)], trace + [Held(m.chat, m.id)];
      }
    }

    method Capture(m: Live) returns (captured: bool)
      requires Valid()
      modifies messages
      ensures Valid()
      ensures captured ==> Name(m.chat, m.id) !in live && IsLiveRow(messages.rows, Name(m.chat, m.id))
      ensures captured <==> !Holds(old(messages.rows), m.chat, m.id)
      ensures StillHeld(old(messages.rows), messages.rows) && Holds(messages.rows, m.chat, m.id)
      ensures forall c, id | !(c == m.chat && id == m.id) :: Holds(messages.rows, c, id) <==> Holds(old(messages.rows), c, id)
    {
      InsertHolds(messages.rows, m.chat, m.id, m.ts, false);
      InsertStores(messages.rows, m.chat, m.id, m.ts, false);
      InsertKeepsRoutes(messages.rows, live, replayed, m.chat, m.id, m.ts, false);
      captured := messages.Insert(m.chat, m.id, m.ts, false);
    }

    /** Hand a group message to the router: at most once, and never behind the fence. */
    ghost method Route(m: Live)
      requires Valid() && m.isGroup && m.chat !in joinWaits
      requires Name(m.chat, m.id) !in live && IsLiveRow(messages.rows, Name(m.chat, m.id))
      modifies this`trace, this`live
      ensures Valid() && live == old(live) + [Name(m.chat, m.id)]
      ensures trace == old(trace) + [Routed(m.chat, m.id, EpochIn(groupEpochs, m.chat))]
    {
      AfterQuiet(trace, groupEpochs, joinWaits, Routed(m.chat, m.id, EpochIn(groupEpochs, m.chat)));
      trace := trace + [Routed(m.chat, m.id, EpochIn(groupEpochs, m.chat))];
      live := live + [Name(m.chat, m.id)];
    }

    /** One live message. A group message goes to the wait if one is open; otherwise it is
        stored, and routed exactly if it is new, no echo of ours, its download does not fail, and
        its group is still in the epoch of its batch when it gets there. */
    method HandleLive(m: Live, snapshot: map<Chat, nat>, broken: bool) returns (ghost routed: bool)
      requires Valid()
      modifies this, messages
      ensures Valid() && replayed == old(replayed)
      ensures live == old(live) + if routed then [Name(m.chat, m.id)] else []
      ensures NoneOpened(old(trace), old(joinWaits), trace, joinWaits) && StillHeld(old(messages.rows), messages.rows)
      ensures PendingKept(old(trace), old(pendingHistoryGroups), trace, pendingHistoryGroups)
      ensures m.isGroup && m.chat in old(joinWaits) ==>
                !routed && trace == old(trace) + if EpochIn(snapshot, m.chat) == old(joinWaits)[m.chat].epoch then [Held(m.chat, m.id)] else []
      ensures direct == old(direct) + if m.isGroup || m.ours || broken then [] else [Name(m.chat, m.id)]
      ensures Handled(m, snapshot, old(joinWaits), old(groupEpochs), groupEpochs, old(messages.rows), messages.rows, broken, routed)
    {
      routed := false;
      if m.isGroup && m.chat in joinWaits {
        Hold(m, snapshot);
        return;
      }
      if m.isGroup {
        routed := HandleNew(m, snapshot, broken);
      } else {
        HandleDirect(m, broken);
      }
    }

    /** A direct message goes on whether or not it is new. */
    method HandleDirect(m: Live, broken: bool)
      requires Valid()
      modifies this`groupEpochs, this`selfPresent, this`pendingHistoryGroups, this`joinWaits, this`trace, this`direct, messages
      ensures direct == old(direct) + if m.ours || broken then [] else [Name(m.chat, m.id)]
      ensures Valid() && NoneOpened(old(trace), old(joinWaits), trace, joinWaits) && StillHeld(old(messages.rows), messages.rows)
      ensures PendingKept(old(trace), old(pendingHistoryGroups), trace, pendingHistoryGroups)
      ensures Holds(messages.rows, m.chat, m.id)
      ensures forall c, id | !(c == m.chat && id == m.id) :: Holds(messages.rows, c, id) <==> Holds(old(messages.rows), c, id)
    {
      var isNew := Capture(m);
      NothingOpens(trace, joinWaits);
      PendingSelf(trace, pendingHistoryGroups);
      if m.ours { return; }
      Await();
      PassedOpensNone(old(trace), old(joinWaits), trace, joinWaits);
      if broken { return; }
      direct := direct + [Name(m.chat, m.id)];
    }

    method HandleNew(m: Live, snapshot: map<Chat, nat>, broken: bool) returns (ghost routed: bool)
      requires Valid() && m.isGroup && m.chat !in joinWaits
      modifies this, messages
      ensures Valid() && replayed == old(replayed) && direct == old(direct)
      ensures live == old(live) + if routed then [Name(m.chat, m.id)] else []
      ensures NoneOpened(old(trace), old(joinWaits), trace, joinWaits) && StillHeld(old(messages.rows), messages.rows)
      ensures PendingKept(old(trace), old(pendingHistoryGroups), trace, pendingHistoryGroups)
      ensures Handled(m, snapshot, old(joinWaits), old(groupEpochs), groupEpochs, old(messages.rows), messages.rows, broken, routed)
    {
      routed := false;
      NothingOpens(trace, joinWaits);
      PendingSelf(trace, pendingHistoryGroups);
      var captured := Capture(m);
      if !captured || m.ours || Stale(m, snapshot) { return; }
      ghost var t0, w0 := trace, joinWaits;
      assert EpochAt(t0, groupEpochs, m.chat);
      Await();
      PassedOpensNone(t0, w0, trace, joinWaits);
      assert PassedAt(t0, w0, trace, joinWaits, m.chat);
      assert EpochAt(trace, groupEpochs, m.chat);
      if broken || Stale(m, snapshot) { return; }
      ghost var t1 := trace;
      Route(m);
      QuietOpensNone(t1, joinWaits, Routed(m.chat, m.id, EpochIn(groupEpochs, m.chat)), joinWaits);
      NoneOpenedTwice(t0, w0, t1, joinWaits, trace, joinWaits);
      PendingEvent(t1, pendingHistoryGroups, Routed(m.chat, m.id, EpochIn(groupEpochs, m.chat)), pendingHistoryGroups);
      PendingTwice(old(trace), old(pendingHistoryGroups), t1, pendingHistoryGroups, trace, pendingHistoryGroups);
      routed := true;
    }

    /** One upsert: its messages in order, against the epochs read when its queued job was taken
        up. Of a group without a wait that stays in that epoch, exactly what is due is routed. */
    method OnMessagesUpsert(batch: seq<Live>, snapshot: map<Chat, nat>, broken: nat -> bool) returns (ghost routed: seq<Name>)
      requires Valid()
      modifies this, messages
      ensures Valid() && replayed == old(replayed)
      ensures live == old(live) + routed && Picked(routed, batch) && direct == old(direct) + Directs(batch, broken)
      ensures NoneOpened(old(trace), old(joinWaits), trace, joinWaits) && StillHeld(old(messages.rows), messages.rows)
      ensures PendingKept(old(trace), old(pendingHistoryGroups), trace, pendingHistoryGroups)
      ensures AllRouted(snapshot, old(joinWaits), old(groupEpochs), groupEpochs, old(messages.rows), messages.rows, batch, broken, routed)
    {
      routed := [];
      NothingOpens(trace, joinWaits);
      PendingSelf(trace, pendingHistoryGroups);
      forall c ensures RoutedAt(c, snapshot, joinWaits, groupEpochs, groupEpochs, messages.rows, messages.rows, batch[..0], broken, []) { }
      for i := 0 to |batch|
        invariant Valid() && replayed == old(replayed)
        invariant NoneOpened(old(trace), old(joinWaits), trace, joinWaits) && StillHeld(old(messages.rows), messages.rows)
        invariant PendingKept(old(trace), old(pendingHistoryGroups), trace, pendingHistoryGroups)
        invariant live == old(live) + routed && Picked(routed, batch[..i]) && direct == old(direct) + Directs(batch[..i], broken)
        invariant AllRouted(snapshot, old(joinWaits), old(groupEpochs), groupEpochs, old(messages.rows), messages.rows, batch[..i], broken, routed)
      {
        ghost var t1, w1, p1, e1, r1 := trace, joinWaits, pendingHistoryGroups, groupEpochs, messages.rows;
        ghost var one := HandleLive(batch[i], snapshot, broken(i));
        NoneOpenedTwice(old(trace), old(joinWaits), t1, w1, trace, joinWaits);
        PendingTwice(old(trace), old(pendingHistoryGroups), t1, p1, trace, pendingHistoryGroups);
        AllRoutedNext(snapshot, old(trace), t1, trace, old(joinWaits), w1, joinWaits, old(groupEpochs), e1, groupEpochs,
                      old(messages.rows), r1, messages.rows, batch, i, broken, routed, one);
        routed := UpsertNext(batch, i, broken, routed, one, old(live), old(direct));
      }
      assert batch[..|batch|] == batch;
    }

    // ----------------------------------------------------------------
    // History
    // ----------------------------------------------------------------

    /** The router's replay: some waiting rows are accepted and marked, each once. */
    method Replay(c: Chat)
      requires Valid()
      modifies this`groupEpochs, this`selfPresent, this`pendingHistoryGroups, this`joinWaits, this`trace, this`replayed, messages
      ensures Valid() && old(replayed) <= replayed
      ensures Passed(old(trace), old(joinWaits), trace, joinWaits) && SameHeld(old(messages.rows), messages.rows)
      ensures PendingKept(old(trace), old(pendingHistoryGroups), trace, pendingHistoryGroups)
    {
      var accepted: nat :| true;
      PendingSelf(trace, pendingHistoryGroups);
      forall d ensures PassedAt(trace, joinWaits, trace, joinWaits, d) { }
      for i := 0 to accepted
        invariant Valid() && old(replayed) <= replayed && Passed(old(trace), old(joinWaits), trace, joinWaits)
        invariant SameHeld(old(messages.rows), messages.rows)
        invariant PendingKept(old(trace), old(pendingHistoryGroups), trace, pendingHistoryGroups)
      {
        ghost var t1, w1, p1 := trace, joinWaits, pendingHistoryGroups;
        Await();
        PassedTwice(old(trace), old(joinWaits), t1, w1, trace, joinWaits);
        PendingTwice(old(trace), old(pendingHistoryGroups), t1, p1, trace, pendingHistoryGroups);
        var id: string :| true;
        var at := Find(messages.rows, c, id);
        if at < |messages.rows| && Wanted(messages.rows[at], c) {
          ReplayOne(c, id);
        }
      }
    }

    method ReplayOne(c: Chat, id: string)
      requires Valid() && Holds(messages.rows, c, id) && Wanted(messages.rows[Find(messages.rows, c, id)], c)
      modifies this`replayed, messages
      ensures Valid() && replayed == old(replayed) + [Name(c, id)] && SameHeld(old(messages.rows), messages.rows)
    {
      MarkStores(messages.rows, c, id);
      assert forall i | 0 <= i < |replayed| :: IsRelayedHistory(messages.rows, replayed[i]);
      MarkKeepsRoutes(messages.rows, live, replayed, c, id);
      var found := messages.MarkRelayed(c, id);
      replayed := replayed + [Name(c, id)];
    }

    /** Offer the group's history and wait for the replay. */
    method NotifyHistory(c: Chat)
      requires Valid()
      modifies this`groupEpochs, this`selfPresent, this`pendingHistoryGroups, this`joinWaits, this`trace, this`replayed, messages
      ensures Valid() && old(replayed) <= replayed
      ensures Passed(old(trace), old(joinWaits), trace, joinWaits) && SameHeld(old(messages.rows), messages.rows)
      ensures |trace| > |old(trace)| && trace[|trace|-1] == Offered(c)
      ensures PendingKept(old(trace), old(pendingHistoryGroups), trace, pendingHistoryGroups)
    {
      Replay(c);
      ghost var t1, w1 := trace, joinWaits;
      AfterQuiet(trace, groupEpochs, joinWaits, Offered(c));
      PassedEvent(trace, joinWaits, Offered(c), joinWaits);
      PendingEvent(trace, pendingHistoryGroups, Offered(c), pendingHistoryGroups);
      PendingTwice(old(trace), old(pendingHistoryGroups), trace, pendingHistoryGroups, trace + [Offered(c)], pendingHistoryGroups);
      trace := trace + [Offered(c)];
      PassedTwice(old(trace), old(joinWaits), t1, w1, trace, joinWaits);
    }

    /** The wait goes first, so nothing that arrives meanwhile joins the release. While the group
        stays in its epoch every held message that is due goes to the router, in the held order. */
    method ReleaseJoinWait(c: Chat, broken: nat -> bool)
      requires Valid() && !Unoffered(trace, c)
      modifies this, messages
      ensures Valid() && replayed == old(replayed)
      ensures c !in old(joinWaits) ==> live == old(live) && trace == old(trace)
      ensures c in old(joinWaits) ==>
                exists routed :: live == old(live) + routed && Picked(routed, old(joinWaits)[c].messages)
      ensures c in old(joinWaits) && EpochIn(groupEpochs, c) == EpochIn(old(groupEpochs), c) ==>
                live == old(live) + Due(old(joinWaits)[c].messages, c, old(messages.rows), broken)
      ensures EpochIn(groupEpochs, c) == EpochIn(old(groupEpochs), c) ==> c !in joinWaits
      ensures EpochIn(groupEpochs, c) >= EpochIn(old(groupEpochs), c) && StillHeld(old(messages.rows), messages.rows)
      ensures PendingKept(old(trace), old(pendingHistoryGroups), trace, pendingHistoryGroups)
    {
      PendingSelf(trace, pendingHistoryGroups);
      if c !in joinWaits { return; }
      var wait := joinWaits[c];
      AgreesAt(trace, groupEpochs, joinWaits, c);
      AfterReleased(trace, groupEpochs, joinWaits, c);
      ghost var e := Released(c, wait.epoch, Ids(wait.messages));
      PendingEvent(trace, pendingHistoryGroups, e, pendingHistoryGroups);
      joinWaits := joinWaits - {c};
      trace := trace + [e];
      // The re-check of the epoch that follows in the source never fails.
      assert wait.epoch == EpochIn(groupEpochs, c);
      ghost var t1, w1, p1, e1 := trace, joinWaits, pendingHistoryGroups, groupEpochs;
      Extend(old(trace), e);
      ghost var routed := OnMessagesUpsert(wait.messages, map[c := wait.epoch], broken);
      assert NoneOpenedAt(t1, w1, trace, joinWaits, c);
      AgreesAt(trace, groupEpochs, joinWaits, c);
      PendingTwice(old(trace), old(pendingHistoryGroups), t1, p1, trace, pendingHistoryGroups);
      OnlyOfOne(routed, wait.messages, c);
      assert RoutedAt(c, map[c := wait.epoch], w1, e1, groupEpochs, old(messages.rows), messages.rows, wait.messages, broken, routed);
    }

    /** The queued job of a join-wait timer, for any timer ever armed. */
    method JoinWaitElapsed(c: Chat, epoch: nat, broken: nat -> bool)
      requires Valid()
      modifies this, messages
      ensures Valid() && old(replayed) <= replayed
      ensures !(c in old(joinWaits) && old(joinWaits)[c].epoch == epoch) ==> live == old(live) && trace == old(trace)
      ensures EpochIn(groupEpochs, c) == epoch ==> c !in joinWaits
      ensures c in old(joinWaits) && old(joinWaits)[c].epoch == epoch == EpochIn(groupEpochs, c) && !ClearedSince(old(trace), trace) ==>
                live == old(live) + Due(old(joinWaits)[c].messages, c, old(messages.rows), broken)
    {
      AgreesAt(trace, groupEpochs, joinWaits, c);
      if !(c in joinWaits && joinWaits[c].epoch == epoch) { return; }
      ghost var t1, w1 := trace, joinWaits;
      NotifyHistory(c);
      assert PassedAt(t1, w1, trace, joinWaits, c);
      AgreesAt(trace, groupEpochs, joinWaits, c);
      if c in joinWaits && joinWaits[c].epoch == epoch {
        DueSame(joinWaits[c].messages, c, old(messages.rows), messages.rows, broken);
        ghost var t2 := trace;
        ReleaseJoinWait(c, broken);
        ClearedLater(t1, t2, trace);
      }
    }

    /** Store one group's entries of a history batch, oldest first. */
    method CaptureEntries(c: Chat, entries: seq<Old>) returns (count: nat)
      requires Valid()
      modifies this`trace, messages
      ensures Valid() && count <= |entries| && StillHeld(old(messages.rows), messages.rows)
      ensures Stored(messages.rows, c, entries) && Brought(old(messages.rows), messages.rows, c, entries)
      ensures NoneOpened(old(trace), joinWaits, trace, joinWaits) && SameEpochs(old(trace), trace)
      ensures old(trace) <= trace && NotCleared(old(trace), trace)
    {
      SortedIsAll(entries);
      count := CaptureSorted(c, ReverseSorted(entries));
      StoredAll(messages.rows, c, entries);
      BroughtAll(old(messages.rows), messages.rows, c, entries);
    }

    method CaptureSorted(c: Chat, sorted: seq<Old>) returns (count: nat)
      requires Valid()
      modifies this`trace, messages
      ensures Valid() && count <= |sorted| && StillHeld(old(messages.rows), messages.rows)
      ensures Stored(messages.rows, c, sorted) && Brought(old(messages.rows), messages.rows, c, sorted)
      ensures NoneOpened(old(trace), joinWaits, trace, joinWaits) && SameEpochs(old(trace), trace)
      ensures old(trace) <= trace && NotCleared(old(trace), trace)
    {
      count := 0;
      NothingOpens(trace, joinWaits);
      for i := 0 to |sorted|
        invariant Valid() && count <= i && StillHeld(old(messages.rows), messages.rows)
        invariant Stored(messages.rows, c, sorted[..i]) && Brought(old(messages.rows), messages.rows, c, sorted[..i])
        invariant NoneOpened(old(trace), joinWaits, trace, joinWaits) && SameEpochs(old(trace), trace)
        invariant old(trace) <= trace && NotCleared(old(trace), trace)
      {
        ghost var t1, r1 := trace, messages.rows;
        var captured := CaptureOne(c, sorted[i]);
        NoneOpenedTwice(old(trace), joinWaits, t1, joinWaits, trace, joinWaits);
        StoredNext(r1, messages.rows, c, sorted, i);
        BroughtNext(old(messages.rows), r1, messages.rows, c, sorted, i);
        NotClearedTwice(old(trace), t1, trace);
        if captured { count := count + 1; }
      }
      assert sorted[..|sorted|] == sorted;
    }

    method CaptureOne(c: Chat, o: Old) returns (captured: bool)
      requires Valid()
      modifies this`trace, messages
      ensures Valid() && StillHeld(old(messages.rows), messages.rows) && Holds(messages.rows, c, o.id)
      ensures SameEpochs(old(trace), trace)
      ensures NoneOpened(old(trace), joinWaits, trace, joinWaits)
      ensures captured <==> !Holds(old(messages.rows), c, o.id)
      ensures trace == old(trace) + if captured then [Captured(c, o.id)] else []
      ensures NotCleared(old(trace), trace)
      ensures forall d, id | !(d == c && id == o.id) :: Holds(messages.rows, d, id) <==> Holds(old(messages.rows), d, id)
    {
      NothingOpens(trace, joinWaits);
      InsertHolds(messages.rows, c, o.id, o.ts, true);
      InsertStores(messages.rows, c, o.id, o.ts, true);
      InsertKeepsRoutes(messages.rows, live, replayed, c, o.id, o.ts, true);
      captured := messages.Insert(c, o.id, o.ts, true);
      if captured {
        AfterQuiet(trace, groupEpochs, joinWaits, Captured(c, o.id));
        QuietOpensNone(trace, joinWaits, Captured(c, o.id), joinWaits);
        Extend(trace, Captured(c, o.id));
        trace := trace + [Captured(c, o.id)];
        if o.ours {
          MarkStores(messages.rows, c, o.id);
          MarkKeepsRoutes(messages.rows, live, replayed, c, o.id);
          var found := messages.MarkRelayed(c, o.id);
        }
      }
    }

    predicate Current(c: Chat, snapshot: map<Chat, nat>)
      reads this`groupEpochs
    {
      EpochIn(snapshot, c) == EpochIn(groupEpochs, c)
    }

    /** One group of a history batch: capture, then offer, then release. Every entry of a
        pending group of the batch's epoch ends up stored; and once the history is
        complete no wait of that epoch stays open. */
    method GroupHistory(c: Chat, entries: seq<Old>, complete: bool, snapshot: map<Chat, nat>, broken: nat -> bool)
      returns (ghost captured: seq<Row>)
      requires Valid()
      modifies this, messages
      ensures Valid() && old(replayed) <= replayed && StillHeld(old(messages.rows), messages.rows)
      ensures var taken := complete && EpochIn(snapshot, c) == EpochIn(old(groupEpochs), c);
              PendingKept(old(trace), if taken then old(pendingHistoryGroups) - {c} else old(pendingHistoryGroups), trace, pendingHistoryGroups)
      ensures c in old(pendingHistoryGroups) && EpochIn(snapshot, c) == EpochIn(old(groupEpochs), c) ==>
                && Brought(old(messages.rows), captured, c, entries) && Stored(messages.rows, c, entries)
                && (complete || c !in old(joinWaits) ==> OfferedSince(old(trace), trace, c))
                && (complete && EpochIn(snapshot, c) == EpochIn(groupEpochs, c) ==> c !in joinWaits)
                && (complete && EpochIn(snapshot, c) == EpochIn(groupEpochs, c) && c in old(joinWaits) && !ClearedSince(old(trace), trace) ==>
                      live == old(live) + Due(old(joinWaits)[c].messages, c, captured, broken))
    {
      captured := messages.rows;
      PendingSelf(trace, pendingHistoryGroups);
      if c !in pendingHistoryGroups || !Current(c, snapshot) {
        assert c !in pendingHistoryGroups ==> pendingHistoryGroups - {c} == pendingHistoryGroups;
        return;
      }
      ghost var t0, p0 := trace, if complete then pendingHistoryGroups - {c} else pendingHistoryGroups;
      AgreesAt(trace, groupEpochs, joinWaits, c);
      var count := CaptureEntries(c, entries);
      captured := messages.rows;
      PendingQuiet(t0, trace, p0);
      assert EpochOf(t0, c) == EpochOf(trace, c);
      if complete { pendingHistoryGroups := pendingHistoryGroups - {c}; }
      ghost var t1, p1 := trace, pendingHistoryGroups;
      if complete || c !in joinWaits {
        OfferAndRelease(c, complete, snapshot, broken);
        PendingTwice(t0, p0, t1, p1, trace, pendingHistoryGroups);
        ClearedLater(t0, t1, trace);
        OfferedLater(t0, t1, trace, c);
      }
    }

    /** The captured history is offered; once it is complete the held messages follow. */
    method OfferAndRelease(c: Chat, complete: bool, snapshot: map<Chat, nat>, broken: nat -> bool)
      requires Valid() && EpochIn(snapshot, c) == EpochIn(groupEpochs, c)
      modifies this, messages
      ensures Valid() && old(replayed) <= replayed && StillHeld(old(messages.rows), messages.rows)
      ensures PendingKept(old(trace), old(pendingHistoryGroups), trace, pendingHistoryGroups)
      ensures OfferedSince(old(trace), trace, c)
      ensures complete && EpochIn(snapshot, c) == EpochIn(groupEpochs, c) ==> c !in joinWaits
      ensures complete && EpochIn(snapshot, c) == EpochIn(groupEpochs, c) && c in old(joinWaits) && !ClearedSince(old(trace), trace) ==>
                live == old(live) + Due(old(joinWaits)[c].messages, c, old(messages.rows), broken)
    {
      ghost var t1, p1, w1 := trace, pendingHistoryGroups, joinWaits;
      AgreesAt(trace, groupEpochs, joinWaits, c);
      NotifyHistory(c);
      assert PassedAt(t1, w1, trace, joinWaits, c);
      AgreesAt(trace, groupEpochs, joinWaits, c);
      ghost var t2, p2 := trace, pendingHistoryGroups;
      if complete && Current(c, snapshot) {
        if c in joinWaits { DueSame(joinWaits[c].messages, c, old(messages.rows), messages.rows, broken); }
        ReleaseJoinWait(c, broken);
        PendingTwice(t1, p1, t2, p2, trace, pendingHistoryGroups);
        ClearedLater(t1, t2, trace);
      }
      OfferedEarlier(t1, t2, trace, c);
    }

    /** A history batch queued with the epochs of its arrival. Every entry of a group that was
        pending in that epoch ends up stored, unless its membership changes or the connection is
        linked anew before its turn. */
    method OnHistoryBatch(entries: seq<Old>, complete: bool, snapshot: map<Chat, nat>, broken: nat -> bool)
      requires Valid()
      modifies this, messages
      ensures Valid() && old(replayed) <= replayed && StillHeld(old(messages.rows), messages.rows)
      ensures captureGroupHistory ==>
                forall c | c in old(pendingHistoryGroups) && EpochIn(snapshot, c) == EpochIn(old(groupEpochs), c) ::
                  TakenUp(old(trace), trace, messages.rows, c, EntriesOf(entries, c))
      ensures PendingKept(old(trace), if captureGroupHistory && complete then NotIn(old(pendingHistoryGroups), snapshot, old(groupEpochs))
                                      else old(pendingHistoryGroups), trace, pendingHistoryGroups)
    {
      PendingSelf(trace, pendingHistoryGroups);
      if !captureGroupHistory { return; }
      var order, grouped := GroupEntries(entries, snapshot);
      if complete {
        order, grouped := AddPending(order, grouped, snapshot);
      }
      assert Visited(order, 0) == {};
      for i := 0 to |order|
        invariant Valid() && old(replayed) <= replayed && StillHeld(old(messages.rows), messages.rows)
        invariant PendingKept(old(trace), LeftAfter(old(pendingHistoryGroups), order, i, complete), trace, pendingHistoryGroups)
        invariant AllTaken(order, grouped, i, old(trace), trace, messages.rows)
      {
        ghost var t1, p1, r1, e1 := trace, pendingHistoryGroups, messages.rows, groupEpochs;
        assert EpochAt(old(trace), old(groupEpochs), order[i]) && EpochAt(t1, e1, order[i]);
        ghost var captured := GroupHistory(order[i], grouped[order[i]], complete, snapshot, broken);
        ghost var p2 := if complete && EpochIn(snapshot, order[i]) == EpochIn(e1, order[i]) then p1 - {order[i]} else p1;
        TakenNext(complete, order, grouped, i, old(trace), old(pendingHistoryGroups), t1, p1, p2, trace, pendingHistoryGroups,
                  r1, messages.rows);
      }
      if complete { AllVisited(order, grouped, old(pendingHistoryGroups), snapshot, old(groupEpochs)); }
    }

    /** Entries of pending groups whose epoch still is that of the batch, by group. */
    method GroupEntries(entries: seq<Old>, snapshot: map<Chat, nat>) returns (order: seq<Chat>, grouped: map<Chat, seq<Old>>)
      ensures Listed(order, grouped)
      ensures forall c | c in grouped :: c in pendingHistoryGroups && Current(c, snapshot)
      ensures forall c | c in grouped :: grouped[c] == EntriesOf(entries, c)
      ensures forall c | c in pendingHistoryGroups && Current(c, snapshot) && c !in grouped :: EntriesOf(entries, c) == []
    {
      order, grouped := [], map[];
      var skipped: set<Chat> := {};
      for i := 0 to |entries|
        invariant Listed(order, grouped)
        invariant forall c | c in grouped :: c in pendingHistoryGroups && Current(c, snapshot)
        invariant forall c | c in skipped :: !(c in pendingHistoryGroups && Current(c, snapshot))
        invariant Collected(entries[..i], grouped, skipped)
      {
        var o := entries[i];
        CollectNext(entries, i, grouped, skipped);
        if !(o.chat in pendingHistoryGroups && Current(o.chat, snapshot)) {
          skipped := skipped + {o.chat};
          continue;
        }
        if o.chat !in grouped { order := order + [o.chat]; }
        grouped := grouped[o.chat := (if o.chat in grouped then grouped[o.chat] else []) + [o]];
      }
      assert entries[..|entries|] == entries;
      CollectedAll(entries, grouped, skipped);
    }

    /** A final chunk also completes the pending groups it does not mention. */
    method AddPending(order0: seq<Chat>, grouped0: map<Chat, seq<Old>>, snapshot: map<Chat, nat>)
      returns (order: seq<Chat>, grouped: map<Chat, seq<Old>>)
      requires Listed(order0, grouped0)
      ensures Listed(order, grouped)
      ensures forall c :: c in grouped <==> c in grouped0 || (c in pendingHistoryGroups && Current(c, snapshot))
      ensures forall c | c in grouped :: grouped[c] == if c in grouped0 then grouped0[c] else []
    {
      order, grouped := order0, grouped0;
      var left := pendingHistoryGroups;
      while left != {}
        invariant left <= pendingHistoryGroups
        invariant Listed(order, grouped)
        invariant forall c :: c in grouped <==> c in grouped0 || (c in pendingHistoryGroups && c !in left && Current(c, snapshot))
        invariant forall c | c in grouped :: grouped[c] == if c in grouped0 then grouped0[c] else []
        decreases |left|
      {
        var c :| c in left;
        left := left - {c};
        if Current(c, snapshot) && c !in grouped {
          ListOne(order, grouped, c);
          order, grouped := order + [c], grouped[c := []];
        }
      }
    }
  }

  /** The groups in the order they were first met, each once. */
  ghost predicate Listed(order: seq<Chat>, grouped: map<Chat, seq<Old>>) {
    && (forall i | 0 <= i < |order| :: order[i] in grouped)
    && (forall c | c in grouped :: c in order)
    && forall i, j | 0 <= i < j < |order| :: order[i] != order[j]
  }

  lemma ListOne(order: seq<Chat>, grouped: map<Chat, seq<Old>>, c: Chat)
    requires Listed(order, grouped) && c !in grouped
    ensures Listed(order + [c], grouped[c := []])
  {
    assert (order + [c])[|order|] == c;
  }

  /** The first i groups of the order. */
  function Visited(order: seq<Chat>, i: nat): set<Chat>
    requires i <= |order|
  {
    set k | 0 <= k < i :: order[k]
  }

  /** What is still pending after i groups: a final chunk completes each. */
  function LeftAfter(pending: set<Chat>, order: seq<Chat>, i: nat, complete: bool): set<Chat>
    requires i <= |order|
  {
    if complete then pending - Visited(order, i) else pending
  }

  /** The groups whose epoch is no longer that of the batch. */
  function NotIn(pending: set<Chat>, snapshot: map<Chat, nat>, epochs: map<Chat, nat>): set<Chat> {
    set c | c in pending && EpochIn(snapshot, c) != EpochIn(epochs, c)
  }

  lemma AllVisited(order: seq<Chat>, grouped: map<Chat, seq<Old>>, pending: set<Chat>, snapshot: map<Chat, nat>, epochs: map<Chat, nat>)
    requires Listed(order, grouped)
    requires forall c :: c in grouped <==> c in pending && EpochIn(snapshot, c) == EpochIn(epochs, c)
    ensures LeftAfter(pending, order, |order|, true) == NotIn(pending, snapshot, epochs)
  {
    forall c | c in pending ensures c in Visited(order, |order|) <==> EpochIn(snapshot, c) == EpochIn(epochs, c) {
      if c in grouped {
        var k :| 0 <= k < |order| && order[k] == c;
      }
    }
  }

  /** The entries are stored, or the group's turn was called off. */
  ghost predicate TakenUp(t0: seq<Event>, t1: seq<Event>, rows: seq<Row>, c: Chat, entries: seq<Old>) {
    Stored(rows, c, entries) || EpochOf(t0, c) != EpochOf(t1, c) || ClearedSince(t0, t1)
  }

  ghost predicate EpochsGrow(t0: seq<Event>, t1: seq<Event>) {
    forall c :: EpochOf(t0, c) <= EpochOf(t1, c)
  }

  lemma PendingGrows(t0: seq<Event>, p0: set<Chat>, t1: seq<Event>, p1: set<Chat>)
    requires PendingKept(t0, p0, t1, p1)
    ensures EpochsGrow(t0, t1)
  {
    forall c ensures EpochOf(t0, c) <= EpochOf(t1, c) {
      assert PendingAt(t0, p0, t1, p1, c);
    }
  }

  lemma VisitOne(order: seq<Chat>, i: nat, complete: bool, t0: seq<Event>, p0: set<Chat>, t1: seq<Event>, p1: set<Chat>, p2: set<Chat>,
                 t2: seq<Event>, p3: set<Chat>)
    requires i < |order| && PendingKept(t0, LeftAfter(p0, order, i, complete), t1, p1) && PendingKept(t1, p2, t2, p3)
    requires p2 == p1 || (complete && p2 == p1 - {order[i]})
    requires complete && p2 == p1 ==> order[i] !in p1 || EpochOf(t0, order[i]) != EpochOf(t1, order[i])
    ensures PendingKept(t0, LeftAfter(p0, order, i + 1, complete), t2, p3)
  {
    assert Visited(order, i + 1) == Visited(order, i) + {order[i]};
    var before, rest := LeftAfter(p0, order, i, complete), LeftAfter(p0, order, i + 1, complete);
    forall c ensures PendingAt(t0, rest, t2, p3, c) {
      assert PendingAt(t0, before, t1, p1, c) && PendingAt(t1, p2, t2, p3, c);
      ClearedLater(t0, t1, t2);
    }
  }

  ghost predicate AllTaken(order: seq<Chat>, grouped: map<Chat, seq<Old>>, n: nat, t0: seq<Event>, t1: seq<Event>, rows: seq<Row>)
    requires n <= |order| && Listed(order, grouped)
  {
    forall k | 0 <= k < n :: TakenUp(t0, t1, rows, order[k], grouped[order[k]])
  }

  /** One more group of the batch has had its turn. */
  lemma TakenNext(complete: bool, order: seq<Chat>, grouped: map<Chat, seq<Old>>, i: nat, t0: seq<Event>, p0: set<Chat>,
                  t1: seq<Event>, p1: set<Chat>, p2: set<Chat>, t2: seq<Event>, p3: set<Chat>, r1: seq<Row>, r2: seq<Row>)
    requires i < |order| && Listed(order, grouped) && StillHeld(r1, r2) && order[i] in p0
    requires PendingKept(t0, LeftAfter(p0, order, i, complete), t1, p1) && PendingKept(t1, p2, t2, p3)
    requires p2 == p1 || (complete && p2 == p1 - {order[i]})
    requires complete && p2 == p1 ==> order[i] !in p1 || EpochOf(t0, order[i]) != EpochOf(t1, order[i])
    requires AllTaken(order, grouped, i, t0, t1, r1)
    requires order[i] in p1 && EpochOf(t0, order[i]) == EpochOf(t1, order[i]) ==> Stored(r2, order[i], grouped[order[i]])
    ensures PendingKept(t0, LeftAfter(p0, order, i + 1, complete), t2, p3)
    ensures AllTaken(order, grouped, i + 1, t0, t2, r2)
  {
    VisitOne(order, i, complete, t0, p0, t1, p1, p2, t2, p3);
    PendingGrows(t0, LeftAfter(p0, order, i, complete), t1, p1);
    PendingGrows(t1, p2, t2, p3);
    ClearedLater(t0, t1, t2);
    assert PendingAt(t0, LeftAfter(p0, order, i, complete), t1, p1, order[i]);
    forall k | 0 <= k <= i ensures TakenUp(t0, t2, r2, order[k], grouped[order[k]]) {
      if k < i { assert TakenUp(t0, t1, r1, order[k], grouped[order[k]]); }
    }
  }

  /** Every group met so far was either skipped or has all its entries, in order. */
  ghost predicate Collected(entries: seq<Old>, grouped: map<Chat, seq<Old>>, skipped: set<Chat>) {
    forall c :: CollectedAt(entries, grouped, skipped, c)
  }

  predicate CollectedAt(entries: seq<Old>, grouped: map<Chat, seq<Old>>, skipped: set<Chat>, c: Chat) {
    c in skipped || EntriesOf(entries, c) == if c in grouped then grouped[c] else []
  }

  lemma CollectNext(entries: seq<Old>, i: nat, grouped: map<Chat, seq<Old>>, skipped: set<Chat>)
    requires i < |entries| && Collected(entries[..i], grouped, skipped)
    ensures var o := entries[i];
            && Collected(entries[..i+1], grouped, skipped + {o.chat})
            && Collected(entries[..i+1], grouped[o.chat := (if o.chat in grouped then grouped[o.chat] else []) + [o]], skipped)
  {
    var o := entries[i];
    var more := grouped[o.chat := (if o.chat in grouped then grouped[o.chat] else []) + [o]];
    var fewer, longer := skipped + {o.chat}, entries[..i+1];
    assert longer[..i] == entries[..i];
    forall c ensures CollectedAt(longer, grouped, fewer, c) && CollectedAt(longer, more, skipped, c) {
      assert CollectedAt(entries[..i], grouped, skipped, c);
    }
  }

  lemma CollectedAll(entries: seq<Old>, grouped: map<Chat, seq<Old>>, skipped: set<Chat>)
    requires Collected(entries, grouped, skipped)
    ensures forall c | c !in skipped :: EntriesOf(entries, c) == if c in grouped then grouped[c] else []
  {
    forall c | c !in skipped ensures EntriesOf(entries, c) == if c in grouped then grouped[c] else [] {
      assert CollectedAt(entries, grouped, skipped, c);
    }
  }

  function EntriesOf(entries: seq<Old>, c: Chat): seq<Old> {
    if entries == [] then []
    else EntriesOf(entries[..|entries|-1], c) + if entries[|entries|-1].chat == c then [entries[|entries|-1]] else []
  }

  lemma {:induction false} SortedIsAll(entries: seq<Old>)
    ensures |ReverseSorted(entries)| == |entries| && multiset(ReverseSorted(entries)) == multiset(entries)
    ensures ByTime(ReverseSorted(entries))
  {
    if entries != [] {
      SortedIsAll(entries[1..]);
      InsertedIsAll(ReverseSorted(entries[1..]), entries[0]);
      InsertedByTime(ReverseSorted(entries[1..]), entries[0]);
      assert entries == [entries[0]] + entries[1..];
    }
  }

  function AtInstant(ts: nat): Old -> bool {
    (o: Old) => o.ts == ts
  }

  function Reversed(entries: seq<Old>): seq<Old> {
    if entries == [] then [] else Reversed(entries[1..]) + [entries[0]]
  }

  lemma {:induction false} InsertedLastOfTies(sorted: seq<Old>, o: Old, ts: nat)
    requires ByTime(sorted)
    ensures Filter(InsertOld(sorted, o), AtInstant(ts)) == Filter(sorted, AtInstant(ts)) + if o.ts == ts then [o] else []
  {
    if sorted == [] {
      FilterOne(o, AtInstant(ts));
    } else if o.ts < sorted[0].ts {
      FilterCons(o, sorted, AtInstant(ts));
      if o.ts == ts { FilterNone(sorted, AtInstant(ts)); }
    } else {
      InsertedLastOfTies(sorted[1..], o, ts);
      FilterCons(sorted[0], InsertOld(sorted[1..], o), AtInstant(ts));
      Regroup(if sorted[0].ts == ts then [sorted[0]] else [], Filter(sorted[1..], AtInstant(ts)), if o.ts == ts then [o] else []);
    }
  }

  /** Entries of one time come out in the reverse of the order they came in. */
  lemma {:induction false} TiesAreReversed(entries: seq<Old>, ts: nat)
    ensures Filter(ReverseSorted(entries), AtInstant(ts)) == Reversed(Filter(entries, AtInstant(ts)))
  {
    if entries != [] {
      TiesAreReversed(entries[1..], ts);
      SortedIsAll(entries[1..]);
      InsertedLastOfTies(ReverseSorted(entries[1..]), entries[0], ts);
      var rest := Filter(entries[1..], AtInstant(ts));
      if entries[0].ts == ts {
        assert Filter(entries, AtInstant(ts)) == [entries[0]] + rest && ([entries[0]] + rest)[1..] == rest;
      } else {
        assert Filter(entries, AtInstant(ts)) == rest;
      }
    }
  }

  ghost predicate ByTime(entries: seq<Old>) {
    forall i, j | 0 <= i < j < |entries| :: entries[i].ts <= entries[j].ts
  }

  lemma {:induction false} InsertedIsAll(sorted: seq<Old>, o: Old)
    ensures |InsertOld(sorted, o)| == |sorted| + 1 && multiset(InsertOld(sorted, o)) == multiset(sorted) + multiset{o}
  {
    if sorted != [] && o.ts >= sorted[0].ts {
      InsertedIsAll(sorted[1..], o);
      assert sorted == [sorted[0]] + sorted[1..];
    }
  }

  lemma {:induction false} InsertedByTime(sorted: seq<Old>, o: Old)
    requires ByTime(sorted)
    ensures ByTime(InsertOld(sorted, o))
  {
    if sorted != [] && o.ts >= sorted[0].ts {
      var rest := InsertOld(sorted[1..], o);
      InsertedByTime(sorted[1..], o);
      InsertedIsAll(sorted[1..], o);
      NoneEarlier(sorted[0].ts, (x: Old) => x.ts, sorted[1..], o, rest);
    }
  }
}
