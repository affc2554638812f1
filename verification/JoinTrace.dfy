/**
 * What a connection does around group joins, as a list of events, and what
 * every such list must look like (src/whatsapp/socket.ts: onSelfMembership,
 * releaseJoinWait, onHistoryBatch, onMessagesUpsert).
 */
module JoinTraces {
  import opened Common

  datatype Event =
    | Joined(chat: Chat, waits: bool)               // a membership change: in, with or without a join wait
    | Left(chat: Chat)                              // a membership change: out
    | Cleared                                       // link or unlink: all waits dropped
    | Held(chat: Chat, id: string)                  // live message put behind the history of the join
    | Captured(chat: Chat, id: string)              // new history row stored
    | Offered(chat: Chat)                           // history offered for replay, and the offer awaited
    | Released(chat: Chat, epoch: nat, ids: seq<string>)
    | Routed(chat: Chat, id: string, epoch: nat)    // live message handed to the router

  /** How many membership changes the group has seen. */
  function EpochOf(trace: seq<Event>, c: Chat): nat {
    if trace == [] then 0
    else
      var e := trace[|trace|-1];
      EpochOf(trace[..|trace|-1], c) + if (e.Joined? || e.Left?) && e.chat == c then 1 else 0
  }

  /** Is a join wait of the group open? */
  predicate WaitOpen(trace: seq<Event>, c: Chat) {
    trace != [] &&
    match trace[|trace|-1]
    case Joined(d, waits) => if d == c then waits else WaitOpen(trace[..|trace|-1], c)
    case Left(d) => d != c && WaitOpen(trace[..|trace|-1], c)
    case Cleared => false
    case Released(d, _, _) => d != c && WaitOpen(trace[..|trace|-1], c)
    case _ => WaitOpen(trace[..|trace|-1], c)
  }

  /** The messages held in the current join wait, in the order they were taken up. */
  function HeldIn(trace: seq<Event>, c: Chat): seq<string> {
    if trace == [] then []
    else
      var before := trace[..|trace|-1];
      match trace[|trace|-1]
      case Joined(d, _) => if d == c then [] else HeldIn(before, c)
      case Left(d) => if d == c then [] else HeldIn(before, c)
      case Cleared => []
      case Released(d, _, _) => if d == c then [] else HeldIn(before, c)
      case Held(d, id) => HeldIn(before, c) + if d == c then [id] else []
      case _ => HeldIn(before, c)
  }

  /** History was captured since the last membership change and not offered since. */
  predicate Unoffered(trace: seq<Event>, c: Chat) {
    trace != [] &&
    match trace[|trace|-1]
    case Joined(d, _) => d != c && Unoffered(trace[..|trace|-1], c)
    case Left(d) => d != c && Unoffered(trace[..|trace|-1], c)
    case Captured(d, _) => d == c || Unoffered(trace[..|trace|-1], c)
    case Offered(d) => d != c && Unoffered(trace[..|trace|-1], c)
    case _ => Unoffered(trace[..|trace|-1], c)
  }

  /** A release empties the open wait of the current epoch, whole and in order, after its
      history was offered; a live message is held exactly while the wait is open and
      routed only while none is, in the epoch it was taken up in. */
  predicate Lawful(trace: seq<Event>) {
    trace == [] ||
    var before := trace[..|trace|-1];
    Lawful(before) &&
    match trace[|trace|-1]
    case Released(c, epoch, ids) =>
      WaitOpen(before, c) && !Unoffered(before, c) && epoch == EpochOf(before, c) && ids == HeldIn(before, c)
    case Held(c, _) => WaitOpen(before, c)
    case Routed(c, _, epoch) => !WaitOpen(before, c) && epoch == EpochOf(before, c)
    case _ => true
  }

  lemma Extend(trace: seq<Event>, e: Event)
    ensures (trace + [e])[..|trace|] == trace && (trace + [e])[|trace + [e]| - 1] == e
  {
  }

  // ------------------------------------------------------------------
  // What lawful traces say
  // ------------------------------------------------------------------

  lemma {:induction false} LawfulPrefix(trace: seq<Event>, n: nat)
    requires Lawful(trace) && n <= |trace|
    ensures Lawful(trace[..n])
    decreases |trace|
  {
    if n == |trace| {
      assert trace[..n] == trace;
    } else {
      assert trace[..|trace|-1][..n] == trace[..n];
      LawfulPrefix(trace[..|trace|-1], n);
    }
  }

  lemma {:induction false} EpochGrows(trace: seq<Event>, i: nat, j: nat, c: Chat)
    requires i <= j <= |trace|
    ensures EpochOf(trace[..i], c) <= EpochOf(trace[..j], c)
    decreases j
  {
    if i < j {
      EpochGrows(trace, i, j - 1, c);
      assert trace[..j][..j-1] == trace[..j-1];
    }
  }

  /** A wait that is closed and opens again has seen a membership change. */
  lemma {:induction false} ReopenedIsLater(trace: seq<Event>, i: nat, j: nat, c: Chat)
    requires i <= j <= |trace| && !WaitOpen(trace[..i], c) && WaitOpen(trace[..j], c)
    ensures EpochOf(trace[..i], c) < EpochOf(trace[..j], c)
    decreases j
  {
    assert i < j;
    assert trace[..j][..j-1] == trace[..j-1];
    if WaitOpen(trace[..j-1], c) {
      ReopenedIsLater(trace, i, j - 1, c);
      EpochGrows(trace, j - 1, j, c);
    } else {
      EpochGrows(trace, i, j - 1, c);
    }
  }

  /** Each join wait is released at most once: two releases of a group never share an epoch. */
  lemma ReleasedOnce(trace: seq<Event>, i: nat, j: nat)
    requires Lawful(trace) && i < j < |trace|
    requires trace[i].Released? && trace[j].Released? && trace[i].chat == trace[j].chat
    ensures trace[i].epoch < trace[j].epoch
  {
    var c := trace[i].chat;
    LawfulPrefix(trace, i + 1);
    LawfulPrefix(trace, j + 1);
    assert trace[..i+1][..i] == trace[..i] && trace[..j+1][..j] == trace[..j];
    assert !WaitOpen(trace[..i+1], c);
    ReopenedIsLater(trace, i + 1, j, c);
  }

  /** A held message is released, if at all, after it was held and in the same epoch:
      between the two there is no membership change of the group. */
  lemma {:induction false} HeldBefore(trace: seq<Event>, c: Chat, k: nat)
    requires Lawful(trace) && k < |HeldIn(trace, c)|
    ensures exists n :: 0 <= n < |trace| && trace[n] == Held(c, HeldIn(trace, c)[k])
                        && EpochOf(trace[..n], c) == EpochOf(trace, c)
    decreases |trace|
  {
    var before, e := trace[..|trace|-1], trace[|trace|-1];
    if e == Held(c, HeldIn(trace, c)[k]) && k == |HeldIn(before, c)| {
      assert trace[..|trace|-1] == before;
    } else {
      HeldBefore(before, c, k);
      var n :| 0 <= n < |before| && before[n] == Held(c, HeldIn(before, c)[k]) && EpochOf(before[..n], c) == EpochOf(before, c);
      assert trace[n] == before[n] && trace[..n] == before[..n];
    }
  }

  /** The whole story of a release: every message was held earlier in the same epoch, and
      everything captured for that join was offered before. */
  lemma ReleaseIsFaithful(trace: seq<Event>, j: nat, k: nat)
    requires Lawful(trace) && j < |trace| && trace[j].Released? && k < |trace[j].ids|
    ensures exists n :: 0 <= n < j && trace[n] == Held(trace[j].chat, trace[j].ids[k])
                        && EpochOf(trace[..n], trace[j].chat) == trace[j].epoch
    ensures !Unoffered(trace[..j], trace[j].chat)
  {
    LawfulPrefix(trace, j + 1);
    assert trace[..j+1][..j] == trace[..j];
    HeldBefore(trace[..j], trace[j].chat, k);
    var c := trace[j].chat;
    var n :| 0 <= n < j && trace[..j][n] == Held(c, HeldIn(trace[..j], c)[k]) && EpochOf(trace[..j][..n], c) == EpochOf(trace[..j], c);
    assert trace[..j][..n] == trace[..n];
  }

  /** Captured history of an epoch is offered before that epoch's release. */
  lemma {:induction false} CapturedIsOffered(trace: seq<Event>, i: nat, c: Chat)
    requires i < |trace| && trace[i].Captured? && trace[i].chat == c
    requires EpochOf(trace[..i], c) == EpochOf(trace, c) && !Unoffered(trace, c)
    ensures exists n :: i < n < |trace| && trace[n] == Offered(c)
    decreases |trace|
  {
    var before, e := trace[..|trace|-1], trace[|trace|-1];
    if e != Offered(c) {
      assert i < |before|;
      assert before[..i] == trace[..i];
      EpochGrows(trace, i, |before|, c);
      CapturedIsOffered(before, i, c);
      var n :| i < n < |before| && before[n] == Offered(c);
      assert trace[n] == Offered(c);
    }
  }
}
