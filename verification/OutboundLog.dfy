/**
 * The outbound idempotency log (src/storage/outboundLog.ts): one row per
 * (connection, inbound message id), reserved by `claim` and closed by a
 * terminal write that must present the claim's token.
 *
 * A token is a fresh uuid in the source; here it is the next value of a
 * counter, so it is never issued twice. Times are plain integers supplied by
 * the caller: nothing below needs the clock to be monotone.
 */
module OutboundLogs {
  import opened Common

  const STALE_PENDING_MS := 2 * 60 * 1000

  datatype Status = Pending | Sent | Failed

  datatype Key = Key(connectionId: string, idempotencyKey: string)

  datatype Row = Row(
    status: Status,
    token: Option<nat>,
    chatJid: Option<string>,
    messageRef: Option<string>,
    updatedAt: int
  )

  datatype Log = Log(rows: map<Key, Row>, issued: nat)

  datatype ClaimResult =
    | Claimed(token: nat)
    | AlreadySent(ref: Option<string>)
    | InFlight

  const EMPTY := Log(map[], 0)

  // ------------------------------------------------------------------
  // The operations on values
  // ------------------------------------------------------------------

  function ClaimAnswer(s: Log, k: Key, now: int): ClaimResult {
    if k !in s.rows then Claimed(s.issued)
    else
      var row := s.rows[k];
      if row.status == Sent then AlreadySent(row.messageRef)
      else if row.status == Failed || now - row.updatedAt > STALE_PENDING_MS then Claimed(s.issued)
      else InFlight
  }

  function AfterClaim(s: Log, k: Key, now: int): Log {
    if !ClaimAnswer(s, k, now).Claimed? then s.(issued := s.issued + 1)
    else
      var row := if k in s.rows
                 then s.rows[k].(status := Pending, token := Some(s.issued), updatedAt := now)
                 else Row(Pending, Some(s.issued), None, None, now);
      Log(s.rows[k := row], s.issued + 1)
  }

  /** What a terminal write puts in the row. */
  datatype Terminal =
    | MarkSent(chatJid: string, messageRef: string)
    | MarkRelayed(relayChat: string)
    | MarkFailed

  /** The token comparison is the whole fence: the row's status is not looked at. */
  predicate TokenMatches(s: Log, k: Key, token: nat) {
    k in s.rows && s.rows[k].token == Some(token)
  }

  function ClosedRow(row: Row, t: Terminal, now: int): Row {
    match t
    case MarkSent(jid, ref) => row.(status := Sent, chatJid := Some(jid), messageRef := Some(ref), updatedAt := now)
    case MarkRelayed(jid) => row.(status := Sent, chatJid := Some(jid), messageRef := None, updatedAt := now)
    case MarkFailed => row.(status := Failed, updatedAt := now)
  }

  function AfterWrite(s: Log, k: Key, token: nat, t: Terminal, now: int): Log {
    if TokenMatches(s, k, token) then s.(rows := s.rows[k := ClosedRow(s.rows[k], t, now)]) else s
  }

  function GatewayKey(connectionId: string, messageId: string): Key {
    Key(connectionId, "gateway:" + messageId)
  }

  /** Recorded ids are told apart by connection and id, and each is kept behind the prefix. */
  lemma GatewayKeysDiffer(c: string, a: string, d: string, b: string)
    ensures GatewayKey(c, a) == GatewayKey(d, b) <==> c == d && a == b
    ensures "gateway:" <= GatewayKey(c, a).idempotencyKey
  {
    var p := "gateway:";
    assert (p + a)[|p|..] == a && (p + b)[|p|..] == b;
  }

  /** INSERT OR IGNORE: an existing row is left alone. */
  function AfterRecord(s: Log, connectionId: string, chatJid: string, messageId: string, now: int): Log {
    var k := GatewayKey(connectionId, messageId);
    if k in s.rows then s
    else s.(rows := s.rows[k := Row(Sent, None, Some(chatJid), Some(messageId), now)])
  }

  predicate IsGateway(s: Log, connectionId: string, chatJid: string, messageId: string) {
    var k := GatewayKey(connectionId, messageId);
    k in s.rows && s.rows[k].chatJid == Some(chatJid) && s.rows[k].messageRef == Some(messageId)
  }

  // ------------------------------------------------------------------
  // Runs: any interleaving of any number of senders
  // ------------------------------------------------------------------

  datatype Op =
    | Claim(key: Key, at: int)
    | Write(key: Key, token: nat, terminal: Terminal, at: int)
    | Record(connectionId: string, chatJid: string, messageId: string, at: int)

  function Apply(s: Log, op: Op): Log {
    match op
    case Claim(k, now) => AfterClaim(s, k, now)
    case Write(k, token, t, now) => AfterWrite(s, k, token, t, now)
    case Record(c, jid, id, now) => AfterRecord(s, c, jid, id, now)
  }

  /** The state after `ops`, oldest first. */
  function Run(ops: seq<Op>): Log {
    if ops == [] then EMPTY else Apply(Run(ops[..|ops|-1]), ops[|ops|-1])
  }

  /** The token most recently granted for `k`, read off the run. */
  function LatestGrant(ops: seq<Op>, k: Key): Option<nat> {
    if ops == [] then None
    else
      var before := ops[..|ops|-1];
      var op := ops[|ops|-1];
      if op.Claim? && op.key == k && ClaimAnswer(Run(before), k, op.at).Claimed?
      then Some(ClaimAnswer(Run(before), k, op.at).token)
      else LatestGrant(before, k)
  }

  /** How many terminal writes of the run presented `token`, whatever their effect. */
  function WritesOf(ops: seq<Op>, token: nat): nat {
    if ops == [] then 0
    else WritesOf(ops[..|ops|-1], token) +
         if ops[|ops|-1].Write? && ops[|ops|-1].token == token then 1 else 0
  }

  /** Each holder closes its claim at most once. */
  ghost predicate SingleUse(ops: seq<Op>) {
    forall token: nat :: WritesOf(ops, token) <= 1
  }

  predicate SentAt(ops: seq<Op>, k: Key) {
    k in Run(ops).rows && Run(ops).rows[k].status == Sent
  }

  /** How many writes of the run succeeded in closing `k` as sent. */
  function Deliveries(ops: seq<Op>, k: Key): nat {
    if ops == [] then 0
    else
      var before := ops[..|ops|-1];
      var op := ops[|ops|-1];
      Deliveries(before, k) +
      if op.Write? && op.key == k && !op.terminal.MarkFailed? && TokenMatches(Run(before), k, op.token) then 1 else 0
  }

  lemma RunExtends(ops: seq<Op>, op: Op)
    ensures Run(ops + [op]) == Apply(Run(ops), op)
  {
    assert (ops + [op])[..|ops|] == ops;
  }

  lemma WritesOfExtends(ops: seq<Op>, op: Op, token: nat)
    ensures WritesOf(ops + [op], token) == WritesOf(ops, token) + if op.Write? && op.token == token then 1 else 0
  {
    assert (ops + [op])[..|ops|] == ops;
  }

  // ------------------------------------------------------------------
  // Token fencing
  // ------------------------------------------------------------------

  /** Exactly the latest grant owns the row; rows nobody claimed carry no token. */
  lemma {:induction false} RowTokenIsLatestGrant(ops: seq<Op>, k: Key)
    ensures k in Run(ops).rows ==> Run(ops).rows[k].token == LatestGrant(ops, k)
    ensures LatestGrant(ops, k).Some? ==> k in Run(ops).rows && LatestGrant(ops, k).value < Run(ops).issued
  {
    if ops != [] {
      RowTokenIsLatestGrant(ops[..|ops|-1], k);
    }
  }

  lemma OwnsIffLatest(ops: seq<Op>, k: Key, token: nat)
    ensures TokenMatches(Run(ops), k, token) <==> LatestGrant(ops, k) == Some(token)
  {
    RowTokenIsLatestGrant(ops, k);
  }

  /** A terminal write takes effect exactly when it presents the latest grant;
      a superseded holder's write is refused and leaves the log as it was. */
  lemma OnlyLatestGrantWrites(ops: seq<Op>, k: Key, token: nat, t: Terminal, now: int)
    ensures TokenMatches(Run(ops), k, token) <==> LatestGrant(ops, k) == Some(token)
    ensures LatestGrant(ops, k) != Some(token) ==> Run(ops + [Write(k, token, t, now)]) == Run(ops)
    ensures LatestGrant(ops, k) == Some(token) ==>
              var row := Run(ops + [Write(k, token, t, now)]).rows[k];
              row.token == Some(token) && row.status == (if t.MarkFailed? then Failed else Sent)
  {
    RowTokenIsLatestGrant(ops, k);
    RunExtends(ops, Write(k, token, t, now));
  }

  /** Once superseded, a token never gets the row back, whatever happens next. */
  lemma {:induction false} SupersededForever(ops: seq<Op>, more: seq<Op>, k: Key, token: nat)
    requires token < Run(ops).issued
    requires LatestGrant(ops, k) != Some(token)
    ensures LatestGrant(ops + more, k) != Some(token)
    ensures Run(ops).issued <= Run(ops + more).issued
    decreases |more|
  {
    if more == [] {
      assert ops + more == ops;
    } else {
      var front, op := more[..|more|-1], more[|more|-1];
      SupersededForever(ops, front, k, token);
      assert ops + more == (ops + front) + [op];
      assert ((ops + front) + [op])[..|ops + front|] == ops + front;
    }
  }

  // ------------------------------------------------------------------
  // When is a claim lost while its holder waits?
  // ------------------------------------------------------------------

  /** The run: a second claim just past the stale window takes the row, and the first
      holder's write is refused. */
  lemma ClaimCanBeLost(k: Key, jid: string, ref: string)
    ensures var ops := [Claim(k, 0), Claim(k, STALE_PENDING_MS + 1)];
            && LatestGrant([Claim(k, 0)], k) == Some(0) && LatestGrant(ops, k) == Some(1)
            && Run(ops + [Write(k, 0, MarkSent(jid, ref), STALE_PENDING_MS + 2)]) == Run(ops)
  {
    var first, second := Claim(k, 0), Claim(k, STALE_PENDING_MS + 1);
    RunExtends([], first);
    RunExtends([first], second);
    assert [] + [first] == [first] && [first] + [second] == [first, second];
    assert [first, second][..1] == [first] && [first][..0] == [];
    OnlyLatestGrantWrites([first, second], k, 0, MarkSent(jid, ref), STALE_PENDING_MS + 2);
  }

  /** Some claim of the key was granted during `more`. */
  predicate GrantedDuring(ops: seq<Op>, more: seq<Op>, k: Key)
    decreases |more|
  {
    more != [] &&
    var front, op := more[..|more|-1], more[|more|-1];
    GrantedDuring(ops, front, k) || (op.Claim? && op.key == k && ClaimAnswer(Run(ops + front), k, op.at).Claimed?)
  }

  /** A holder loses its claim if and only if the key is granted again meanwhile, whatever
      else anybody writes. */
  lemma {:induction false} ClaimIsLostIffGrantedAgain(ops: seq<Op>, more: seq<Op>, k: Key, token: nat)
    requires LatestGrant(ops, k) == Some(token)
    ensures LatestGrant(ops + more, k) != Some(token) <==> GrantedDuring(ops, more, k)
    decreases |more|
  {
    RowTokenIsLatestGrant(ops, k);
    if more == [] {
      assert ops + more == ops;
    } else {
      var front, op := more[..|more|-1], more[|more|-1];
      ClaimIsLostIffGrantedAgain(ops, front, k, token);
      assert ops + more == (ops + front) + [op];
      assert ((ops + front) + [op])[..|ops + front|] == ops + front;
      IssuedStays(ops, front);
      if GrantedDuring(ops, front, k) {
        SupersededForever(ops + front, [op], k, token);
      }
    }
  }

  lemma {:induction false} IssuedStays(ops: seq<Op>, more: seq<Op>)
    ensures Run(ops).issued <= Run(ops + more).issued
    decreases |more|
  {
    if more == [] {
      assert ops + more == ops;
    } else {
      var front, op := more[..|more|-1], more[|more|-1];
      IssuedStays(ops, front);
      assert ops + more == (ops + front) + [op];
      RunExtends(ops + front, op);
    }
  }

  /** A claim of the key that comes later than the stale window allows. */
  predicate ComesLate(op: Op, k: Key, since: int) {
    op.Claim? && op.key == k && op.at - since > STALE_PENDING_MS
  }

  /** In terms of the clock: while its holder writes nothing, a pending claim is lost if and
      only if somebody claims the key more than the stale window after it. */
  lemma {:induction false} ClaimIsLostIffClaimedLate(ops: seq<Op>, more: seq<Op>, k: Key, token: nat)
    requires TokenMatches(Run(ops), k, token) && Run(ops).rows[k].status == Pending
    requires forall i | 0 <= i < |more| :: more[i].Write? ==> more[i].token != token
    ensures LatestGrant(ops + more, k) != Some(token) <==>
              exists i | 0 <= i < |more| :: ComesLate(more[i], k, Run(ops).rows[k].updatedAt)
    ensures LatestGrant(ops + more, k) == Some(token) ==>
              k in Run(ops + more).rows && Run(ops + more).rows[k] == Run(ops).rows[k]
    decreases |more|
  {
    OwnsIffLatest(ops, k, token);
    if more == [] {
      assert ops + more == ops;
    } else {
      var front, op := more[..|more|-1], more[|more|-1];
      var since := Run(ops).rows[k].updatedAt;
      ClaimIsLostIffClaimedLate(ops, front, k, token);
      assert ops + more == (ops + front) + [op];
      RowTokenIsLatestGrant(ops, k);
      IssuedStays(ops, front);
      if LatestGrant(ops + front, k) == Some(token) {
        OneMoreStep(ops + front, op, k, token);
        assert (exists i | 0 <= i < |more| :: ComesLate(more[i], k, since)) <==> ComesLate(op, k, since) by {
          assert more[|more|-1] == op;
          assert forall i | 0 <= i < |front| :: more[i] == front[i];
        }
      } else {
        SupersededForever(ops + front, [op], k, token);
        var i :| 0 <= i < |front| && ComesLate(front[i], k, since);
        assert more[i] == front[i];
      }
    }
  }

  /** One step of others over a pending claim. */
  lemma OneMoreStep(ops: seq<Op>, op: Op, k: Key, token: nat)
    requires TokenMatches(Run(ops), k, token) && Run(ops).rows[k].status == Pending
    requires op.Write? ==> op.token != token
    ensures LatestGrant(ops + [op], k) != Some(token) <==> ComesLate(op, k, Run(ops).rows[k].updatedAt)
    ensures !ComesLate(op, k, Run(ops).rows[k].updatedAt) ==>
              k in Run(ops + [op]).rows && Run(ops + [op]).rows[k] == Run(ops).rows[k]
  {
    RunExtends(ops, op);
    RowTokenIsLatestGrant(ops, k);
    RowTokenIsLatestGrant(ops + [op], k);
    assert (ops + [op])[..|ops|] == ops;
  }

  /** A sent row is never granted again, so its token stays the latest grant. */
  lemma SentIsNeverGranted(ops: seq<Op>, k: Key, now: int)
    requires SentAt(ops, k)
    ensures ClaimAnswer(Run(ops), k, now) == AlreadySent(Run(ops).rows[k].messageRef)
    ensures Run(ops + [Claim(k, now)]).rows == Run(ops).rows
  {
    RunExtends(ops, Claim(k, now));
  }

  // ------------------------------------------------------------------
  // When does a sent row stay sent?
  // ------------------------------------------------------------------

  predicate Reopens(op: Op, k: Key, token: Option<nat>) {
    op.Write? && op.key == k && op.terminal.MarkFailed? && Some(op.token) == token
  }

  /** The run that breaks it: one holder closes its own claim twice. */
  lemma SentCanBeUndone(k: Key, jid: string, ref: string)
    ensures var ops := [Claim(k, 0), Write(k, 0, MarkSent(jid, ref), 1)];
            SentAt(ops, k) && !SentAt(ops + [Write(k, 0, MarkFailed, 2)], k)
  {
    var send, fail := Write(k, 0, MarkSent(jid, ref), 1), Write(k, 0, MarkFailed, 2);
    RunExtends([], Claim(k, 0));
    RunExtends([Claim(k, 0)], send);
    RunExtends([Claim(k, 0), send], fail);
    assert [] + [Claim(k, 0)] == [Claim(k, 0)];
    assert [Claim(k, 0)] + [send] == [Claim(k, 0), send];
  }

  /** Sent at every moment from `ops` to the end of `more`. */
  ghost predicate SentThroughout(ops: seq<Op>, more: seq<Op>, k: Key) {
    forall n | 0 <= n <= |more| :: SentAt(ops + more[..n], k)
  }

  predicate NeverReopened(more: seq<Op>, k: Key, token: Option<nat>) {
    forall i | 0 <= i < |more| :: !Reopens(more[i], k, token)
  }

  lemma ThroughoutExtends(ops: seq<Op>, more: seq<Op>, op: Op, k: Key)
    ensures SentThroughout(ops, more + [op], k) <==> SentThroughout(ops, more, k) && SentAt((ops + more) + [op], k)
  {
    var all := more + [op];
    assert forall n | 0 <= n <= |more| :: all[..n] == more[..n];
    assert all[..|all|] == all && ops + all == (ops + more) + [op];
    if SentThroughout(ops, all, k) {
      forall n | 0 <= n <= |more| ensures SentAt(ops + more[..n], k) {
        assert SentAt(ops + all[..n], k);
      }
      assert SentAt(ops + all[..|all|], k);
    }
  }

  /** Exactly that: a sent row stays sent throughout a run if and only if the
      row's own token is not used to mark it failed during the run. */
  lemma {:induction false} SentStaysSentIff(ops: seq<Op>, more: seq<Op>, k: Key)
    requires SentAt(ops, k)
    ensures SentThroughout(ops, more, k) <==> NeverReopened(more, k, Run(ops).rows[k].token)
    decreases |more|
  {
    if more == [] {
      assert ops + more[..0] == ops;
    } else {
      var front, op := more[..|more|-1], more[|more|-1];
      SentStaysSentIff(ops, front, k);
      ThroughoutExtends(ops, front, op, k);
      assert more == front + [op];
      if SentThroughout(ops, front, k) {
        SentKeepsToken(ops, front, k);
        OneStepSent(ops + front, op, k);
      }
    }
  }

  lemma OneStepSent(ops: seq<Op>, op: Op, k: Key)
    requires SentAt(ops, k)
    ensures SentAt(ops + [op], k) <==> !Reopens(op, k, Run(ops).rows[k].token)
  {
    RunExtends(ops, op);
  }

  lemma {:induction false} SentKeepsToken(ops: seq<Op>, more: seq<Op>, k: Key)
    requires SentThroughout(ops, more, k)
    ensures SentAt(ops, k) && SentAt(ops + more, k)
    ensures Run(ops + more).rows[k].token == Run(ops).rows[k].token
    decreases |more|
  {
    assert ops + more[..0] == ops && more[..|more|] == more;
    assert SentAt(ops + more[..0], k) && SentAt(ops + more[..|more|], k);
    if more != [] {
      var front, op := more[..|more|-1], more[|more|-1];
      assert more == front + [op];
      ThroughoutExtends(ops, front, op, k);
      SentKeepsToken(ops, front, k);
      assert ops + more == (ops + front) + [op];
      TokenStays(ops + front, op, k);
    }
  }

  lemma TokenStays(ops: seq<Op>, op: Op, k: Key)
    requires SentAt(ops, k) && SentAt(ops + [op], k)
    ensures Run(ops + [op]).rows[k].token == Run(ops).rows[k].token
  {
    RunExtends(ops, op);
  }

  // ------------------------------------------------------------------
  // One write per holder: sent is absorbing, one delivery per message
  // ------------------------------------------------------------------

  /** While holders are single-use, a key's deliveries are counted by its status:
      one once it is sent (or none if the gateway recorded the row itself). */
  lemma {:induction false} DeliveryInvariant(ops: seq<Op>, k: Key)
    requires SingleUse(ops)
    ensures !SentAt(ops, k) ==> Deliveries(ops, k) == 0
    ensures SentAt(ops, k) ==>
              var token := Run(ops).rows[k].token;
              Deliveries(ops, k) == (if token.Some? then 1 else 0)
              && (token.Some? ==> WritesOf(ops, token.value) == 1)
  {
    if ops != [] {
      var before, op := ops[..|ops|-1], ops[|ops|-1];
      forall token: nat ensures WritesOf(before, token) <= 1 {
        assert WritesOf(ops, token) <= 1;
      }
      DeliveryInvariant(before, k);
      RowTokenIsLatestGrant(before, k);
      if op.Write? {
        assert WritesOf(ops, op.token) <= 1;
      }
    }
  }

  /** If each holder makes at most one terminal write, sent is absorbing. */
  lemma SentIsAbsorbing(ops: seq<Op>, more: seq<Op>, k: Key)
    requires SingleUse(ops + more)
    requires SentAt(ops, k)
    ensures SentAt(ops + more, k)
    ensures Run(ops + more).rows[k] == Run(ops).rows[k]
    decreases |more|
  {
    if more == [] {
      assert ops + more == ops;
    } else {
      var front, op := more[..|more|-1], more[|more|-1];
      assert ops + more == (ops + front) + [op];
      forall token: nat ensures WritesOf(ops + front, token) <= 1 {
        WritesOfExtends(ops + front, op, token);
        assert WritesOf(ops + more, token) <= 1;
      }
      SentIsAbsorbing(ops, front, k);
      RunExtends(ops + front, op);
      if op.Write? {
        DeliveryInvariant(ops + front, k);
        WritesOfExtends(ops + front, op, op.token);
        assert WritesOf(ops + more, op.token) <= 1;
      }
    }
  }

  /** Then a message is answered at most once in the log, over any interleaving. */
  lemma AtMostOneDelivery(ops: seq<Op>, k: Key)
    requires SingleUse(ops)
    ensures Deliveries(ops, k) <= 1
    ensures Deliveries(ops, k) == 1 ==> SentAt(ops, k)
  {
    DeliveryInvariant(ops, k);
  }

  // ------------------------------------------------------------------
  // Our own messages
  // ------------------------------------------------------------------

  /** The row of a recorded id: no token will ever match it. */
  predicate Reserved(s: Log, connectionId: string, chatJid: string, messageId: string) {
    && IsGateway(s, connectionId, chatJid, messageId)
    && s.rows[GatewayKey(connectionId, messageId)].token.None? && s.rows[GatewayKey(connectionId, messageId)].status == Sent
  }

  /** Once its id is recorded first, our own message is recognised for ever, whatever anybody does. */
  lemma {:induction false} OwnMessageIsRecognised(before: seq<Op>, connectionId: string, chatJid: string, messageId: string,
                                                  now: int, more: seq<Op>)
    requires GatewayKey(connectionId, messageId) !in Run(before).rows
    ensures IsGateway(Run(before + [Record(connectionId, chatJid, messageId, now)] + more), connectionId, chatJid, messageId)
    ensures Reserved(Run(before + [Record(connectionId, chatJid, messageId, now)] + more), connectionId, chatJid, messageId)
  {
    var recorded := before + [Record(connectionId, chatJid, messageId, now)];
    if more == [] {
      assert recorded + more == recorded;
      RunExtends(before, Record(connectionId, chatJid, messageId, now));
    } else {
      var front, op := more[..|more|-1], more[|more|-1];
      OwnMessageIsRecognised(before, connectionId, chatJid, messageId, now, front);
      assert recorded + more == (recorded + front) + [op];
      RunExtends(recorded + front, op);
    }
  }

  // ------------------------------------------------------------------
  // The repository object
  // ------------------------------------------------------------------

  class OutboundLog {
    var rows: map<Key, Row>
    var issued: nat
    /** Every operation so far, in the order the table saw them. */
    ghost var history: seq<Op>

    ghost predicate Valid()
      reads this
    {
      Log(rows, issued) == Run(history)
    }

    constructor ()
      ensures Valid() && history == []
    {
      rows, issued, history := map[], 0, [];
    }

    method Claim(connectionId: string, idempotencyKey: string, now: int) returns (r: ClaimResult)
      requires Valid()
      modifies this
      ensures Valid()
      ensures history == old(history) + [Op.Claim(Key(connectionId, idempotencyKey), now)]
      ensures r == ClaimAnswer(old(Log(rows, issued)), Key(connectionId, idempotencyKey), now)
      ensures Log(rows, issued) == AfterClaim(old(Log(rows, issued)), Key(connectionId, idempotencyKey), now)
      ensures r.Claimed? ==> r.token == old(issued) && rows[Key(connectionId, idempotencyKey)].token == Some(r.token)
      ensures issued == old(issued) + 1
    {
      var k := Key(connectionId, idempotencyKey);
      RunExtends(history, Op.Claim(k, now));
      history := history + [Op.Claim(k, now)];
      var token := issued;
      issued := issued + 1;
      if k !in rows {
        rows := rows[k := Row(Pending, Some(token), None, None, now)];
        return Claimed(token);
      }
      var existing := rows[k];
      if existing.status == Sent {
        return AlreadySent(existing.messageRef);
      }
      var ageMs := now - existing.updatedAt;
      var reclaimable := existing.status == Failed || ageMs > STALE_PENDING_MS;
      if !reclaimable {
        return InFlight;
      }
      rows := rows[k := existing.(status := Pending, token := Some(token), updatedAt := now)];
      return Claimed(token);
    }

    method Terminate(connectionId: string, idempotencyKey: string, token: nat, t: Terminal, now: int) returns (ok: bool)
      requires Valid()
      modifies this
      ensures Valid() && issued == old(issued)
      ensures history == old(history) + [Write(Key(connectionId, idempotencyKey), token, t, now)]
      ensures ok <==> LatestGrant(old(history), Key(connectionId, idempotencyKey)) == Some(token)
      ensures !ok ==> rows == old(rows)
    {
      var k := Key(connectionId, idempotencyKey);
      RunExtends(history, Write(k, token, t, now));
      OwnsIffLatest(history, k, token);
      history := history + [Write(k, token, t, now)];
      ok := k in rows && rows[k].token == Some(token);
      if ok {
        var row := CloseRow(rows[k], t, now);
        rows := rows[k := row];
      }
    }

    /** The three UPDATE statements. */
    method CloseRow(row: Row, t: Terminal, now: int) returns (r: Row)
      ensures r == ClosedRow(row, t, now)
    {
      match t {
        case MarkSent(jid, ref) =>
          r := row.(status := Sent, chatJid := Some(jid), messageRef := Some(ref), updatedAt := now);
        case MarkRelayed(jid) =>
          r := row.(status := Sent, chatJid := Some(jid), messageRef := None, updatedAt := now);
        case MarkFailed =>
          r := row.(status := Failed, updatedAt := now);
      }
    }

    method RecordGatewayMessage(connectionId: string, chatJid: string, messageId: string, now: int)
      requires Valid()
      modifies this
      ensures Valid() && issued == old(issued)
      ensures history == old(history) + [Record(connectionId, chatJid, messageId, now)]
    {
      RunExtends(history, Record(connectionId, chatJid, messageId, now));
      history := history + [Record(connectionId, chatJid, messageId, now)];
      var k := GatewayKey(connectionId, messageId);
      if k !in rows {
        rows := rows[k := Row(Sent, None, Some(chatJid), Some(messageId), now)];
      }
    }

    predicate IsGatewayMessage(connectionId: string, chatJid: string, messageId: string)
      reads this
    {
      IsGateway(Log(rows, issued), connectionId, chatJid, messageId)
    }
  }
}
