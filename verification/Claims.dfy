/**
 * The claims a chat's jobs hold on the outbound log
 * (src/routing/inboundRouter.ts, processBatch): every token `claim` grants is
 * closed by exactly one terminal write, or given to exactly one dispatch.
 * Other senders use the same log at any time.
 */
module Claims {
  import opened Common
  import opened OutboundLogs

  ghost predicate NoDuplicates<T>(s: seq<T>) {
    forall i, j | 0 <= i < j < |s| :: s[i] != s[j]
  }

  /** Nobody writes with a token that was never issued. */
  ghost predicate IssuedOnly(history: seq<Op>, issued: nat) {
    forall op | op in history && op.Write? :: op.token < issued
  }

  lemma {:induction false} UnissuedIsUnwritten(history: seq<Op>, issued: nat, token: nat)
    requires IssuedOnly(history, issued) && issued <= token
    ensures WritesOf(history, token) == 0
  {
    if history != [] {
      UnissuedIsUnwritten(history[..|history|-1], issued, token);
    }
  }

  /** Claim conservation: a granted token was written exactly once, unless the
      running job still holds it (never written) or one dispatch was given it. */
  ghost predicate Conserved(granted: set<nat>, held: set<nat>, handed: seq<nat>, history: seq<Op>) {
    && held <= granted
    && NoDuplicates(handed)
    && (forall t | t in handed :: t in granted && t !in held)
    && (forall t | t in granted && t !in handed :: WritesOf(history, t) == if t in held then 0 else 1)
  }

  /** How a token was closed. */
  datatype Closing = Closing(key: Key, terminal: Terminal)

  predicate Wrote(history: seq<Op>, c: Closing, token: nat) {
    exists i | 0 <= i < |history| :: history[i].Write? && history[i].key == c.key && history[i].token == token && history[i].terminal == c.terminal
  }

  /** Each recorded closing is in the log. */
  ghost predicate InLog(history: seq<Op>, closed: map<nat, Closing>) {
    forall t | t in closed :: Wrote(history, closed[t], t)
  }

  lemma InLogStays(history: seq<Op>, closed: map<nat, Closing>, op: Op)
    requires InLog(history, closed)
    ensures InLog(history + [op], closed)
  {
    var more := history + [op];
    forall t | t in closed ensures Wrote(more, closed[t], t) {
      var c := closed[t];
      var i :| 0 <= i < |history| && history[i].Write? && history[i].key == c.key && history[i].token == t && history[i].terminal == c.terminal;
      assert more[i] == history[i];
    }
  }

  lemma InLogNext(history: seq<Op>, closed: map<nat, Closing>, c: Closing, token: nat, at: int)
    requires InLog(history, closed)
    ensures InLog(history + [Write(c.key, token, c.terminal, at)], closed[token := c])
  {
    var op := Write(c.key, token, c.terminal, at);
    InLogStays(history, closed, op);
    assert (history + [op])[|history|] == op;
  }

  lemma WriteCounts(history: seq<Op>, op: Op)
    ensures forall t: nat :: WritesOf(history + [op], t) == WritesOf(history, t) + if op.Write? && op.token == t then 1 else 0
  {
    forall t: nat ensures WritesOf(history + [op], t) == WritesOf(history, t) + if op.Write? && op.token == t then 1 else 0 {
      WritesOfExtends(history, op, t);
    }
  }

  class ClaimDesk {
    const log: OutboundLog
    /** Tokens granted to this chat's jobs; those the running job still holds;
        those given to a dispatch, in order. */
    var granted: set<nat>
    var held: set<nat>
    var handed: seq<nat>
    /** The terminal write each closed token got. */
    ghost var closed: map<nat, Closing>

    ghost predicate Valid()
      reads this, log
    {
      && log.Valid() && IssuedOnly(log.history, log.issued)
      && (forall t | t in granted :: t < log.issued)
      && Conserved(granted, held, handed, log.history)
      && InLog(log.history, closed)
    }

    constructor (log: OutboundLog)
      requires log.Valid() && IssuedOnly(log.history, log.issued)
      ensures Valid() && this.log == log && granted == {} && held == {} && handed == [] && closed == map[]
    {
      this.log := log;
      granted, held, handed, closed := {}, {}, [], map[];
    }

    /** The key was claimed at `now` and nothing happened to its row since. */
    predicate PendingSince(connectionId: string, id: string, now: int)
      reads log
    {
      var k := Key(connectionId, id);
      k in log.rows && log.rows[k].status == Pending && log.rows[k].updatedAt == now
    }

    /** A claim of the key at `now` would be granted. */
    predicate Claimable(connectionId: string, id: string, now: int)
      reads log
    {
      ClaimAnswer(Log(log.rows, log.issued), Key(connectionId, id), now).Claimed?
    }

    method Claim(connectionId: string, id: string, now: int) returns (r: ClaimResult)
      requires Valid()
      modifies this`granted, this`held, log
      ensures Valid()
      ensures r.Claimed? ==> r.token !in old(granted) && granted == old(granted) + {r.token} && held == old(held) + {r.token}
      ensures !r.Claimed? ==> granted == old(granted) && held == old(held)
      ensures r.Claimed? ==> PendingSince(connectionId, id, now) && !old(PendingSince(connectionId, id, now))
      ensures forall other | old(PendingSince(connectionId, other, now)) :: PendingSince(connectionId, other, now)
      ensures r.Claimed? <==> old(Claimable(connectionId, id, now))
      ensures !Claimable(connectionId, id, now)
      ensures forall other | !old(Claimable(connectionId, other, now)) :: !Claimable(connectionId, other, now)
    {
      WriteCounts(log.history, Op.Claim(Key(connectionId, id), now));
      UnissuedIsUnwritten(log.history, log.issued, log.issued);
      InLogStays(log.history, closed, Op.Claim(Key(connectionId, id), now));
      r := log.Claim(connectionId, id, now);
      if r.Claimed? {
        granted, held := granted + {r.token}, held + {r.token};
      }
    }

    /** The one terminal write of a held token. */
    method Close(connectionId: string, id: string, token: nat, t: Terminal, now: int)
      requires Valid() && token in held
      modifies this`held, this`closed, log
      ensures Valid() && held == old(held) - {token}
      ensures closed == old(closed)[token := Closing(Key(connectionId, id), t)]
    {
      InLogNext(log.history, closed, Closing(Key(connectionId, id), t), token, now);
      WriteCounts(log.history, Write(Key(connectionId, id), token, t, now));
      var ok := log.Terminate(connectionId, id, token, t, now);
      held, closed := held - {token}, closed[token := Closing(Key(connectionId, id), t)];
    }

    /** The token leaves the job unwritten; whoever dispatches it must write it. */
    method HandOver(token: nat)
      requires Valid() && token in held
      modifies this`held, this`handed
      ensures Valid() && held == old(held) - {token} && handed == old(handed) + [token]
      ensures WritesOf(log.history, token) == 0
    {
      held, handed := held - {token}, handed + [token];
    }

    /** Any number of steps of other senders on the log, dispatches included. */
    method Interfere()
      requires Valid()
      modifies log
      ensures Valid()
      ensures forall t | t in granted && t !in handed :: WritesOf(log.history, t) == WritesOf(old(log.history), t)
    {
      var steps: nat :| true;
      for i := 0 to steps
        invariant Valid()
        invariant forall t | t in granted && t !in handed :: WritesOf(log.history, t) == WritesOf(old(log.history), t)
      {
        InterfereOnce();
      }
    }

    method InterfereOnce()
      requires Valid()
      modifies log
      ensures Valid()
      ensures forall t | t in granted && t !in handed :: WritesOf(log.history, t) == WritesOf(old(log.history), t)
    {
      var kind: int :| true;
      var connectionId: string :| true;
      var id: string :| true;
      var now: int :| true;
      if kind == 0 {
        WriteCounts(log.history, Op.Claim(Key(connectionId, id), now));
        InLogStays(log.history, closed, Op.Claim(Key(connectionId, id), now));
        var r := log.Claim(connectionId, id, now);
      } else if kind == 1 {
        var chatJid: string :| true;
        WriteCounts(log.history, Record(connectionId, chatJid, id, now));
        InLogStays(log.history, closed, Record(connectionId, chatJid, id, now));
        log.RecordGatewayMessage(connectionId, chatJid, id, now);
      } else {
        var token: nat :| true;
        var t: Terminal :| true;
        // Each sender writes with its own tokens only.
        if token < log.issued && (token !in granted || token in handed) {
          WriteCounts(log.history, Write(Key(connectionId, id), token, t, now));
          InLogStays(log.history, closed, Write(Key(connectionId, id), token, t, now));
          var ok := log.Terminate(connectionId, id, token, t, now);
        }
      }
    }
  }
}
