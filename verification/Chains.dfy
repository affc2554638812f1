/**
 * The per-chat promise chains of the router (src/routing/inboundRouter.ts:
 * enqueue). A job starts once the job it was chained to has settled; the map
 * entry of a chat goes away when its last job settles, one turn later.
 */
module Chains {
  import opened Common

  datatype Stage = Waiting | Running | Settled

  /** A chained job: its chat and the job it waits for, if any. */
  datatype Job = Job(chat: Chat, after: Option<nat>)

  // ------------------------------------------------------------------
  // The invariant, on values
  // ------------------------------------------------------------------

  predicate Finished(stage: seq<Stage>, i: nat) {
    i < |stage| && stage[i] == Settled
  }

  /** A job that started has every earlier job of its chat behind it. */
  ghost predicate InOrder(jobs: seq<Job>, stage: seq<Stage>)
    requires |stage| == |jobs|
  {
    forall i, j | 0 <= i < j < |jobs| && jobs[i].chat == jobs[j].chat && stage[j] != Waiting :: stage[i] == Settled
  }

  /** An earlier job of the same chat has settled, or the job waits for it or a later one. */
  ghost predicate Linked(jobs: seq<Job>, stage: seq<Stage>)
    requires |stage| == |jobs|
  {
    forall i, j | 0 <= i < j < |jobs| && jobs[i].chat == jobs[j].chat ::
      stage[i] == Settled || WaitsPast(jobs, i, j)
  }

  predicate WaitsPast(jobs: seq<Job>, i: nat, j: nat)
    requires i < j < |jobs|
  {
    jobs[j].after.Some? && i <= jobs[j].after.value < j && jobs[jobs[j].after.value].chat == jobs[j].chat
  }

  /** The map names the last job of a chat, and forgets a chat only when all its jobs settled. */
  ghost predicate Tails(tails: map<Chat, nat>, jobs: seq<Job>, stage: seq<Stage>)
    requires |stage| == |jobs|
  {
    && (forall c | c in tails :: tails[c] < |jobs| && jobs[tails[c]].chat == c)
    && (forall i | 0 <= i < |jobs| :: if jobs[i].chat in tails then i <= tails[jobs[i].chat] else stage[i] == Settled)
  }

  ghost predicate Good(tails: map<Chat, nat>, jobs: seq<Job>, stage: seq<Stage>) {
    |stage| == |jobs| && InOrder(jobs, stage) && Linked(jobs, stage) && Tails(tails, jobs, stage)
  }

  /** Two jobs of one chat never run at the same time. */
  lemma NoOverlap(tails: map<Chat, nat>, jobs: seq<Job>, stage: seq<Stage>, i: nat, j: nat)
    requires Good(tails, jobs, stage) && i < |jobs| && j < |jobs| && i != j && jobs[i].chat == jobs[j].chat
    ensures !(stage[i] == Running && stage[j] == Running)
    ensures i < j && stage[j] != Waiting ==> stage[i] == Settled
  {
  }

  lemma AfterEnqueue(tails: map<Chat, nat>, jobs: seq<Job>, stage: seq<Stage>, c: Chat)
    requires Good(tails, jobs, stage)
    ensures Good(tails[c := |jobs|], jobs + [Job(c, Lookup(tails, c))], stage + [Waiting])
  {
    var jobs', stage' := jobs + [Job(c, Lookup(tails, c))], stage + [Waiting];
    forall i, j | 0 <= i < j < |jobs'| && jobs'[i].chat == jobs'[j].chat
      ensures stage'[i] == Settled || WaitsPast(jobs', i, j)
    {
      if j < |jobs| {
        assert stage[i] == Settled || WaitsPast(jobs, i, j);
      }
    }
  }

  lemma AfterStart(tails: map<Chat, nat>, jobs: seq<Job>, stage: seq<Stage>, j: nat)
    requires Good(tails, jobs, stage) && j < |jobs| && stage[j] == Waiting
    requires jobs[j].after.Some? ==> Finished(stage, jobs[j].after.value)
    ensures Good(tails, jobs, stage[j := Running])
  {
    forall i | 0 <= i < j && jobs[i].chat == jobs[j].chat ensures stage[i] == Settled {
      assert stage[i] == Settled || WaitsPast(jobs, i, j);
    }
  }

  lemma AfterSettle(tails: map<Chat, nat>, jobs: seq<Job>, stage: seq<Stage>, j: nat)
    requires Good(tails, jobs, stage) && j < |jobs| && stage[j] == Running
    ensures Good(tails, jobs, stage[j := Settled])
  {
  }

  lemma AfterForget(tails: map<Chat, nat>, jobs: seq<Job>, stage: seq<Stage>, c: Chat)
    requires Good(tails, jobs, stage) && c in tails && stage[tails[c]] == Settled
    ensures Good(tails - {c}, jobs, stage)
  {
  }

  // ------------------------------------------------------------------
  // The object
  // ------------------------------------------------------------------

  class ChainMap {
    /** Chat to the promise its next job is chained to, named by the job it belongs to. */
    var chains: map<Chat, nat>
    var jobs: seq<Job>
    var stage: seq<Stage>

    ghost predicate Valid()
      reads this
    {
      Good(chains, jobs, stage)
    }

    constructor ()
      ensures Valid() && jobs == []
    {
      chains, jobs, stage := map[], [], [];
    }

    method Enqueue(c: Chat) returns (run: nat)
      requires Valid()
      modifies this
      ensures Valid() && run == |old(jobs)|
      ensures jobs == old(jobs) + [Job(c, Lookup(old(chains), c))] && stage == old(stage) + [Waiting]
    {
      AfterEnqueue(chains, jobs, stage, c);
      run := |jobs|;
      jobs, stage, chains := jobs + [Job(c, Lookup(chains, c))], stage + [Waiting], chains[c := run];
    }

    /** The awaited promise settled, well or badly: the work begins. */
    method Start(j: nat)
      requires Valid() && j < |jobs| && stage[j] == Waiting
      requires jobs[j].after.Some? ==> Finished(stage, jobs[j].after.value)
      modifies this`stage
      ensures Valid() && stage == old(stage)[j := Running]
      ensures forall i | 0 <= i < j && jobs[i].chat == jobs[j].chat :: stage[i] == Settled
    {
      AfterStart(chains, jobs, stage, j);
      stage := stage[j := Running];
    }

    method Settle(j: nat)
      requires Valid() && j < |jobs| && stage[j] == Running
      modifies this`stage
      ensures Valid() && stage == old(stage)[j := Settled]
    {
      AfterSettle(chains, jobs, stage, j);
      stage := stage[j := Settled];
    }

    /** The `finally` of a settled job. */
    method Forget(j: nat)
      requires Valid() && j < |jobs| && stage[j] == Settled
      modifies this`chains
      ensures Valid()
      ensures chains == if Lookup(old(chains), jobs[j].chat) == Some(j) then old(chains) - {jobs[j].chat} else old(chains)
    {
      var c := jobs[j].chat;
      if c in chains && chains[c] == j {
        AfterForget(chains, jobs, stage, c);
        chains := chains - {c};
      }
    }
  }
}
