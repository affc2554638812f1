/**
 * What the replay of captured history means (src/routing/inboundRouter.ts:
 * onHistoryBatch): which rows are posted, in which order, and which are marked.
 */
module Replays {
  import opened Common
  import opened ChatBots
  import opened Lanes
  import opened Claims
  import Store = MessageStores

  /** What a history row is posted as once its media was fetched: None if it cannot be read. */
  datatype Replay = Replay(identity: Identity, query: string, file: Option<File>)

  ghost predicate RelayedHistory(rows: seq<Store.Row>, chat: Chat, id: string) {
    exists i :: 0 <= i < |rows| && rows[i].chat == chat && rows[i].id == id && rows[i].isHistory && rows[i].relayed
  }

  /** Replay was accepted at most once per history row, and each accepted row is marked. */
  ghost predicate ReplayIsMarked(replayed: seq<string>, rows: seq<Store.Row>, chat: Chat) {
    NoDuplicates(replayed) && forall id | id in replayed :: RelayedHistory(rows, chat, id)
  }

  /** The table keeps every row in place; only the relay mark can be added. */
  ghost predicate RowsGrow(a: seq<Store.Row>, b: seq<Store.Row>) {
    |a| <= |b| && forall i | 0 <= i < |a| :: b[i] == a[i].(relayed := b[i].relayed) && (a[i].relayed ==> b[i].relayed)
  }

  /** A row is posted as its replay says: context, under its sender's name, with at most its one file. */
  predicate IsReplay(p: Post, r: Replay) {
    p.mode == ForceSkip && p.identity == r.identity && p.query == r.query && p.files == if r.file.Some? then [r.file.value] else []
  }

  /** `made` are the posts of these rows, in order, one for each row that can be read; `ids` are
      the rows whose post was accepted. */
  predicate Posted(replay: Store.Row -> Option<Replay>, rows: seq<Store.Row>, made: seq<Post>, ids: seq<string>) {
    if rows == [] then made == [] && ids == []
    else
      var front, last := rows[..|rows|-1], rows[|rows|-1];
      if replay(last).None? then Posted(replay, front, made, ids)
      else
        && made != [] && IsReplay(made[|made|-1], replay(last).value)
        && if made[|made|-1].outcome.Accepted?
           then ids != [] && ids[|ids|-1] == last.id && Posted(replay, front, made[..|made|-1], ids[..|ids|-1])
           else Posted(replay, front, made[..|made|-1], ids)
  }

  /** None of the rows from i on was accepted yet. */
  ghost predicate NewFrom(list: seq<Store.Row>, i: nat, replayed: seq<string>) {
    forall k | i <= k < |list| :: list[k].id !in replayed
  }

  lemma NewNext(list: seq<Store.Row>, i: nat, before: seq<string>, after: seq<string>)
    requires i < |list| && NewFrom(list, i, before) && NoDuplicates(Ids(list))
    requires after == before || after == before + [list[i].id]
    ensures NewFrom(list, i + 1, after)
  {
    forall k | i < k < |list| ensures list[k].id !in after {
      assert Ids(list)[i] != Ids(list)[k];
    }
  }

  lemma RowInTable(list: seq<Store.Row>, rows: seq<Store.Row>, chat: Chat, i: nat)
    requires InTable(list, rows, chat) && i < |list|
    ensures InTable([list[i]], rows, chat)
  {
    assert list[i] in list;
  }

  /** One row more. */
  lemma RowsNext(replay: Store.Row -> Option<Replay>, list: seq<Store.Row>, i: nat, here: bool, made: seq<Post>, ids: seq<string>,
                 one: seq<Post>, posts: seq<Post>, before: seq<string>)
    returns (tried: nat, made': seq<Post>, ids': seq<string>)
    requires i < |list| && Posted(replay, list[..i], made, ids)
    requires one == [] ==> replay(list[i]).None? || !here
    requires one != [] ==> |one| == 1 && replay(list[i]).Some? && IsReplay(one[0], replay(list[i]).value)
    ensures tried <= i + 1 && (tried == i + 1 || !here) && Posted(replay, list[..tried], made', ids')
    ensures posts + made' == (posts + made) + one
    ensures before + ids' == (before + ids) + if one != [] && one[0].outcome.Accepted? then [list[i].id] else []
  {
    PostedNext(replay, list, i, made, ids, one);
    made' := made + one;
    ids' := if one != [] && one[0].outcome.Accepted? then ids + [list[i].id] else ids;
    tried := if one != [] || replay(list[i]).None? then i + 1 else i;
  }

  lemma PostedNext(replay: Store.Row -> Option<Replay>, rows: seq<Store.Row>, i: nat, made: seq<Post>, ids: seq<string>, one: seq<Post>)
    requires i < |rows| && Posted(replay, rows[..i], made, ids)
    requires if one == [] then true else |one| == 1 && replay(rows[i]).Some? && IsReplay(one[0], replay(rows[i]).value)
    ensures one == [] ==> made + one == made && (replay(rows[i]).None? ==> Posted(replay, rows[..i+1], made, ids))
    ensures one != [] ==> Posted(replay, rows[..i+1], made + one, if one[0].outcome.Accepted? then ids + [rows[i].id] else ids)
  {
    assert rows[..i+1][..i] == rows[..i] && rows[..i+1][i] == rows[i];
    if one != [] {
      assert one == [one[0]];
      assert (made + one)[..|made|] == made && (ids + [rows[i].id])[..|ids|] == ids;
    }
  }

  lemma {:induction false} PostedSkips(replay: Store.Row -> Option<Replay>, rows: seq<Store.Row>, made: seq<Post>, ids: seq<string>)
    requires Posted(replay, rows, made, ids)
    ensures AllSkips(made)
    decreases |rows|
  {
    if rows != [] {
      var front, last := rows[..|rows|-1], rows[|rows|-1];
      if replay(last).None? {
        PostedSkips(replay, front, made, ids);
      } else if made[|made|-1].outcome.Accepted? {
        PostedSkips(replay, front, made[..|made|-1], ids[..|ids|-1]);
      } else {
        PostedSkips(replay, front, made[..|made|-1], ids);
      }
    }
  }

  lemma BracketOf(p: Post, rowPosts: seq<Post>, closing: seq<Post>, tried: nat, ids: seq<string>, posts: seq<Post>) returns (h: History)
    requires p.mode == ForceSkip && AllSkips(rowPosts) && AllSkips(closing)
    ensures h.rowPosts == rowPosts && h.tried == tried && h.ids == ids && AllSkips(h.posts)
    ensures posts + h.posts == ((posts + [p]) + rowPosts) + closing
    ensures |h.posts| > |rowPosts| && h.posts[1..1+|rowPosts|] == rowPosts && h.posts[0] == p
  {
    h := History([p] + rowPosts + closing, rowPosts, tried, ids);
  }

  /** What a replay did: all its posts, those of rows, how many rows it got to, which were accepted. */
  datatype History = History(posts: seq<Post>, rowPosts: seq<Post>, tried: nat, ids: seq<string>)

  const NO_HISTORY := History([], [], 0, [])

  predicate AllSkips(posts: seq<Post>) {
    forall i | 0 <= i < |posts| :: posts[i].mode == ForceSkip
  }

  /** The rows it got to were posted in order and exactly the accepted ones recorded; once the
      opening was accepted it gets to all of them, unless the chat changed. */
  ghost predicate Replayed(replay: Store.Row -> Option<Replay>, list: seq<Store.Row>, before: seq<string>, after: seq<string>,
                           h: History, here: bool)
  {
    && h.tried <= |list| && Posted(replay, list[..h.tried], h.rowPosts, h.ids) && after == before + h.ids
    && (h.posts != [] ==> |h.posts| > |h.rowPosts| && h.posts[1..1+|h.rowPosts|] == h.rowPosts)
    && (h.posts != [] && h.posts[0].outcome.Accepted? && here ==> h.tried == |list|)
  }

  lemma NothingReplayed(replay: Store.Row -> Option<Replay>, list: seq<Store.Row>, replayed: seq<string>, here: bool)
    ensures Replayed(replay, list, replayed, replayed, NO_HISTORY, here)
  {
    assert list[..0] == [];
  }

  /** Every row that was waiting is in the list, or was marked meanwhile. */
  ghost predicate StillListed(list: seq<Store.Row>, a: seq<Store.Row>, b: seq<Store.Row>, chat: Chat) {
    forall i | 0 <= i < |a| && Store.Wanted(a[i], chat) :: a[i] in list || RelayedHistory(b, chat, a[i].id)
  }

  lemma RowsGrowSelf(rows: seq<Store.Row>)
    ensures RowsGrow(rows, rows)
  {
    forall i | 0 <= i < |rows| ensures rows[i] == rows[i].(relayed := rows[i].relayed) { }
  }

  lemma RowsGrowTwice(a: seq<Store.Row>, b: seq<Store.Row>, c: seq<Store.Row>)
    requires RowsGrow(a, b) && RowsGrow(b, c)
    ensures RowsGrow(a, c)
  {
    forall i | 0 <= i < |a| ensures c[i] == a[i].(relayed := c[i].relayed) && (a[i].relayed ==> c[i].relayed) {
      assert b[i] == a[i].(relayed := b[i].relayed);
      assert c[i] == b[i].(relayed := c[i].relayed);
    }
  }

  /** A list read now has every row that was waiting earlier and was not marked since. */
  lemma NoneMissed(a: seq<Store.Row>, b: seq<Store.Row>, chat: Chat)
    requires Store.Unique(b) && RowsGrow(a, b)
    ensures StillListed(Store.UnrelayedHistory(b, chat), a, b, chat)
  {
    Store.ReplayList(b, chat);
    forall i | 0 <= i < |a| && Store.Wanted(a[i], chat)
      ensures a[i] in Store.UnrelayedHistory(b, chat) || RelayedHistory(b, chat, a[i].id)
    {
      assert b[i] == a[i].(relayed := b[i].relayed);
      if !b[i].relayed { assert b[i] in b && Store.Wanted(b[i], chat); }
    }
  }

  lemma NoneDropped(a: seq<Store.Row>, b: seq<Store.Row>, chat: Chat)
    requires Store.Unique(a) && RowsGrow(a, b)
    ensures StillListed(Store.UnrelayedHistory(a, chat), a, b, chat)
  {
    Store.ReplayList(a, chat);
    forall i | 0 <= i < |a| && Store.Wanted(a[i], chat) ensures a[i] in Store.UnrelayedHistory(a, chat) {
      assert a[i] in a;
    }
  }

  lemma StillListedLater(list: seq<Store.Row>, a: seq<Store.Row>, b: seq<Store.Row>, c: seq<Store.Row>, chat: Chat)
    requires StillListed(list, a, b, chat) && RowsGrow(b, c)
    ensures StillListed(list, a, c, chat)
  {
    forall i | 0 <= i < |a| && Store.Wanted(a[i], chat) && a[i] !in list ensures RelayedHistory(c, chat, a[i].id) {
      var k :| 0 <= k < |b| && b[k].chat == chat && b[k].id == a[i].id && b[k].isHistory && b[k].relayed;
      assert c[k] == b[k].(relayed := c[k].relayed);
    }
  }

  /** A row still waiting for replay was never accepted before. */
  lemma WaitingIsNotReplayed(replayed: seq<string>, rows: seq<Store.Row>, chat: Chat)
    requires Store.Unique(rows) && ReplayIsMarked(replayed, rows, chat)
    ensures forall r | r in Store.UnrelayedHistory(rows, chat) :: r.id !in replayed && r.chat == chat
    ensures NoDuplicates(Ids(Store.UnrelayedHistory(rows, chat)))
  {
    Store.ReplayList(rows, chat);
    var list := Store.UnrelayedHistory(rows, chat);
    forall r | r in list ensures r.id !in replayed {
      assert r in rows && Store.Wanted(r, chat);
    }
  }

  function Ids(rows: seq<Store.Row>): (r: seq<string>)
    ensures |r| == |rows| && forall i | 0 <= i < |rows| :: r[i] == rows[i].id
  {
    seq(|rows|, i requires 0 <= i < |rows| => rows[i].id)
  }

  /** The rows of `list` from `i` on are in the table as history rows. */
  ghost predicate InTable(list: seq<Store.Row>, rows: seq<Store.Row>, chat: Chat) {
    forall r | r in list :: r.chat == chat && exists j :: 0 <= j < |rows| && rows[j].chat == chat && rows[j].id == r.id && rows[j].isHistory
  }

  lemma AcceptedIsMarked(rows: seq<Store.Row>, chat: Chat, row: Store.Row)
    requires Store.Unique(rows) && InTable([row], rows, chat)
    ensures RelayedHistory(Store.Marked(rows, chat, row.id), chat, row.id)
  {
    assert row in [row];
    var j :| 0 <= j < |rows| && rows[j].chat == chat && rows[j].id == row.id && rows[j].isHistory;
    assert Store.Find(rows, chat, row.id) == j;
    var marked := Store.Marked(rows, chat, row.id);
    assert marked[j].relayed && marked[j].isHistory && marked[j].chat == chat && marked[j].id == row.id;
  }

  lemma InTableStays(list: seq<Store.Row>, a: seq<Store.Row>, b: seq<Store.Row>, chat: Chat)
    requires InTable(list, a, chat) && RowsGrow(a, b)
    ensures InTable(list, b, chat)
  {
    forall r | r in list
      ensures exists j :: 0 <= j < |b| && b[j].chat == chat && b[j].id == r.id && b[j].isHistory
    {
      var j :| 0 <= j < |a| && a[j].chat == chat && a[j].id == r.id && a[j].isHistory;
      assert b[j].id == r.id;
    }
  }

  lemma ReplayListInTable(rows: seq<Store.Row>, chat: Chat)
    requires Store.Unique(rows)
    ensures InTable(Store.UnrelayedHistory(rows, chat), rows, chat)
  {
    Store.ReplayList(rows, chat);
    forall r | r in Store.UnrelayedHistory(rows, chat)
      ensures r.chat == chat && exists j :: 0 <= j < |rows| && rows[j].chat == chat && rows[j].id == r.id && rows[j].isHistory
    {
      assert r in rows && Store.Wanted(r, chat);
      var j :| 0 <= j < |rows| && rows[j] == r;
    }
  }

  lemma ReplayMarksStay(replayed: seq<string>, a: seq<Store.Row>, b: seq<Store.Row>, chat: Chat)
    requires RowsGrow(a, b) && ReplayIsMarked(replayed, a, chat)
    ensures ReplayIsMarked(replayed, b, chat)
  {
    forall id | id in replayed ensures RelayedHistory(b, chat, id) {
      var i :| 0 <= i < |a| && a[i].chat == chat && a[i].id == id && a[i].isHistory && a[i].relayed;
      assert b[i].chat == chat;
    }
  }
}
