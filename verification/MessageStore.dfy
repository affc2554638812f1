/**
 * The capture-all message table (src/storage/messageStore.ts). A row is either
 * a live row or a history row for ever; `relayed` marks history the downstream
 * relay accepted. Rows are kept in rowid order.
 */
module MessageStores {
  import opened Common

  datatype Row = Row(chat: Chat, id: string, ts: nat, isHistory: bool, relayed: bool)

  /** Position of the row for (chat, id), or |rows|. */
  function Find(rows: seq<Row>, chat: Chat, id: string): (n: nat)
    ensures n <= |rows|
    ensures n < |rows| ==> rows[n].chat == chat && rows[n].id == id
    ensures forall i | 0 <= i < n :: !(rows[i].chat == chat && rows[i].id == id)
  {
    if rows == [] then 0
    else if rows[0].chat == chat && rows[0].id == id then 0
    else 1 + Find(rows[1..], chat, id)
  }

  predicate Holds(rows: seq<Row>, chat: Chat, id: string) {
    Find(rows, chat, id) < |rows|
  }

  /** The unique index on (connection, chat, message id). */
  ghost predicate Unique(rows: seq<Row>) {
    forall i, j | 0 <= i < j < |rows| :: rows[i].chat != rows[j].chat || rows[i].id != rows[j].id
  }

  /** INSERT OR IGNORE. */
  function Inserted(rows: seq<Row>, chat: Chat, id: string, ts: nat, isHistory: bool): seq<Row> {
    if Holds(rows, chat, id) then rows else rows + [Row(chat, id, ts, isHistory, false)]
  }

  function Marked(rows: seq<Row>, chat: Chat, id: string): seq<Row> {
    var n := Find(rows, chat, id);
    if n < |rows| then rows[n := rows[n].(relayed := true)] else rows
  }

  predicate Wanted(row: Row, chat: Chat) {
    row.chat == chat && row.isHistory && !row.relayed
  }

  /** ORDER BY ts, rowid: put `row` before the first strictly later one. */
  function InsertByTs(sorted: seq<Row>, row: Row): seq<Row> {
    if sorted == [] then [row]
    else if row.ts < sorted[0].ts then [row] + sorted
    else [sorted[0]] + InsertByTs(sorted[1..], row)
  }

  /** SELECT … WHERE is_history = 1 AND relayed_at IS NULL ORDER BY ts ASC, rowid ASC. */
  function UnrelayedHistory(rows: seq<Row>, chat: Chat): seq<Row> {
    if rows == [] then []
    else
      var front, last := rows[..|rows|-1], rows[|rows|-1];
      if Wanted(last, chat) then InsertByTs(UnrelayedHistory(front, chat), last)
      else UnrelayedHistory(front, chat)
  }

  ghost predicate OldestFirst(rows: seq<Row>) {
    forall i, j | 0 <= i < j < |rows| :: rows[i].ts <= rows[j].ts
  }

  lemma {:induction false} InsertAddsRow(sorted: seq<Row>, row: Row)
    ensures multiset(InsertByTs(sorted, row)) == multiset(sorted) + multiset{row}
    ensures |InsertByTs(sorted, row)| == |sorted| + 1
  {
    if sorted != [] && row.ts >= sorted[0].ts {
      InsertAddsRow(sorted[1..], row);
      assert sorted == [sorted[0]] + sorted[1..];
    }
  }

  lemma {:induction false} InsertKeepsOrder(sorted: seq<Row>, row: Row)
    requires OldestFirst(sorted)
    ensures OldestFirst(InsertByTs(sorted, row))
  {
    if sorted != [] && row.ts >= sorted[0].ts {
      var tail := sorted[1..];
      var rest := InsertByTs(tail, row);
      InsertKeepsOrder(tail, row);
      InsertAddsRow(tail, row);
      NoneEarlier(sorted[0].ts, (r: Row) => r.ts, tail, row, rest);
    }
  }

  /** The rows of the table that are waiting, in rowid order. */
  function Waiting(rows: seq<Row>, chat: Chat): seq<Row> {
    if rows == [] then []
    else Waiting(rows[..|rows|-1], chat) +
         if Wanted(rows[|rows|-1], chat) then [rows[|rows|-1]] else []
  }

  /** The replay list is the waiting rows, each as often as the table has it, oldest first. */
  lemma {:induction false} ReplayListIsWaitingOldestFirst(rows: seq<Row>, chat: Chat)
    ensures OldestFirst(UnrelayedHistory(rows, chat))
    ensures multiset(UnrelayedHistory(rows, chat)) == multiset(Waiting(rows, chat))
    ensures |UnrelayedHistory(rows, chat)| == |Waiting(rows, chat)|
  {
    if rows != [] {
      var front, last := rows[..|rows|-1], rows[|rows|-1];
      ReplayListIsWaitingOldestFirst(front, chat);
      if Wanted(last, chat) {
        InsertKeepsOrder(UnrelayedHistory(front, chat), last);
        InsertAddsRow(UnrelayedHistory(front, chat), last);
      }
    }
  }

  function AtTime(ts: nat): Row -> bool {
    (r: Row) => r.ts == ts
  }

  lemma {:induction false} InsertLastOfTies(sorted: seq<Row>, row: Row, ts: nat)
    requires OldestFirst(sorted)
    ensures Filter(InsertByTs(sorted, row), AtTime(ts)) == Filter(sorted, AtTime(ts)) + if row.ts == ts then [row] else []
  {
    if sorted == [] {
      FilterOne(row, AtTime(ts));
    } else if row.ts < sorted[0].ts {
      FilterCons(row, sorted, AtTime(ts));
      if row.ts == ts { FilterNone(sorted, AtTime(ts)); }
    } else {
      InsertLastOfTies(sorted[1..], row, ts);
      FilterCons(sorted[0], InsertByTs(sorted[1..], row), AtTime(ts));
      Regroup(if sorted[0].ts == ts then [sorted[0]] else [], Filter(sorted[1..], AtTime(ts)), if row.ts == ts then [row] else []);
    }
  }

  /** Rows of one time keep their rowid order. */
  lemma {:induction false} TiesByRowid(rows: seq<Row>, chat: Chat, ts: nat)
    ensures Filter(UnrelayedHistory(rows, chat), AtTime(ts)) == Filter(Waiting(rows, chat), AtTime(ts))
  {
    if rows != [] {
      var front, last := rows[..|rows|-1], rows[|rows|-1];
      TiesByRowid(front, chat, ts);
      ReplayListIsWaitingOldestFirst(front, chat);
      if Wanted(last, chat) {
        InsertLastOfTies(UnrelayedHistory(front, chat), last, ts);
        FilterBoth(Waiting(front, chat), [last], AtTime(ts));
        FilterOne(last, AtTime(ts));
      } else {
        assert Waiting(rows, chat) == Waiting(front, chat);
      }
    }
  }

  lemma {:induction false} WaitingAreWanted(rows: seq<Row>, chat: Chat)
    ensures forall r | r in Waiting(rows, chat) :: r in rows && Wanted(r, chat)
    ensures forall r | r in rows && Wanted(r, chat) :: r in Waiting(rows, chat)
  {
    if rows != [] {
      var front, last := rows[..|rows|-1], rows[|rows|-1];
      WaitingAreWanted(front, chat);
      assert rows == front + [last];
    }
  }

  lemma {:induction false} WaitingIdsAreDistinct(rows: seq<Row>, chat: Chat)
    requires Unique(rows)
    ensures forall r: Row :: multiset(Waiting(rows, chat))[r] <= 1
    ensures forall r, r' | r in Waiting(rows, chat) && r' in Waiting(rows, chat) && r.id == r'.id :: r == r'
  {
    if rows != [] {
      var front, last := rows[..|rows|-1], rows[|rows|-1];
      assert rows == front + [last];
      WaitingIdsAreDistinct(front, chat);
      WaitingAreWanted(front, chat);
      if Wanted(last, chat) {
        forall r | r in Waiting(front, chat) ensures r.id != last.id {
          var i :| 0 <= i < |front| && front[i] == r;
          assert rows[i] == r && rows[|rows|-1] == last;
        }
      }
    }
  }

  /** What a replay job gets: every waiting row once, under distinct ids, oldest first. */
  lemma ReplayList(rows: seq<Row>, chat: Chat)
    requires Unique(rows)
    ensures var list := UnrelayedHistory(rows, chat);
            && OldestFirst(list)
            && (forall r :: r in list <==> r in rows && Wanted(r, chat))
            && (forall i, j | 0 <= i < j < |list| :: list[i].id != list[j].id)
  {
    ReplayListIsWaitingOldestFirst(rows, chat);
    WaitingAreWanted(rows, chat);
    WaitingIdsAreDistinct(rows, chat);
    var list, waiting := UnrelayedHistory(rows, chat), Waiting(rows, chat);
    forall r ensures r in list <==> r in waiting {
      assert r in list <==> r in multiset(list);
    }
    forall i, j | 0 <= i < j < |list| ensures list[i].id != list[j].id {
      if list[i].id == list[j].id {
        assert list[i] in waiting && list[j] in waiting;
        TwiceInSeq(list, i, j);
      }
    }
  }

  lemma TwiceInSeq<T>(s: seq<T>, i: nat, j: nat)
    requires i < j < |s| && s[i] == s[j]
    ensures multiset(s)[s[i]] >= 2
  {
    assert s == s[..i] + [s[i]] + s[i+1..j] + [s[j]] + s[j+1..];
  }

  /** A row's kind is decided when it is inserted: nothing turns a live row into history or back. */
  lemma KindIsFixed(rows: seq<Row>, chat: Chat, id: string, ts: nat, isHistory: bool, c: Chat, m: string)
    requires Unique(rows)
    ensures Unique(Inserted(rows, chat, id, ts, isHistory)) && Unique(Marked(rows, chat, id))
    ensures Holds(rows, c, m) ==>
              var kind := rows[Find(rows, c, m)].isHistory;
              && Holds(Inserted(rows, chat, id, ts, isHistory), c, m)
              && Inserted(rows, chat, id, ts, isHistory)[Find(Inserted(rows, chat, id, ts, isHistory), c, m)].isHistory == kind
              && Holds(Marked(rows, chat, id), c, m)
              && Marked(rows, chat, id)[Find(Marked(rows, chat, id), c, m)].isHistory == kind
  {
    var more := Inserted(rows, chat, id, ts, isHistory);
    var marked := Marked(rows, chat, id);
    if Holds(rows, c, m) {
      var n := Find(rows, c, m);
      assert more[n] == rows[n];
      assert marked[n].chat == c && marked[n].id == m;
    }
  }

  class MessageStore {
    var rows: seq<Row>

    ghost predicate Valid()
      reads this
    {
      Unique(rows)
    }

    constructor ()
      ensures Valid() && rows == []
    {
      rows := [];
    }

    /** Shared by capture and captureHistory; true when the row is new. */
    method Insert(chat: Chat, id: string, ts: nat, isHistory: bool) returns (isNew: bool)
      requires Valid()
      modifies this
      ensures Valid()
      ensures isNew == !Holds(old(rows), chat, id)
      ensures rows == Inserted(old(rows), chat, id, ts, isHistory)
    {
      isNew := !Holds(rows, chat, id);
      if isNew {
        rows := rows + [Row(chat, id, ts, isHistory, false)];
      }
    }

    /** COALESCE keeps the first relay time, so marking twice is marking once. */
    method MarkRelayed(chat: Chat, id: string) returns (found: bool)
      requires Valid()
      modifies this
      ensures Valid()
      ensures rows == Marked(old(rows), chat, id)
      ensures found == Holds(old(rows), chat, id)
    {
      var n := Find(rows, chat, id);
      found := n < |rows|;
      if found {
        rows := rows[n := rows[n].(relayed := true)];
      }
    }

    function ListUnrelayedHistory(chat: Chat): seq<Row>
      reads this
    {
      UnrelayedHistory(rows, chat)
    }
  }
}
