/** Small datatypes and facts shared by every component of the gateway model. */
module Common {

  datatype Option<+T> = None | Some(value: T)

  /** A chat on one WhatsApp connection: the key of every per-chat table. */
  datatype Chat = Chat(connectionId: string, chatJid: string)

  /** A file on its way to the agent; `content` is base64. */
  datatype File = File(fileName: string, mimeType: string, content: string)

  /** `m` with the entry for `k`, or None. */
  function Lookup<K, V>(m: map<K, V>, k: K): Option<V> {
    if k in m then Some(m[k]) else None
  }

  newtype byte = x: int | 0 <= x < 256

  function Max(a: int, b: int): int { if a >= b then a else b }

  function Min(a: int, b: int): int { if a <= b then a else b }

  lemma Regroup<T>(a: seq<T>, b: seq<T>, c: seq<T>)
    ensures (a + b) + c == a + (b + c)
  {
  }

  function Filter<T>(s: seq<T>, keep: T -> bool): seq<T> {
    if s == [] then [] else (if keep(s[0]) then [s[0]] else []) + Filter(s[1..], keep)
  }

  lemma {:induction false} FilterBoth<T>(a: seq<T>, b: seq<T>, keep: T -> bool)
    ensures Filter(a + b, keep) == Filter(a, keep) + Filter(b, keep)
  {
    if a == [] {
      assert a + b == b;
    } else {
      assert (a + b)[1..] == a[1..] + b;
      FilterBoth(a[1..], b, keep);
    }
  }

  lemma FilterOne<T>(x: T, keep: T -> bool)
    ensures Filter([x], keep) == if keep(x) then [x] else []
  {
    assert [x][1..] == [];
  }

  lemma {:induction false} FilterNone<T>(s: seq<T>, keep: T -> bool)
    requires forall i | 0 <= i < |s| :: !keep(s[i])
    ensures Filter(s, keep) == []
  {
    if s != [] { FilterNone(s[1..], keep); }
  }

  lemma FilterCons<T>(x: T, s: seq<T>, keep: T -> bool)
    ensures Filter([x] + s, keep) == (if keep(x) then [x] else []) + Filter(s, keep)
  {
    FilterBoth([x], s, keep);
    FilterOne(x, keep);
  }

  /** One more entry that is not earlier leaves none that is. */
  lemma NoneEarlier<T>(ts: nat, time: T -> nat, entries: seq<T>, x: T, all: seq<T>)
    requires multiset(all) == multiset(entries) + multiset{x}
    requires time(x) >= ts && forall i | 0 <= i < |entries| :: ts <= time(entries[i])
    ensures forall i | 0 <= i < |all| :: ts <= time(all[i])
  {
    forall i | 0 <= i < |all| ensures ts <= time(all[i]) {
      assert all[i] in multiset(all);
    }
  }
}
