/**
 * The group metadata cache (src/whatsapp/groupMeta.ts): rows fenced against
 * slow fetches by a version per group, and against removed groups by a set.
 * Any number of fetches may be in flight; each has a beginning, up to the
 * await, and an end.
 */
module GroupMeta {
  import opened Common

  datatype Row = Row(subject: string, raw: string, updatedAt: int)

  /** What WhatsApp returns: the group it says it is about, and its data. */
  datatype Meta = Meta(group: Chat, subject: string, raw: string)

  /** A fetch in flight: the version it saw and the row it may fall back on. */
  datatype Fetch = Fetch(group: Chat, version: nat, cached: Option<Row>)

  /** The cache, and beside it a logical clock: when each group was last invalidated and
      when the fetch behind each row began. */
  datatype State = State(removed: set<Chat>, versions: map<Chat, nat>, rows: map<Chat, Row>,
                         clock: nat, invalidatedAt: map<Chat, nat>, begunAt: map<Chat, nat>)

  const START := State({}, map[], map[], 0, map[], map[])

  function Version(s: State, g: Chat): nat { if g in s.versions then s.versions[g] else 0 }

  function InvalidatedAt(s: State, g: Chat): nat { if g in s.invalidatedAt then s.invalidatedAt[g] else 0 }

  // ------------------------------------------------------------------
  // Steps
  // ------------------------------------------------------------------

  function Invalidated(s: State, g: Chat): State {
    State(s.removed, s.versions[g := Version(s, g) + 1], s.rows - {g},
          s.clock + 1, s.invalidatedAt[g := s.clock + 1], s.begunAt - {g})
  }

  function Removed(s: State, g: Chat): State {
    Invalidated(s.(removed := s.removed + {g}), g)
  }

  function Allowed(s: State, g: Chat): State {
    s.(removed := s.removed - {g})
  }

  function Patched(s: State, g: Chat, subject: string, now: int): State {
    if g in s.rows then s.(rows := s.rows[g := s.rows[g].(subject := subject, updatedAt := now)]) else s
  }

  /** The row is keyed by the group the answer names, not by the group asked for. */
  function Upserted(s: State, meta: Meta, start: nat, now: int): State {
    if meta.group in s.removed then s
    else s.(rows := s.rows[meta.group := Row(meta.subject, meta.raw, now)], begunAt := s.begunAt[meta.group := start])
  }

  function Begin(s: State, g: Chat): Fetch {
    Fetch(g, Version(s, g), Lookup(s.rows, g))
  }

  /** A fetch begun now has this start. */
  function StartOf(s: State): nat { s.clock + 1 }

  function Begun(s: State): State {
    s.(clock := s.clock + 1)
  }

  /** The end of a fetch: a version that moved on discards the answer. */
  function Finished(s: State, f: Fetch, start: nat, answer: Option<Meta>, now: int): State {
    if answer.None? || f.version != Version(s, f.group) then s else Upserted(s, answer.value, start, now)
  }

  // ------------------------------------------------------------------
  // The fence
  // ------------------------------------------------------------------

  ghost predicate RemovedHaveNoRow(s: State) {
    forall g | g in s.removed :: g !in s.rows
  }

  /** The row of a group came from a fetch begun after the group's latest invalidation. */
  predicate FreshAt(s: State, g: Chat) {
    g in s.rows ==> g in s.begunAt && s.begunAt[g] > InvalidatedAt(s, g)
  }

  ghost predicate Fresh(s: State) {
    forall g :: FreshAt(s, g)
  }

  /** A fetch whose version still holds began after the latest invalidation. */
  predicate FetchFits(s: State, f: Fetch, start: nat) {
    && start <= s.clock && f.version <= Version(s, f.group)
    && (f.version == Version(s, f.group) ==> start > InvalidatedAt(s, f.group))
  }

  /** The clock is past the group's invalidations and past the fetch behind its row. */
  predicate ClockAt(s: State, g: Chat) {
    InvalidatedAt(s, g) <= s.clock && (g in s.begunAt ==> s.begunAt[g] <= s.clock)
  }

  ghost predicate ClockAhead(s: State) {
    forall g :: ClockAt(s, g)
  }

  /** Steps that touch no invalidation time and do not turn the clock back. */
  lemma ClockStaysAhead(s: State, s': State)
    requires ClockAhead(s) && s'.invalidatedAt == s.invalidatedAt && s'.begunAt == s.begunAt && s.clock <= s'.clock
    ensures ClockAhead(s')
  {
    forall g ensures ClockAt(s', g) { assert ClockAt(s, g); }
  }

  ghost predicate Fenced(s: State, flights: seq<Fetch>, starts: seq<nat>) {
    && RemovedHaveNoRow(s) && ClockAhead(s)
    && |starts| == |flights| && forall i | 0 <= i < |flights| :: FetchFits(s, flights[i], starts[i])
  }

  lemma InvalidateKeepsFence(s: State, flights: seq<Fetch>, starts: seq<nat>, g: Chat, removes: bool)
    requires Fenced(s, flights, starts)
    ensures var s' := if removes then Removed(s, g) else Invalidated(s, g);
            Fenced(s', flights, starts) && (Fresh(s) ==> Fresh(s'))
  {
    var s' := if removes then Removed(s, g) else Invalidated(s, g);
    forall h ensures ClockAt(s', h) { assert ClockAt(s, h); }
    if Fresh(s) {
      forall h ensures FreshAt(s', h) { assert FreshAt(s, h); }
    }
  }

  lemma BeginKeepsFence(s: State, flights: seq<Fetch>, starts: seq<nat>, g: Chat)
    requires Fenced(s, flights, starts)
    ensures Fenced(Begun(s), flights + [Begin(s, g)], starts + [StartOf(s)]) && (Fresh(s) ==> Fresh(Begun(s)))
  {
    ClockStaysAhead(s, Begun(s));
    assert ClockAt(s, g);
    if Fresh(s) {
      forall h ensures FreshAt(Begun(s), h) { assert FreshAt(s, h); }
    }
  }

  lemma OtherStepsKeepFence(s: State, flights: seq<Fetch>, starts: seq<nat>, g: Chat, subject: string, now: int)
    requires Fenced(s, flights, starts)
    ensures Fenced(Allowed(s, g), flights, starts) && (Fresh(s) ==> Fresh(Allowed(s, g)))
    ensures Fenced(Patched(s, g, subject, now), flights, starts) && (Fresh(s) ==> Fresh(Patched(s, g, subject, now)))
  {
    ClockStaysAhead(s, Allowed(s, g));
    ClockStaysAhead(s, Patched(s, g, subject, now));
    if Fresh(s) {
      forall h ensures FreshAt(Allowed(s, g), h) && FreshAt(Patched(s, g, subject, now), h) { assert FreshAt(s, h); }
    }
  }

  /** Does the end of this fetch write a row? */
  predicate Writes(s: State, f: Fetch, answer: Option<Meta>) {
    answer.Some? && f.version == Version(s, f.group) && answer.value.group !in s.removed
  }

  /** A removed group never gets a row; and the rows stay fresh exactly when the answer
      names the group asked for, or a group not invalidated since the fetch began. */
  lemma FinishKeepsFenceIff(s: State, flights: seq<Fetch>, starts: seq<nat>, f: Fetch, start: nat, answer: Option<Meta>, now: int)
    requires Fenced(s, flights, starts) && FetchFits(s, f, start) && Fresh(s)
    ensures Fenced(Finished(s, f, start, answer, now), flights, starts)
    ensures Fresh(Finished(s, f, start, answer, now)) <==>
              (Writes(s, f, answer) && answer.value.group != f.group ==> start > InvalidatedAt(s, answer.value.group))
  {
    var s' := Finished(s, f, start, answer, now);
    FinishKeepsFence(s, flights, starts, f, start, answer, now);
    if Writes(s, f, answer) {
      var g := answer.value.group;
      assert InvalidatedAt(s', g) == InvalidatedAt(s, g) && s'.begunAt[g] == start;
      assert Fresh(s') ==> FreshAt(s', g);
      if start > InvalidatedAt(s, g) {
        forall h ensures FreshAt(s', h) { assert FreshAt(s, h); }
      }
    }
  }

  /** A removed group never gets a row, whatever fetch ends. */
  lemma FinishKeepsRemoved(s: State, f: Fetch, start: nat, answer: Option<Meta>, now: int)
    requires RemovedHaveNoRow(s)
    ensures RemovedHaveNoRow(Finished(s, f, start, answer, now))
  {
  }

  lemma FinishKeepsFence(s: State, flights: seq<Fetch>, starts: seq<nat>, f: Fetch, start: nat, answer: Option<Meta>, now: int)
    requires Fenced(s, flights, starts) && FetchFits(s, f, start)
    ensures Fenced(Finished(s, f, start, answer, now), flights, starts)
  {
    var s' := Finished(s, f, start, answer, now);
    FinishKeepsRemoved(s, f, start, answer, now);
    forall g ensures ClockAt(s', g) { assert ClockAt(s, g); }
  }

  /** When an answer names another group, that group's invalidation during the fetch is missed. */
  lemma OtherGroupIsNotFenced(asked: Chat, named: Chat)
    requires asked != named
    ensures var f := Begin(START, asked);
            var s := Invalidated(Begun(START), named);
            Fresh(s) && FetchFits(s, f, StartOf(START)) && !Fresh(Finished(s, f, StartOf(START), Some(Meta(named, "", "")), 0))
  {
    var f := Begin(START, asked);
    var s := Invalidated(Begun(START), named);
    var s' := Finished(s, f, StartOf(START), Some(Meta(named, "", "")), 0);
    assert !FreshAt(s', named);
  }

  // ------------------------------------------------------------------
  // What a failed fetch serves
  // ------------------------------------------------------------------

  /** `s'` comes after `s`: versions count the invalidations in between. */
  predicate LaterAt(s: State, s': State, g: Chat) {
    && s.clock <= s'.clock && Version(s, g) <= Version(s', g)
    && (Version(s, g) == Version(s', g) ==> InvalidatedAt(s', g) == InvalidatedAt(s, g))
    && (Version(s, g) < Version(s', g) ==> InvalidatedAt(s', g) > s.clock)
  }

  ghost predicate Later(s: State, s': State) {
    forall g :: LaterAt(s, s', g)
  }

  lemma LaterTwice(s: State, s': State, s'': State)
    requires Later(s, s') && Later(s', s'')
    ensures Later(s, s'')
  {
    forall g ensures LaterAt(s, s'', g) { assert LaterAt(s, s', g) && LaterAt(s', s'', g); }
  }

  lemma InvalidationGoesForward(s: State, g: Chat)
    ensures Later(s, Invalidated(s, g)) && Later(s, Removed(s, g))
  {
    forall h ensures LaterAt(s, Invalidated(s, g), h) && LaterAt(s, Removed(s, g), h) { }
  }

  lemma QuietStepGoesForward(s: State, s': State)
    requires s'.versions == s.versions && s'.invalidatedAt == s.invalidatedAt && s.clock <= s'.clock
    ensures Later(s, s')
  {
    forall h ensures LaterAt(s, s', h) { }
  }

  /** Was the row that `s` stores for the group fetched after the group's latest
      invalidation as of `s'`? */
  predicate StillGood(s: State, s': State, g: Chat) {
    g in s.begunAt && s.begunAt[g] > InvalidatedAt(s', g)
  }

  /** A row found fresh is still good later if and only if the group's version stood still. */
  lemma FoundRowIsStillGoodIff(s: State, s': State, g: Chat)
    requires ClockAhead(s) && g in s.rows && FreshAt(s, g) && Later(s, s')
    ensures StillGood(s, s', g) <==> Version(s', g) == Version(s, g)
  {
    assert ClockAt(s, g) && LaterAt(s, s', g);
  }

  /** The run that breaks it: the group is invalidated while a fetch that fails is out. */
  lemma FailedFetchMayBeStale(s: State, g: Chat)
    requires ClockAhead(s) && g in s.rows && FreshAt(s, g)
    ensures var f := Begin(s, g);
            var later := Invalidated(Begun(s), g);
            && f.cached == Some(s.rows[g]) && g !in Finished(later, f, StartOf(s), None, 0).rows
            && StillGood(s, s, g) && !StillGood(s, later, g)
  {
    assert ClockAt(s, g);
  }

  // ------------------------------------------------------------------
  // The store
  // ------------------------------------------------------------------

  class GroupMetaStore {
    const ttlMs: int
    var removed: set<Chat>
    var versions: map<Chat, nat>
    var rows: map<Chat, Row>
    /** Fetches of other callers that are in flight. */
    var flights: seq<Fetch>
    ghost var starts: seq<nat>
    ghost var clock: nat
    ghost var invalidatedAt: map<Chat, nat>
    ghost var begunAt: map<Chat, nat>
    /** Every answer so far named the group it was asked about. */
    ghost var honest: bool

    ghost function Now(): State
      reads this
    {
      State(removed, versions, rows, clock, invalidatedAt, begunAt)
    }

    ghost predicate Valid()
      reads this
    {
      Fenced(Now(), flights, starts) && (honest ==> Fresh(Now()))
    }

    constructor (ttlMs: int)
      ensures Valid() && Now() == START && flights == [] && honest
    {
      this.ttlMs := ttlMs;
      removed, versions, rows, flights := {}, map[], map[], [];
      starts, clock, invalidatedAt, begunAt, honest := [], 0, map[], map[], true;
      new;
      forall g ensures FreshAt(START, g) { }
    }

    method Remove(g: Chat)
      requires Valid()
      modifies this`removed, this`versions, this`rows, this`clock, this`invalidatedAt, this`begunAt
      ensures Valid() && Now() == Removed(old(Now()), g)
    {
      InvalidateKeepsFence(Now(), flights, starts, g, true);
      removed := removed + {g};
      Drop(g);
    }

    method Invalidate(g: Chat)
      requires Valid()
      modifies this`versions, this`rows, this`clock, this`invalidatedAt, this`begunAt
      ensures Valid() && Now() == Invalidated(old(Now()), g)
    {
      InvalidateKeepsFence(Now(), flights, starts, g, false);
      Drop(g);
    }

    /** Next version, no row. */
    method Drop(g: Chat)
      modifies this`versions, this`rows, this`clock, this`invalidatedAt, this`begunAt
      ensures Now() == Invalidated(old(Now()), g)
    {
      versions, rows := versions[g := (if g in versions then versions[g] else 0) + 1], rows - {g};
      clock, invalidatedAt, begunAt := clock + 1, invalidatedAt[g := clock + 1], begunAt - {g};
    }

    method AllowFetch(g: Chat)
      requires Valid()
      modifies this`removed
      ensures Valid() && Now() == Allowed(old(Now()), g)
    {
      OtherStepsKeepFence(Now(), flights, starts, g, "", 0);
      removed := removed - {g};
    }

    method ApplyPartialUpdate(g: Chat, subject: string, now: int)
      requires Valid()
      modifies this`rows
      ensures Valid() && Now() == Patched(old(Now()), g, subject, now)
    {
      OtherStepsKeepFence(Now(), flights, starts, g, subject, now);
      if g in rows {
        rows := rows[g := rows[g].(subject := subject, updatedAt := now)];
      }
    }

    /** Up to the await. */
    method BeginFetch(g: Chat) returns (f: Fetch, ghost start: nat)
      requires Valid()
      modifies this`clock
      ensures Valid() && Now() == Begun(old(Now()))
      ensures f == Begin(old(Now()), g) && start == StartOf(old(Now())) && FetchFits(Now(), f, start)
    {
      BeginKeepsFence(Now(), flights, starts, g);
      assert (flights + [Begin(Now(), g)])[|flights|] == Begin(Now(), g);
      f, start := Fetch(g, if g in versions then versions[g] else 0, Lookup(rows, g)), clock + 1;
      clock := clock + 1;
    }

    /** After the await. */
    method FinishFetch(f: Fetch, ghost start: nat, answer: Option<Meta>, now: int) returns (r: Option<Row>)
      requires Valid() && FetchFits(Now(), f, start)
      modifies this`rows, this`begunAt, this`honest
      ensures Valid() && Now() == Finished(old(Now()), f, start, answer, now)
      ensures honest == (old(honest) && (answer.Some? ==> answer.value.group == f.group))
      ensures r == if answer.None? then f.cached
                   else if f.version != Version(old(Now()), f.group) then None
                   else Lookup(rows, f.group)
    {
      FinishKeepsFence(Now(), flights, starts, f, start, answer, now);
      if honest { FinishKeepsFenceIff(Now(), flights, starts, f, start, answer, now); }
      honest := honest && (answer.Some? ==> answer.value.group == f.group);
      if answer.None? { return f.cached; }
      if f.version != (if f.group in versions then versions[f.group] else 0) { return None; }
      Upsert(answer.value, start, now);
      r := Lookup(rows, f.group);
    }

    method Upsert(meta: Meta, ghost start: nat, now: int)
      modifies this`rows, this`begunAt
      ensures Now() == Upserted(old(Now()), meta, start, now)
    {
      if meta.group in removed { return; }
      rows, begunAt := rows[meta.group := Row(meta.subject, meta.raw, now)], begunAt[meta.group := start];
    }

    /** Other callers between the suspension of a fetch and its answer: they invalidate,
        remove, re-admit, patch, begin fetches and finish them, in any order. The fetch
        that waits keeps fitting. */
    method Await(ghost mine: Fetch, ghost start: nat)
      requires Valid() && FetchFits(Now(), mine, start)
      modifies this
      ensures Valid() && FetchFits(Now(), mine, start) && Later(old(Now()), Now())
    {
      var steps: nat :| true;
      QuietStepGoesForward(Now(), Now());
      for i := 0 to steps
        invariant Valid() && FetchFits(Now(), mine, start) && Later(old(Now()), Now())
      {
        ghost var before := Now();
        OtherStep();
        LaterTwice(old(Now()), before, Now());
      }
    }

    method OtherStep()
      requires Valid()
      modifies this
      ensures Valid()
      ensures forall f: Fetch, start: nat | FetchFits(old(Now()), f, start) :: FetchFits(Now(), f, start)
      ensures Later(old(Now()), Now())
    {
      var kind: int, g: Chat, subject: string, now: int :| true;
      QuietStepGoesForward(Now(), Now());
      if kind == 0 {
        InvalidationGoesForward(Now(), g);
        Remove(g);
      } else if kind == 1 {
        InvalidationGoesForward(Now(), g);
        Invalidate(g);
      } else if kind == 2 {
        QuietStepGoesForward(Now(), Allowed(Now(), g));
        AllowFetch(g);
      } else if kind == 3 {
        QuietStepGoesForward(Now(), Patched(Now(), g, subject, now));
        ApplyPartialUpdate(g, subject, now);
      } else if kind == 4 {
        BeginKeepsFence(Now(), flights, starts, g);
        QuietStepGoesForward(Now(), Begun(Now()));
        ghost var start;
        var f;
        f, start := BeginFetch(g);
        flights, starts := flights + [f], starts + [start];
      } else {
        var i: nat, answer: Option<Meta> :| true;
        if i < |flights| {
          QuietStepGoesForward(Now(), Finished(Now(), flights[i], starts[i], answer, now));
          var r := FinishFetch(flights[i], starts[i], answer, now);
        }
      }
    }

    predicate IsStale(r: Row, now: int) {
      now - r.updatedAt > ttlMs
    }

    /** Nothing for a removed group; a cached row while it is young; otherwise a fetch.
        Unless the fetch fails, an answer given is the stored row, and while all answers
        name their group that row was fetched after the latest invalidation. A failed fetch
        answers with the row found at the start, and if that row was fresh then, it is still
        good at the end exactly when the group's version has not moved since. */
    method ReadOrFetch(g: Chat, now: int) returns (r: Option<Row>, failed: bool, ghost answer: Option<Meta>)
      requires Valid()
      modifies this
      ensures Valid()
      ensures g in old(removed) ==> r.None? && !failed && rows == old(rows)
      // A young row is answered as it is, without a fetch.
      ensures g !in old(removed) && g in old(rows) && now - old(rows)[g].updatedAt <= ttlMs ==>
                r == Some(old(rows)[g]) && !failed && Now() == old(Now())
      // Otherwise the answer decides, unless the version moved meanwhile.
      ensures g !in old(removed) && (g !in old(rows) || now - old(rows)[g].updatedAt > ttlMs) ==>
                && (failed <==> answer.None?)
                && (answer.Some? && Version(Now(), g) != Version(old(Now()), g) ==> r.None?)
                && (answer.Some? && answer.value.group == g && Version(Now(), g) == Version(old(Now()), g) && g !in removed ==>
                      r.Some? && r.value.subject == answer.value.subject && r.value.raw == answer.value.raw)
      ensures !failed && r.Some? ==> g in rows && rows[g] == r.value && g !in removed
      ensures !failed && r.Some? && honest ==> FreshAt(Now(), g)
      ensures failed ==> r == Lookup(old(rows), g)
      ensures failed && r.Some? && FreshAt(old(Now()), g) ==>
                (StillGood(old(Now()), Now(), g) <==> Version(Now(), g) == Version(old(Now()), g))
    {
      r, failed, answer := None, false, None;
      if g in removed { return; }
      var cached := Lookup(rows, g);
      if cached.Some? && !IsStale(cached.value, now) {
        assert honest ==> FreshAt(Now(), g);
        r := cached;
        return;
      }
      ghost var start;
      var f;
      QuietStepGoesForward(Now(), Begun(Now()));
      f, start := BeginFetch(g);
      ghost var begun := Now();
      Await(f, start);
      LaterTwice(old(Now()), begun, Now());
      var came: Option<Meta>, later: int :| true;
      answer := came;
      r := FinishFetch(f, start, came, later);
      failed := came.None?;
      assert honest ==> FreshAt(Now(), g);
      if failed && r.Some? && FreshAt(old(Now()), g) {
        FoundRowIsStillGoodIff(old(Now()), Now(), g);
      }
    }
  }
}
