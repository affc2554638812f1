/**
 * One chat's lane of the inbound router (src/routing/inboundRouter.ts): the
 * posting half of InboundRouter at one (connection, chat) key, with that
 * key's rows of the bot and membership tables. `enqueue` runs one job of a key
 * at a time (see Chains) and jobs of other keys touch other rows, so while a
 * job waits at an `await` only membership events of this chat step. `Await`
 * is that interference.
 */
module Lanes {
  import opened Common
  import opened ChatBots
  import MimeTypes

  datatype Mode = ForceSkip | ForceRespond

  datatype AskStatus = UploadFailed | SystemTriggerFailed | ChangeModelFailed | SentMessageFailed

  /** What `adapter.ask` can do: accept, throw AskSubmissionError with a handle, or throw without one. */
  datatype Outcome =
    | Accepted(threadId: string)
    | Refused(status: AskStatus, refusedThread: string)
    | Unreachable

  datatype Post = Post(
    identity: Identity,
    query: string,
    threadId: Option<string>,
    roomName: Option<string>,
    mode: Mode,
    files: seq<File>,
    outcome: Outcome
  )

  datatype ShopperRecord = ShopperRecord(id: string, name: string, roomName: string, enabled: bool)

  datatype Destination = Destination(
    owner: Option<ShopperRecord>,
    ownerId: Option<string>,
    roomName: string,
    qualified: bool
  )

  // ------------------------------------------------------------------
  // The law every change of the chat's bot row obeys
  // ------------------------------------------------------------------

  predicate HasPending(row: Option<Bot>) {
    row.Some? && row.value.pending.Some?
  }

  /** One lawful change of a chat's row: owner and room are set once; an owner
      arrives only with a new thread and only while nothing is pending; a
      pending post pins the thread it was stored with. */
  predicate RowStep(a: Option<Bot>, b: Option<Bot>) {
    match (a, b)
    case (None, None) => true
    case (None, Some(y)) => y.pending.None?
    case (Some(x), None) => false
    case (Some(x), Some(y)) =>
      && (x.owner.Some? ==> y.owner == x.owner)
      && (x.owner.Some? || y.owner.None? ==> y.roomName == x.roomName)
      && (x.owner.None? && y.owner.Some? ==> y.threadId != x.threadId && x.pending.None? && y.pending.None?)
      && (x.pending.Some? || y.pending.Some? ==> y.threadId == x.threadId)
  }

  /** Every two consecutive rows of the trace are one lawful change apart. */
  ghost predicate Lawful(rows: seq<Option<Bot>>) {
    |rows| <= 1 || (RowStep(rows[|rows|-2], rows[|rows|-1]) && Lawful(rows[..|rows|-1]))
  }

  lemma LawfulExtends(rows: seq<Option<Bot>>, row: Option<Bot>)
    requires Lawful(rows) && (rows != [] ==> RowStep(rows[|rows|-1], row))
    ensures Lawful(rows + [row])
  {
    assert (rows + [row])[..|rows|] == rows;
  }

  lemma {:induction false} LawfulAt(rows: seq<Option<Bot>>, i: nat)
    requires Lawful(rows) && i + 1 < |rows|
    ensures RowStep(rows[i], rows[i+1])
  {
    if i + 2 < |rows| {
      LawfulAt(rows[..|rows|-1], i);
    }
  }

  /** Over a whole run: once a chat has an owner, its owner and room never change. */
  lemma {:induction false} OwnerFixedOverRun(rows: seq<Option<Bot>>, i: nat, j: nat)
    requires Lawful(rows) && i <= j < |rows|
    requires rows[i].Some? && rows[i].value.owner.Some?
    ensures rows[j].Some? && rows[j].value.owner == rows[i].value.owner
    ensures rows[j].value.roomName == rows[i].value.roomName
    decreases j - i
  {
    if i < j {
      LawfulAt(rows, i);
      OwnerFixedOverRun(rows, i + 1, j);
    }
  }

  /** Over a whole run: if an ownerless row is owned later, some step in between
      brought owner and new thread together, with nothing pending. */
  lemma {:induction false} OwnerGainedOverRun(rows: seq<Option<Bot>>, i: nat, j: nat) returns (k: nat)
    requires Lawful(rows) && i <= j < |rows|
    requires rows[i].Some? && rows[i].value.owner.None?
    requires rows[j].Some? && rows[j].value.owner.Some?
    ensures i <= k < j && rows[k].Some? && rows[k+1].Some?
    ensures rows[k].value.owner.None? && rows[k+1].value.owner == rows[j].value.owner
    ensures rows[k].value.threadId != rows[k+1].value.threadId
    ensures !HasPending(rows[k]) && !HasPending(rows[k+1])
    decreases j - i
  {
    LawfulAt(rows, i);
    if rows[i+1].value.owner.Some? {
      k := i;
      OwnerFixedOverRun(rows, i + 1, j);
    } else {
      k := OwnerGainedOverRun(rows, i + 1, j);
    }
  }

  /** Over a whole run: while a post stays pending, the chat stays on the bot it was stored with. */
  lemma {:induction false} PendingStaysOnItsBot(rows: seq<Option<Bot>>, i: nat, j: nat)
    requires Lawful(rows) && i <= j < |rows|
    requires forall k | i <= k <= j :: HasPending(rows[k])
    ensures rows[i].Some? && rows[j].Some? && rows[j].value.threadId == rows[i].value.threadId
    decreases j - i
  {
    if i < j {
      LawfulAt(rows, i);
      PendingStaysOnItsBot(rows, i + 1, j);
    }
  }

  /** Same row but for the pause flag, which only membership events flip. */
  predicate SameBot(a: Option<Bot>, b: Option<Bot>) {
    a.Some? == b.Some? && (a.Some? ==> b.value == a.value.(paused := b.value.paused))
  }

  // ------------------------------------------------------------------
  // What a turn's posts look like
  // ------------------------------------------------------------------

  /** No accepted post of the list triggers the agent. */
  ghost predicate OnlySkips(posts: seq<Post>) {
    forall p | p in posts && p.outcome.Accepted? :: p.mode == ForceSkip
  }

  function ThreadOf(o: Outcome): string
    requires !o.Unreachable?
  {
    if o.Accepted? then o.threadId else o.refusedThread
  }

  /** The files PromptQL accepted, in order. */
  function AcceptedFiles(posts: seq<Post>): seq<File> {
    if posts == [] then []
    else AcceptedFiles(posts[..|posts|-1]) +
         if posts[|posts|-1].outcome.Accepted? then posts[|posts|-1].files else []
  }

  /** One accepted post per file so far, in order. */
  ghost predicate OneEach(posts: seq<Post>, files: seq<File>) {
    |posts| <= |files| && forall k | 0 <= k < |posts| :: posts[k].outcome.Accepted? && posts[k].files == [files[k]]
  }

  lemma {:induction false} OneEachCarriesAll(posts: seq<Post>, files: seq<File>)
    requires OneEach(posts, files)
    ensures AcceptedFiles(posts) == files[..|posts|]
    ensures |posts| == |files| ==> AcceptedFiles(posts) == files
  {
    if posts != [] {
      OneEachCarriesAll(posts[..|posts|-1], files);
      assert files[..|posts|] == files[..|posts|-1] + [files[|posts|-1]];
    }
    assert files[..|files|] == files;
  }

  lemma AcceptedFilesAppend(posts: seq<Post>, p: Post)
    ensures AcceptedFiles(posts + [p]) == AcceptedFiles(posts) + if p.outcome.Accepted? then p.files else []
    ensures (posts + [p])[..|posts|] == posts
  {
    assert (posts + [p])[..|posts|] == posts;
  }

  /** The list ends with posts whose accepted files are exactly `files`. */
  ghost predicate Carries(posts: seq<Post>, files: seq<File>) {
    exists k :: 0 <= k <= |posts| && AcceptedFiles(posts[k..]) == files
  }

  lemma WholeListCarries(posts: seq<Post>, files: seq<File>)
    ensures AcceptedFiles(posts) == files ==> Carries(posts, files)
  {
    assert posts[0..] == posts;
  }

  lemma CarriesAfter(before: seq<Post>, posts: seq<Post>, files: seq<File>)
    requires Carries(posts, files)
    ensures Carries(before + posts, files)
  {
    var k :| 0 <= k <= |posts| && AcceptedFiles(posts[k..]) == files;
    assert (before + posts)[|before| + k..] == posts[k..];
  }

  /** "(image)", "(audio)", "(video)" or "(file)", by the prefix of the MIME type. */
  predicate Labelled(query: string, mime: string) {
    && (query == AN_IMAGE <==> IMAGE_TYPES <= mime)
    && (query == AN_AUDIO <==> AUDIO_TYPES <= mime)
    && (query == A_VIDEO <==> VIDEO_TYPES <= mime)
    && (query == A_FILE <==> !(IMAGE_TYPES <= mime) && !(AUDIO_TYPES <= mime) && !(VIDEO_TYPES <= mime))
  }

  const AN_IMAGE := "(image)"
  const AN_AUDIO := "(audio)"
  const A_VIDEO := "(video)"
  const A_FILE := "(file)"
  const IMAGE_TYPES := "image/"
  const AUDIO_TYPES := "audio/"
  const VIDEO_TYPES := "video/"

  /** A post that only shows the agent one file: it triggers nothing and says only the file's kind. */
  predicate ContextPost(p: Post, identity: Identity) {
    p.mode == ForceSkip && p.identity == identity && |p.files| == 1 && Labelled(p.query, p.files[0].mimeType)
  }

  /** Every accepted post of the list is context. */
  ghost predicate ContextOnly(posts: seq<Post>, identity: Identity) {
    forall i | 0 <= i < |posts| && posts[i].outcome.Accepted? :: ContextPost(posts[i], identity)
  }

  lemma ContextOnlySkips(posts: seq<Post>, identity: Identity)
    requires ContextOnly(posts, identity)
    ensures OnlySkips(posts)
  {
    forall p | p in posts && p.outcome.Accepted? ensures p.mode == ForceSkip {
      var i :| 0 <= i < |posts| && posts[i] == p;
      assert ContextPost(posts[i], identity);
    }
  }

  /** Every post of a turn, accepted or not, is context or says the turn's whole query in its mode. */
  ghost predicate OfTurn(posts: seq<Post>, identity: Identity, query: string, mode: Mode) {
    forall i | 0 <= i < |posts| ::
      ContextPost(posts[i], identity) || (posts[i].identity == identity && posts[i].query == query && posts[i].mode == mode)
  }

  lemma OfTurnBoth(a: seq<Post>, b: seq<Post>, identity: Identity, query: string, mode: Mode)
    requires OfTurn(a, identity, query, mode) && OfTurn(b, identity, query, mode)
    ensures OfTurn(a + b, identity, query, mode)
  {
  }

  /** A turn that got through: the last post was accepted in the turn's own mode
      with the turn's query; every post accepted before it was context. */
  ghost predicate Delivered(posts: seq<Post>, identity: Identity, query: string, mode: Mode) {
    && posts != []
    && ContextOnly(posts[..|posts|-1], identity)
    && var last := posts[|posts|-1];
       last.outcome.Accepted? && last.identity == identity && last.query == query && last.mode == mode
  }

  /** The decoded size estimate of an upload. */
  function UploadRawBytes(files: seq<File>): nat {
    if files == [] then 0 else |files[0].content| * 3 / 4 + UploadRawBytes(files[1..])
  }

  /** The estimate of one file: never below the bytes that were encoded, and at most two above. */
  lemma EstimateIsClose(f: File, bytes: nat)
    requires |f.content| == (bytes + 2) / 3 * 4
    ensures bytes <= UploadRawBytes([f]) <= bytes + 2
  {
    assert [f][1..] == [];
    assert UploadRawBytes([f]) == |f.content| * 3 / 4 == (bytes + 2) / 3 * 3;
  }

  lemma {:induction false} EstimatesAdd(a: seq<File>, b: seq<File>)
    ensures UploadRawBytes(a + b) == UploadRawBytes(a) + UploadRawBytes(b)
  {
    if a == [] {
      assert a + b == b;
    } else {
      assert (a + b)[1..] == a[1..] + b;
      EstimatesAdd(a[1..], b);
    }
  }

  const MULTI_FILE_UPLOAD_BUDGET_BYTES := 5 * 1024 * 1024

  /** Context label of a file that is not the last post of a split upload. */
  function UploadRelayQuery(file: File): string {
    if "image/" <= file.mimeType then "(image)"
    else if "audio/" <= file.mimeType then "(audio)"
    else if "video/" <= file.mimeType then "(video)"
    else "(file)"
  }

  /** Too large for one body. */
  predicate Oversized(files: seq<File>) {
    |files| > 1 && UploadRawBytes(files) > 5 * 1024 * 1024
  }

  lemma HeadAndTail<T>(x: T, s: seq<T>)
    ensures ([x] + s)[0] == x && ([x] + s)[1..] == s
  {
  }

  /** A split: one post per file, in order; only the post of the last file says the query. */
  ghost predicate OnePerFile(posts: seq<Post>, files: seq<File>, query: string) {
    && |posts| <= |files|
    && forall k | 0 <= k < |posts| ::
         posts[k].files == [files[k]] && (if k == |files| - 1 then posts[k].query == query else Labelled(posts[k].query, files[k].mimeType))
  }

  /** The accepted posts of a split so far. */
  ghost predicate SplitSoFar(posts: seq<Post>, identity: Identity, query: string, mode: Mode, files: seq<File>) {
    && OneEach(posts, files) && OnePerFile(posts, files, query) && OfTurn(posts, identity, query, mode)
    && (if |posts| < |files| then ContextOnly(posts, identity) else Delivered(posts, identity, query, mode))
  }

  lemma SplitNext(posts: seq<Post>, p: Post, identity: Identity, query: string, mode: Mode, files: seq<File>)
    requires SplitSoFar(posts, identity, query, mode, files) && |posts| < |files|
    requires p.files == [files[|posts|]] && p.identity == identity
    requires if |posts| == |files| - 1 then p.query == query && p.mode == mode
             else p.mode == ForceSkip && Labelled(p.query, files[|posts|].mimeType)
    ensures Climbs(posts + [p], p.outcome) && OnePerFile(posts + [p], files, query)
    ensures p.outcome.Accepted? ==> SplitSoFar(posts + [p], identity, query, mode, files)
    ensures !p.outcome.Accepted? ==> TurnPosts(p.outcome, posts + [p], identity, query, mode, files)
  {
    OneEachClimbs(posts, files, p);
    assert (posts + [p])[..|posts|] == posts;
    assert OfTurn([p], identity, query, mode);
    OfTurnBoth(posts, [p], identity, query, mode);
  }

  lemma SplitCarries(posts: seq<Post>, r: Outcome, identity: Identity, query: string, mode: Mode, files: seq<File>)
    requires SplitSoFar(posts, identity, query, mode, files) && |posts| == |files| && r.Accepted?
    ensures TurnPosts(r, posts, identity, query, mode, files)
  {
    OneEachCarriesAll(posts, files);
    TurnPostsWhole(r, posts, identity, query, mode, files);
  }

  predicate IsImage(file: File) {
    MimeTypes.BaseMime(file.mimeType) in {"image/jpeg", "image/png", "image/webp", "image/gif"}
  }

  lemma RelayQueryLabels(file: File)
    ensures Labelled(UploadRelayQuery(file), file.mimeType)
  {
    var mime := file.mimeType;
    if "image/" <= mime { assert mime[0] == 'i'; }
    if "audio/" <= mime { assert mime[0] == 'a'; }
    if "video/" <= mime { assert mime[0] == 'v'; }
  }

  /** How a turn's posts relate to its outcome: delivered with all its files, or context only. */
  ghost predicate TurnPosts(r: Outcome, made: seq<Post>, identity: Identity, query: string, mode: Mode, files: seq<File>) {
    && OfTurn(made, identity, query, mode)
    && (if r.Accepted? then Delivered(made, identity, query, mode) && Carries(made, files) else ContextOnly(made, identity))
  }

  predicate UploadRefused(o: Outcome) {
    o.Refused? && o.status == UploadFailed
  }

  /** The posts end with the outcome, and go on only after an accepted context file or a refused upload. */
  ghost predicate Climbs(made: seq<Post>, r: Outcome) {
    && made != [] && made[|made|-1].outcome == r
    && forall i | 0 <= i < |made| - 1 :: made[i].outcome.Accepted? || UploadRefused(made[i].outcome)
  }

  lemma OneEachClimbs(before: seq<Post>, files: seq<File>, p: Post)
    requires OneEach(before, files)
    ensures Climbs(before + [p], p.outcome)
  {
    var all := before + [p];
    assert forall i | 0 <= i < |before| :: all[i] == before[i];
  }

  lemma ClimbsOn(before: seq<Post>, o: Outcome, made: seq<Post>, r: Outcome)
    requires Climbs(before, o) && UploadRefused(o) && Climbs(made, r)
    ensures Climbs(before + made, r)
  {
    var all := before + made;
    forall i | 0 <= i < |all| - 1 ensures all[i].outcome.Accepted? || UploadRefused(all[i].outcome) {
      if i < |before| - 1 {
        assert all[i] == before[i];
      } else if i >= |before| {
        assert all[i] == made[i-|before|];
      }
    }
  }

  lemma TurnPostsAfter(before: seq<Post>, r: Outcome, made: seq<Post>, identity: Identity, query: string, mode: Mode, files: seq<File>)
    requires ContextOnly(before, identity) && OfTurn(before, identity, query, mode) && TurnPosts(r, made, identity, query, mode, files)
    ensures TurnPosts(r, before + made, identity, query, mode, files)
  {
    if r.Accepted? {
      var all := before + made;
      assert all[..|all|-1] == before + made[..|made|-1];
      CarriesAfter(before, made, files);
      BothContext(before, made[..|made|-1], identity);
    } else {
      BothContext(before, made, identity);
    }
    OfTurnBoth(before, made, identity, query, mode);
  }

  lemma BothContext(a: seq<Post>, b: seq<Post>, identity: Identity)
    requires ContextOnly(a, identity) && ContextOnly(b, identity)
    ensures ContextOnly(a + b, identity)
  {
  }

  lemma TurnPostsWhole(r: Outcome, made: seq<Post>, identity: Identity, query: string, mode: Mode, files: seq<File>)
    requires r.Accepted? ==> Delivered(made, identity, query, mode) && AcceptedFiles(made) == files
    requires !r.Accepted? ==> ContextOnly(made, identity)
    requires OfTurn(made, identity, query, mode)
    ensures TurnPosts(r, made, identity, query, mode, files)
  {
    WholeListCarries(made, files);
  }

  lemma TurnPostsSingle(p: Post, identity: Identity, query: string, mode: Mode, files: seq<File>)
    requires p.identity == identity && p.query == query && p.mode == mode && p.files == files
    ensures TurnPosts(p.outcome, [p], identity, query, mode, files)
  {
    AcceptedFilesAppend([], p);
    assert [] + [p] == [p];
    WholeListCarries([p], files);
  }

  function Smaller(files: seq<File>, shrink: File -> File): (r: seq<File>)
    ensures |r| == |files|
    ensures forall i | 0 <= i < |files| :: r[i] == if IsImage(files[i]) then shrink(files[i]) else files[i]
  {
    Mapped(files, OnImages(shrink))
  }

  function OnImages(shrink: File -> File): File -> File {
    f => if IsImage(f) then shrink(f) else f
  }

  function Mapped(files: seq<File>, reencode: File -> File): (r: seq<File>)
    ensures |r| == |files|
    ensures forall i | 0 <= i < |files| :: r[i] == reencode(files[i])
  {
    seq(|files|, i requires 0 <= i < |files| => reencode(files[i]))
  }

  predicate Changed(files: seq<File>, smaller: seq<File>)
    requires |files| == |smaller|
  {
    exists i | 0 <= i < |files| :: smaller[i].content != files[i].content
  }

  /** The posts of one turn: one per file when the body is too large, otherwise the whole body,
      and behind it, if anything, one per file. */
  ghost predicate TurnShape(made: seq<Post>, files: seq<File>, query: string) {
    if Oversized(files) then OnePerFile(made, files, query)
    else made != [] && made[0].files == files && made[0].query == query && OnePerFile(made[1..], files, query)
  }

  predicate EndsRefused(made: seq<Post>) {
    made != [] && made[|made|-1].outcome.Refused? && made[|made|-1].outcome.status == UploadFailed
  }

  /** The posts of each rung. */
  datatype Rungs = Rungs(staged: seq<Post>, again: seq<Post>, smaller: seq<Post>) {
    function All(): seq<Post> {
      staged + (again + smaller)
    }
  }

  /** The ladder: the staged files; once more when their upload was refused; and when it was refused
      again, the re-encoded ones, if re-encoding changes a file. */
  ghost predicate Ladder(rungs: Rungs, staged: seq<File>, smaller: seq<File>, query: string)
    requires |smaller| == |staged|
  {
    && TurnShape(rungs.staged, staged, query)
    && (if EndsRefused(rungs.staged) && staged != [] then TurnShape(rungs.again, staged, query)
        else rungs.again == [])
    && (if EndsRefused(rungs.again) && exists i | 0 <= i < |staged| :: smaller[i].content != staged[i].content
        then TurnShape(rungs.smaller, smaller, query)
        else rungs.smaller == [])
  }

  ghost predicate Laddered(made: seq<Post>, staged: seq<File>, smaller: seq<File>, query: string)
    requires |smaller| == |staged|
  {
    exists rungs: Rungs :: made == rungs.All() && Ladder(rungs, staged, smaller, query)
  }

  class Lane {
    const isGroup: bool
    /** This chat's row of the bot table and of the membership table, and its entry of `epochs`. */
    var row: Option<Bot>
    var member: Option<Member>
    var epoch: nat

    /** The chat's bot row after every change since the lane began. */
    ghost var rows: seq<Option<Bot>>
    /** Every ask this lane made. */
    ghost var posts: seq<Post>

    ghost predicate Valid()
      reads this
    {
      && rows != [] && rows[|rows|-1] == row && Lawful(rows)
      && (row.Some? ==> row.value.paused == Absent())
      && (!isGroup ==> member.None?)
    }

    predicate Absent()
      reads this`member
    {
      member.Some? && !member.value.present
    }

    /** A direct chat is always available; a group while it is not known to be left and no
        membership event came since `at`. */
    lemma AvailableMeans(at: nat)
      ensures !isGroup ==> Available(at)
      ensures isGroup ==> (Available(at) <==> epoch == at && (member.Some? ==> member.value.present))
    {
    }

    /** What every stretch of code keeps: validity and the records so far. */
    twostate predicate Progress()
      reads this
    {
      Valid() && old(rows) <= rows && old(posts) <= posts && old(epoch) <= epoch
    }

    constructor (isGroup: bool)
      ensures Valid() && posts == [] && rows == [None]
      ensures this.isGroup == isGroup
    {
      this.isGroup := isGroup;
      row, member, epoch, rows, posts := None, None, 0, [None], [];
    }

    // ----------------------------------------------------------------
    // Membership events and the availability fence
    // ----------------------------------------------------------------

    method OnSelfMembership(add: bool, addedBy: Option<string>)
      requires Valid() && isGroup
      modifies this`row, this`member, this`epoch, this`rows
      ensures Progress() && SameBot(old(row), row)
      ensures epoch == old(epoch) + if add && old(member).Some? && old(member).value.present then 0 else 1
      ensures member == Some(MemberRow(old(member), add, addedBy))
    {
      if !(add && member.Some? && member.value.present) {
        epoch := epoch + 1;
      }
      member := Some(MemberRow(member, add, addedBy));
      if row.Some? {
        row := Some(row.value.(paused := !add));
      }
      LawfulExtends(rows, row);
      rows := rows + [row];
    }

    predicate Available(at: nat)
      reads this
    {
      !isGroup || (at == epoch && !Absent())
    }

    /** Interference at an await: any number of membership events of this chat. */
    method Await()
      requires Valid()
      modifies this`row, this`member, this`epoch, this`rows
      ensures Progress() && SameBot(old(row), row)
    {
      var steps: nat :| true;
      for i := 0 to steps
        invariant Progress() && SameBot(old(row), row)
      {
        var add: bool := *;
        var adder: Option<string> := *;
        if isGroup {
          OnSelfMembership(add, adder);
        }
      }
    }

    // ----------------------------------------------------------------
    // Posting
    // ----------------------------------------------------------------

    /** `adapter.ask`: any answer at all, except that a continued thread answers
        with its own id and a new thread with one this chat does not hold. */
    method Ask(identity: Identity, query: string, threadId: Option<string>, roomName: Option<string>,
               mode: Mode, files: seq<File>) returns (r: Outcome)
      requires Valid()
      modifies this`row, this`member, this`epoch, this`rows, this`posts
      ensures Progress() && SameBot(old(row), row)
      ensures posts == old(posts) + [Post(identity, query, threadId, roomName, mode, files, r)]
      ensures !r.Unreachable? && threadId.Some? ==> ThreadOf(r) == threadId.value
      ensures !r.Unreachable? && threadId.None? && row.Some? ==> ThreadOf(r) != row.value.threadId
    {
      Await();
      var thread: string :| true;
      if threadId.Some? {
        thread := threadId.value;
      } else if row.Some? && thread == row.value.threadId {
        thread := thread + "'";
      }
      var kind: int :| true;
      var status: AskStatus :| true;
      r := match kind case 0 => Accepted(thread) case 1 => Refused(status, thread) case _ => Unreachable;
      posts := posts + [Post(identity, query, threadId, roomName, mode, files, r)];
    }

    /** The turn's destination would replace the chat's common bot. */
    predicate Promoting(dest: Destination)
      reads this
    {
      row.Some? && row.value.owner.None? && dest.ownerId.Some?
    }

    method Remember(dest: Destination, threadId: string)
      requires Valid()
      requires Promoting(dest) ==> threadId != row.value.threadId && !HasPending(row)
      requires row.Some? && !Promoting(dest) ==> threadId == row.value.threadId
      modifies this`row, this`rows
      ensures Progress()
      ensures posts == old(posts) && epoch == old(epoch)
      ensures row.Some? && row.value.threadId == threadId
      ensures row.value.pending == if old(row).Some? then old(row).value.pending else None
      ensures row.value.owner == if old(row).None? || old(Promoting(dest)) then dest.ownerId else old(row).value.owner
      ensures row.value.roomName == if old(row).None? || old(Promoting(dest)) then Some(dest.roomName) else old(row).value.roomName
    {
      var paused := isGroup && Absent();
      row := Some(UpsertRow(row, Handle(dest.ownerId, threadId, Some(dest.roomName), paused)));
      LawfulExtends(rows, row);
      rows := rows + [row];
    }

    method SetPending(post: Option<PendingPost>)
      requires Valid()
      modifies this`row, this`rows
      ensures Progress()
      ensures posts == old(posts) && epoch == old(epoch)
      ensures row == if old(row).Some? then Some(old(row).value.(pending := post)) else None
    {
      if row.Some? {
        row := Some(row.value.(pending := post));
      }
      LawfulExtends(rows, row);
      rows := rows + [row];
    }

    /** One ask on the chat's bot, or on a new bot when the chat is being promoted. */
    method Submit(dest: Destination, identity: Identity, query: string, mode: Mode, files: seq<File>,
                  rememberFailure: bool, messageId: Option<string>) returns (r: Outcome, ghost p: Post)
      requires Valid()
      requires Promoting(dest) ==> !HasPending(row)
      modifies this`row, this`member, this`epoch, this`rows, this`posts
      ensures Progress()
      ensures posts == old(posts) + [p]
      ensures p == Post(identity, query,
                        if old(row).None? || old(Promoting(dest)) then None else Some(old(row).value.threadId),
                        if old(row).None? || old(Promoting(dest)) then Some(dest.roomName) else None,
                        mode, files, r)
      ensures r.Unreachable? ==> SameBot(old(row), row)
      ensures !r.Unreachable? ==>
                && row.Some? && row.value.threadId == ThreadOf(r) && !Promoting(dest)
                && (if old(row).None? || old(Promoting(dest)) then row.value.owner == dest.ownerId && row.value.roomName == Some(dest.roomName)
                    else row.value == old(row).value.(paused := row.value.paused, pending := row.value.pending))
                && row.value.pending ==
                   (if r.Refused? && rememberFailure then Some(PendingPost(identity, query, messageId))
                    else if old(row).Some? then old(row).value.pending else None)
    {
      var existing := row;
      var promoting := existing.Some? && existing.value.owner.None? && dest.ownerId.Some?;
      r := Ask(identity, query,
               if promoting || existing.None? then None else Some(existing.value.threadId),
               if existing.None? || promoting then Some(dest.roomName) else None,
               mode, files);
      p := posts[|posts|-1];
      match r {
        case Accepted(thread) =>
          Remember(dest, thread);
        case Refused(_, thread) =>
          Remember(dest, thread);
          if rememberFailure {
            SetPending(Some(PendingPost(identity, query, messageId)));
          }
        case Unreachable =>
      }
    }

    /** The pending slot after a turn gave up: empty, or this turn's full query. */
    predicate PendingIsThisOrNone(identity: Identity, query: string, messageId: Option<string>)
      reads this
    {
      row.Some? ==> row.value.pending in {None, Some(PendingPost(identity, query, messageId))}
    }

    predicate PendingIsThis(identity: Identity, query: string, messageId: Option<string>)
      reads this
    {
      row.Some? && row.value.pending == Some(PendingPost(identity, query, messageId))
    }

    /** One file of a split upload. A context file that fails leaves the whole turn pending. */
    method SubmitOneFile(dest: Destination, identity: Identity, query: string, mode: Mode, file: File, last: bool,
                         messageId: Option<string>) returns (r: Outcome, ghost p: Post)
      requires Valid()
      requires Promoting(dest) ==> !HasPending(row)
      requires PendingIsThisOrNone(identity, query, messageId)
      modifies this`row, this`member, this`epoch, this`rows, this`posts
      ensures Progress() && posts == old(posts) + [p]
      ensures p.outcome == r && p.files == [file] && p.identity == identity
      ensures if last then p.query == query && p.mode == mode else p.mode == ForceSkip && Labelled(p.query, file.mimeType)
      ensures r.Accepted? ==> (!last ==> !HasPending(row)) && (last ==> HasPending(row) == HasPending(old(row)))
      ensures r.Refused? ==> PendingIsThis(identity, query, messageId)
      ensures r.Unreachable? ==> PendingIsThisOrNone(identity, query, messageId)
      ensures !r.Unreachable? ==> !Promoting(dest)
    {
      RelayQueryLabels(file);
      r, p := Submit(dest, identity, if last then query else UploadRelayQuery(file),
                     if last then mode else ForceSkip, [file], last, messageId);
      if !last {
        SetPending(if r.Accepted? then None else Some(PendingPost(identity, query, messageId)));
      }
    }

    /** Each file as its own post: all but the last are context, the last carries the turn. */
    method SubmitFilesOneByOne(dest: Destination, identity: Identity, query: string, mode: Mode, files: seq<File>,
                               messageId: Option<string>) returns (r: Outcome, ghost made: seq<Post>)
      requires Valid() && |files| > 1
      requires Promoting(dest) ==> !HasPending(row)
      requires PendingIsThisOrNone(identity, query, messageId)
      modifies this`row, this`member, this`epoch, this`rows, this`posts
      ensures Progress() && posts == old(posts) + made
      ensures 1 <= |made| && OnePerFile(made, files, query) && Climbs(made, r)
      ensures TurnPosts(r, made, identity, query, mode, files)
      ensures PendingAfter(r, identity, query, messageId) && (r.Accepted? ==> !HasPending(row))
      ensures !r.Unreachable? ==> !Promoting(dest)
    {
      r, made := Unreachable, [];
      for i := 0 to |files|
        invariant Progress() && posts == old(posts) + made && |made| == i
        invariant SplitSoFar(made, identity, query, mode, files)
        invariant PendingIsThisOrNone(identity, query, messageId) && (Promoting(dest) ==> !HasPending(row))
        invariant i > 0 ==> !HasPending(row) && !Promoting(dest) && Climbs(made, r)
        invariant i == |files| ==> r.Accepted?
      {
        ghost var p;
        r, p := SubmitOneFile(dest, identity, query, mode, files[i], i == |files| - 1, messageId);
        SplitNext(made, p, identity, query, mode, files);
        made := made + [p];
        if !r.Accepted? { return; }
      }
      SplitCarries(made, r, identity, query, mode, files);
    }

    /** The slot after a turn: cleared or untouched by success, this turn's text after a refusal. */
    twostate predicate PendingAfter(r: Outcome, identity: Identity, query: string, messageId: Option<string>)
      reads this
    {
      && PendingIsThisOrNone(identity, query, messageId)
      && (r.Accepted? && HasPending(row) ==> HasPending(old(row)))
      && (r.Refused? ==> PendingIsThis(identity, query, messageId))
    }

    /** All files in one body. */
    method SubmitWhole(dest: Destination, identity: Identity, query: string, mode: Mode, files: seq<File>,
                       messageId: Option<string>) returns (r: Outcome, ghost made: seq<Post>)
      requires Valid()
      requires Promoting(dest) ==> !HasPending(row)
      requires PendingIsThisOrNone(identity, query, messageId)
      modifies this`row, this`member, this`epoch, this`rows, this`posts
      ensures Progress() && posts == old(posts) + made && |made| == 1 && Climbs(made, r)
      ensures TurnPosts(r, made, identity, query, mode, files) && made[0].files == files && made[0].query == query
      ensures PendingAfter(r, identity, query, messageId)
      ensures !r.Unreachable? ==> !Promoting(dest)
    {
      ghost var p;
      r, p := Submit(dest, identity, query, mode, files, true, messageId);
      made := [p];
      TurnPostsSingle(p, identity, query, mode, files);
    }

    /** The split after the whole body was refused as an upload. */
    method SplitRefused(dest: Destination, identity: Identity, query: string, mode: Mode, files: seq<File>,
                        messageId: Option<string>, ghost before: seq<Post>, ghost refused: Outcome)
      returns (r: Outcome, ghost made: seq<Post>)
      requires Valid() && |files| > 1
      requires ContextOnly(before, identity) && OfTurn(before, identity, query, mode)
      requires Climbs(before, refused) && UploadRefused(refused)
      requires PendingIsThis(identity, query, messageId) && !Promoting(dest)
      modifies this`row, this`member, this`epoch, this`rows, this`posts
      ensures Progress() && posts == old(posts) + made
      ensures OnePerFile(made, files, query) && Climbs(before + made, r)
      ensures TurnPosts(r, before + made, identity, query, mode, files)
      ensures PendingAfter(r, identity, query, messageId) && (r.Accepted? ==> !HasPending(row))
      ensures !r.Unreachable? ==> !Promoting(dest)
    {
      r, made := SubmitFilesOneByOne(dest, identity, query, mode, files, messageId);
      TurnPostsAfter(before, r, made, identity, query, mode, files);
      ClimbsOn(before, refused, made, r);
      if r.Accepted? {
        SetPending(None);
      }
    }

    /** All files in one body, and a split when that is refused as an upload. */
    method SubmitWholeFirst(dest: Destination, identity: Identity, query: string, mode: Mode, files: seq<File>,
                            messageId: Option<string>) returns (r: Outcome, ghost made: seq<Post>)
      requires Valid()
      requires Promoting(dest) ==> !HasPending(row)
      requires PendingIsThisOrNone(identity, query, messageId)
      modifies this`row, this`member, this`epoch, this`rows, this`posts
      ensures Progress() && posts == old(posts) + made && Climbs(made, r)
      ensures made[0].files == files && made[0].query == query && OnePerFile(made[1..], files, query)
      ensures TurnPosts(r, made, identity, query, mode, files)
      ensures PendingAfter(r, identity, query, messageId)
      ensures !r.Unreachable? ==> !Promoting(dest)
    {
      r, made := SubmitWhole(dest, identity, query, mode, files, messageId);
      if !r.Refused? || r.status != UploadFailed || |files| <= 1 {
        return;
      }
      ghost var first, split := made[0], [];
      assert made == [first];
      r, split := SplitRefused(dest, identity, query, mode, files, messageId, [first], r);
      made := [first] + split;
      HeadAndTail(first, split);
      Regroup(old(posts), [first], split);
    }

    /** One post, or a split upload when the body is over budget or was just refused as an upload. */
    method SubmitTurn(dest: Destination, identity: Identity, query: string, mode: Mode, files: seq<File>,
                      messageId: Option<string>) returns (r: Outcome, ghost made: seq<Post>)
      requires Valid()
      requires Promoting(dest) ==> !HasPending(row)
      requires PendingIsThisOrNone(identity, query, messageId)
      modifies this`row, this`member, this`epoch, this`rows, this`posts
      ensures Progress() && posts == old(posts) + made
      ensures 1 <= |made| <= 1 + |files| && Climbs(made, r)
      ensures TurnPosts(r, made, identity, query, mode, files)
      ensures TurnShape(made, files, query)
      ensures PendingAfter(r, identity, query, messageId)
      ensures !r.Unreachable? ==> !Promoting(dest)
    {
      if |files| > 1 && UploadRawBytes(files) > MULTI_FILE_UPLOAD_BUDGET_BYTES {
        r, made := SubmitFilesOneByOne(dest, identity, query, mode, files, messageId);
      } else {
        r, made := SubmitWholeFirst(dest, identity, query, mode, files, messageId);
      }
    }

    /** A rung of the ladder: the turn again after a pause, on top of the posts made so far. */
    method Retry(dest: Destination, identity: Identity, query: string, mode: Mode, files: seq<File>,
                 messageId: Option<string>, ghost before: seq<Post>, ghost refused: Outcome)
      returns (r: Outcome, ghost made: seq<Post>)
      requires Valid() && ContextOnly(before, identity) && OfTurn(before, identity, query, mode)
      requires Climbs(before, refused) && UploadRefused(refused)
      requires PendingIsThis(identity, query, messageId) && !Promoting(dest)
      modifies this`row, this`member, this`epoch, this`rows, this`posts
      ensures Progress() && posts == old(posts) + made
      ensures 1 <= |made| <= 1 + |files| && Climbs(before + made, r)
      ensures TurnShape(made, files, query) && made[|made|-1].outcome == r
      ensures TurnPosts(r, before + made, identity, query, mode, files)
      ensures r.Accepted? ==> !HasPending(row)
      ensures r.Refused? ==> PendingIsThis(identity, query, messageId)
      ensures PendingIsThisOrNone(identity, query, messageId)
      ensures !r.Unreachable? ==> !Promoting(dest)
    {
      Await();
      r, made := SubmitTurn(dest, identity, query, mode, files, messageId);
      TurnPostsAfter(before, r, made, identity, query, mode, files);
      ClimbsOn(before, refused, made, r);
      if r.Accepted? {
        SetPending(None);
      }
    }

    /** The last rung: smaller images, if re-encoding changes any. */
    method RetrySmaller(dest: Destination, identity: Identity, query: string, mode: Mode, staged: seq<File>,
                        reencode: File -> File, messageId: Option<string>, ghost before: seq<Post>, refused: Outcome)
      returns (r: Outcome, ghost made: seq<Post>)
      requires Valid() && ContextOnly(before, identity) && OfTurn(before, identity, query, mode)
      requires Climbs(before, refused) && UploadRefused(refused)
      requires PendingIsThis(identity, query, messageId) && !Promoting(dest)
      modifies this`row, this`member, this`epoch, this`rows, this`posts
      ensures Progress() && posts == old(posts) + made
      ensures |made| <= 1 + |staged| && Climbs(before + made, r)
      ensures if Changed(staged, Mapped(staged, reencode)) then TurnShape(made, Mapped(staged, reencode), query)
              else made == [] && r == refused
      ensures TurnPosts(r, before + made, identity, query, mode, Mapped(staged, reencode))
      ensures r.Accepted? ==> !HasPending(row)
      ensures r.Refused? ==> PendingIsThis(identity, query, messageId)
      ensures PendingIsThisOrNone(identity, query, messageId)
      ensures !r.Unreachable? ==> !Promoting(dest)
    {
      var smaller := Mapped(staged, reencode);
      if Changed(staged, smaller) {
        r, made := Retry(dest, identity, query, mode, smaller, messageId, before, refused);
      } else {
        r, made := refused, [];
        assert before + [] == before;
      }
    }

    /** The rungs after a refused upload: the same files again, then the smaller ones. */
    method RetryUploads(dest: Destination, identity: Identity, query: string, mode: Mode, staged: seq<File>,
                        reencode: File -> File, messageId: Option<string>, ghost before: seq<Post>, refused: Outcome)
      returns (r: Outcome, ghost again: seq<Post>, ghost smaller: seq<Post>)
      requires Valid() && ContextOnly(before, identity) && OfTurn(before, identity, query, mode)
      requires Climbs(before, refused) && UploadRefused(refused)
      requires PendingIsThis(identity, query, messageId) && !Promoting(dest)
      modifies this`row, this`member, this`epoch, this`rows, this`posts
      ensures var made := again + smaller;
              && Progress() && posts == old(posts) + made
              && |made| <= 2 * (1 + |staged|) && Climbs(before + made, r)
              && (TurnPosts(r, before + made, identity, query, mode, staged)
                  || TurnPosts(r, before + made, identity, query, mode, Mapped(staged, reencode)))
      ensures TurnShape(again, staged, query)
      ensures if EndsRefused(again) && Changed(staged, Mapped(staged, reencode))
              then TurnShape(smaller, Mapped(staged, reencode), query) else smaller == []
      ensures r.Accepted? ==> !HasPending(row)
      ensures r.Refused? ==> PendingIsThis(identity, query, messageId)
      ensures PendingIsThisOrNone(identity, query, messageId)
      ensures !r.Unreachable? ==> !Promoting(dest)
    {
      smaller := [];
      r, again := Retry(dest, identity, query, mode, staged, messageId, before, refused);
      assert again + smaller == again;
      if !r.Refused? || r.status != UploadFailed {
        return;
      }
      r, smaller := RetrySmaller(dest, identity, query, mode, staged, reencode, messageId, before + again, r);
      Regroup(before, again, smaller);
      Regroup(old(posts), again, smaller);
    }

    /** The rungs, one by one. */
    method Climb(dest: Destination, identity: Identity, query: string, mode: Mode, staged: seq<File>,
                 reencode: File -> File, messageId: Option<string>) returns (r: Outcome, ghost rungs: Rungs)
      requires Valid() && !HasPending(row)
      modifies this`row, this`member, this`epoch, this`rows, this`posts
      ensures Progress() && posts == old(posts) + rungs.All()
      ensures 1 <= |rungs.All()| <= 3 * (1 + |staged|) && Climbs(rungs.All(), r)
      ensures || TurnPosts(r, rungs.All(), identity, query, mode, staged)
              || TurnPosts(r, rungs.All(), identity, query, mode, Mapped(staged, reencode))
      ensures Ladder(rungs, staged, Mapped(staged, reencode), query)
      ensures r.Accepted? ==> !HasPending(row)
      ensures r.Refused? ==> PendingIsThis(identity, query, messageId)
      ensures PendingIsThisOrNone(identity, query, messageId)
      ensures !r.Unreachable? ==> !Promoting(dest)
    {
      ghost var first, again, smaller := [], [], [];
      r, first := SubmitTurn(dest, identity, query, mode, staged, messageId);
      assert first + (again + smaller) == first;
      rungs := Rungs(first, again, smaller);
      if !r.Refused? || r.status != UploadFailed || staged == [] {
        return;
      }
      r, again, smaller := RetryUploads(dest, identity, query, mode, staged, reencode, messageId, first, r);
      rungs := Rungs(first, again, smaller);
      Regroup(old(posts), first, again + smaller);
    }

    /**
     * The upload ladder: staged files, the same files after a pause, then a
     * smaller re-encode if it changes anything. `staged` is the staged list
     * and `shrink` the re-encoder (see MediaFiles).
     */
    method SubmitMediaAsk(dest: Destination, identity: Identity, query: string, mode: Mode, staged: seq<File>,
                          shrink: File -> File, messageId: Option<string>)
      returns (r: Outcome, ghost made: seq<Post>, ghost rungs: Rungs)
      requires Valid() && !HasPending(row)
      modifies this`row, this`member, this`epoch, this`rows, this`posts
      ensures Progress() && posts == old(posts) + made
      ensures made == rungs.All() && Ladder(rungs, staged, Smaller(staged, shrink), query)
      ensures 1 <= |made| <= 3 * (1 + |staged|) && Climbs(made, r)
      ensures r.Accepted? ==> !HasPending(row)
      ensures r.Accepted? ==> Delivered(made, identity, query, mode)
      ensures r.Accepted? ==> Carries(made, staged) || Carries(made, Smaller(staged, shrink))
      ensures OfTurn(made, identity, query, mode) && (!r.Accepted? ==> ContextOnly(made, identity))
      ensures r.Refused? ==> PendingIsThis(identity, query, messageId)
      ensures r.Unreachable? ==> PendingIsThisOrNone(identity, query, messageId)
      ensures !r.Unreachable? ==> !Promoting(dest)
    {
      r, rungs := Climb(dest, identity, query, mode, staged, OnImages(shrink), messageId);
      made := rungs.All();
    }
  }
}
