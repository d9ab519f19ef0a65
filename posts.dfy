/**
 * Posts and polls, src/modules/posts/posts.service.ts: text posts with
 * optional images, polls whose options carry vote counts, and the ordered
 * rules by which a vote is rejected. The `posts` and `poll_votes` tables are
 * the fields of a class; uploads, fresh UUIDs and the clock are parameters.
 */
module Posts {
  import opened Wrappers
  import opened Strings

  datatype PostType = Text | TextWithImages | Poll | PollWithImages

  predicate IsPollType(t: PostType)
  {
    t == Poll || t == PollWithImages
  }

  datatype PollOption = PollOption(id: string, text: string, imageUrl: Option<string>, voteCount: int)

  /** A row of `posts`; the reaction, comment and share counters are not touched by this core. */
  datatype Post = Post(
    id: string,
    userId: string,
    content: Option<string>,
    kind: PostType,
    imageUrls: Option<seq<string>>,
    category: Option<string>,
    question: Option<string>,
    pollOptions: Option<seq<PollOption>>,
    multipleSelection: bool,
    durationDays: Option<int>,
    expiresAt: Option<int>,
    totalVotes: int,
    isClosed: bool,
    isDeleted: bool)

  /** A row of `poll_votes`, unique on (userId, postId, optionId). */
  datatype PollVote = PollVote(userId: string, postId: string, optionId: string)

  datatype PostInput = PostInput(content: Option<string>, category: Option<string>)

  datatype OptionInput = OptionInput(text: string, imageUrl: Option<string>)

  datatype PollInput = PollInput(
    content: Option<string>,
    question: string,
    options: seq<OptionInput>,
    multipleSelection: Option<bool>,
    durationDays: Option<int>,
    category: Option<string>)

  datatype VoteInput = VoteInput(pollId: string, optionIds: seq<string>)

  /** One day in milliseconds: `setDate(getDate() + n)` taken as a shift of n whole days. */
  const DayMs: int := 86400000

  /** What the unique index of `poll_votes` makes the database answer to a repeated row. */
  const DuplicateVoteMessage: string := "duplicate key value violates unique constraint"

  // ---------------------------------------------------------------------
  // createPost

  /**
   * The post that `createPost` saves, given the URLs of its uploaded images
   * (empty when no image was sent).
   */
  function NewPost(id: string, userId: string, dto: PostInput, imageUrls: seq<string>): (r: Result<Post>)
    ensures r.Err? <==> !Present(dto.content) && |imageUrls| == 0
    ensures r.Err? ==> r == Fail(BadRequest, "Post must have either content or images")
    ensures r.Ok? ==>
      r.value.id == id && r.value.userId == userId && r.value.content == dto.content
      && r.value.category == dto.category
      && (r.value.kind == TextWithImages <==> |imageUrls| > 0)
      && (r.value.kind == Text <==> |imageUrls| == 0)
      && r.value.imageUrls == (if |imageUrls| > 0 then Some(imageUrls) else None)
      && r.value.totalVotes == 0 && !r.value.isClosed && !r.value.isDeleted
  {
    var urls := if |imageUrls| > 0 then Some(imageUrls) else None;
    if !Present(dto.content) && urls.None? then Fail(BadRequest, "Post must have either content or images")
    else
      Ok(Post(id, userId, dto.content, if urls.Some? then TextWithImages else Text, urls, dto.category,
              None, None, false, None, None, 0, false, false))
  }

  // ---------------------------------------------------------------------
  // createPoll

  /** An option of a new poll: an uploaded image wins over a provided URL; an empty URL is dropped. */
  function NewOption(id: string, o: OptionInput, uploaded: Option<string>): (p: PollOption)
    ensures p.id == id && p.text == o.text && p.voteCount == 0
    ensures p.imageUrl == if uploaded.Some? then uploaded else if Present(o.imageUrl) then o.imageUrl else None
  {
    PollOption(id, o.text, if uploaded.Some? then uploaded else if Present(o.imageUrl) then o.imageUrl else None, 0)
  }

  function NewOptions(optionIds: seq<string>, options: seq<OptionInput>, uploaded: map<int, string>): (r: seq<PollOption>)
    requires |optionIds| == |options|
    ensures |r| == |options|
    ensures forall i :: 0 <= i < |r| ==>
      r[i] == NewOption(optionIds[i], options[i], if i in uploaded then Some(uploaded[i]) else None)
  {
    seq(|options|, i requires 0 <= i < |options| =>
      NewOption(optionIds[i], options[i], if i in uploaded then Some(uploaded[i]) else None))
  }

  /** `options.some((opt) => opt.imageUrl)`. */
  predicate SomeImage(options: seq<PollOption>)
  {
    exists i :: 0 <= i < |options| && Present(options[i].imageUrl)
  }

  /**
   * The poll that `createPoll` saves. `optionIds` are the fresh UUIDs of the
   * options, `uploaded` the URLs of the images uploaded per option index.
   */
  function NewPoll(id: string, userId: string, dto: PollInput, optionIds: seq<string>,
                   uploaded: map<int, string>, now: int): (p: Post)
    requires |optionIds| == |dto.options|
    ensures p.id == id && p.userId == userId && p.content == dto.content && p.category == dto.category
    ensures p.question == Some(dto.question)
    ensures p.pollOptions.Some? && |p.pollOptions.value| == |dto.options|
    ensures forall i :: 0 <= i < |dto.options| ==>
      p.pollOptions.value[i].id == optionIds[i] && p.pollOptions.value[i].voteCount == 0
      && p.pollOptions.value[i].text == dto.options[i].text
    ensures IsPollType(p.kind)
    ensures p.kind == PollWithImages <==> SomeImage(p.pollOptions.value)
    ensures p.multipleSelection <==> dto.multipleSelection == Some(true)
    ensures p.durationDays == dto.durationDays
    ensures p.expiresAt.Some? <==> dto.durationDays.Some? && dto.durationDays.value != 0
    ensures p.expiresAt.Some? ==> p.expiresAt.value == now + dto.durationDays.value * DayMs
    ensures p.totalVotes == 0 && !p.isClosed && !p.isDeleted
  {
    var options := NewOptions(optionIds, dto.options, uploaded);
    var expiresAt := if dto.durationDays.Some? && dto.durationDays.value != 0
                     then Some(now + dto.durationDays.value * DayMs) else None;
    Post(id, userId, dto.content, if SomeImage(options) then PollWithImages else Poll, None, dto.category,
         Some(dto.question), Some(options), dto.multipleSelection == Some(true), dto.durationDays, expiresAt,
         0, false, false)
  }

  /** Option images: an uploaded file overrides the given URL, and either makes the poll a POLL_WITH_IMAGES. */
  lemma PollImages(id: string, userId: string, dto: PollInput, optionIds: seq<string>,
                   uploaded: map<int, string>, now: int, i: int)
    requires |optionIds| == |dto.options| && 0 <= i < |dto.options|
    ensures var p := NewPoll(id, userId, dto, optionIds, uploaded, now);
      (i in uploaded ==> p.pollOptions.value[i].imageUrl == Some(uploaded[i]))
      && (i !in uploaded ==> p.pollOptions.value[i].imageUrl == (if Present(dto.options[i].imageUrl) then dto.options[i].imageUrl else None))
      && (i in uploaded && uploaded[i] != "" ==> p.kind == PollWithImages)
      && ((forall j :: 0 <= j < |dto.options| ==> j !in uploaded || uploaded[j] == "") && (forall o :: o in dto.options ==> !Present(o.imageUrl))
          ==> p.kind == Poll)
  {
    var p := NewPoll(id, userId, dto, optionIds, uploaded, now);
    var options := p.pollOptions.value;
    if (forall j :: 0 <= j < |dto.options| ==> j !in uploaded || uploaded[j] == "") && (forall o :: o in dto.options ==> !Present(o.imageUrl)) {
      forall j | 0 <= j < |options|
        ensures !Present(options[j].imageUrl)
      {
        assert dto.options[j] in dto.options;
      }
    }
    if i in uploaded && uploaded[i] != "" {
      assert Present(options[i].imageUrl);
    }
  }

  // ---------------------------------------------------------------------
  // votePoll: the checks

  predicate HasVoted(votes: seq<PollVote>, userId: string, postId: string)
  {
    exists v :: v in votes && v.userId == userId && v.postId == postId
  }

  predicate VotedAnyOf(votes: seq<PollVote>, userId: string, postId: string, optionIds: seq<string>)
  {
    exists v :: v in votes && v.userId == userId && v.postId == postId && v.optionId in optionIds
  }

  function OptionIds(options: seq<PollOption>): (ids: seq<string>)
    ensures |ids| == |options|
    ensures forall i :: 0 <= i < |options| ==> ids[i] == options[i].id
  {
    seq(|options|, i requires 0 <= i < |options| => options[i].id)
  }

  /** `optionIds.filter((id) => !validOptionIds.includes(id))`. */
  function NotAmong(ids: seq<string>, valid: seq<string>): (r: seq<string>)
    ensures forall id :: id in r <==> id in ids && id !in valid
  {
    if |ids| == 0 then []
    else
      var rest := NotAmong(ids[1..], valid);
      assert forall id :: id in ids <==> id == ids[0] || id in ids[1..];
      if ids[0] in valid then rest else [ids[0]] + rest
  }

  /** Everything a vote must pass, as one condition. */
  predicate VoteAllowed(posts: map<string, Post>, votes: seq<PollVote>, userId: string, dto: VoteInput, now: int)
  {
    dto.pollId in posts
    && var post := posts[dto.pollId];
    !post.isDeleted && IsPollType(post.kind)
    && post.pollOptions.Some? && |post.pollOptions.value| > 0
    && !post.isClosed
    && (post.expiresAt.Some? ==> now <= post.expiresAt.value)
    && (!post.multipleSelection ==> !HasVoted(votes, userId, dto.pollId) && |dto.optionIds| <= 1)
    && (post.multipleSelection ==> !VotedAnyOf(votes, userId, dto.pollId, dto.optionIds))
    && forall id :: id in dto.optionIds ==> id in OptionIds(post.pollOptions.value)
  }

  /** The checks of `votePoll`, in source order: the poll to update, or the first rule it breaks. */
  function VoteCheck(posts: map<string, Post>, votes: seq<PollVote>, userId: string, dto: VoteInput, now: int)
    : (r: Result<Post>)
    ensures r.Ok? <==> VoteAllowed(posts, votes, userId, dto, now)
    ensures r.Ok? ==> r.value == posts[dto.pollId]
    ensures r.Err? ==> r.error.status in {NotFound, BadRequest}
    ensures dto.pollId !in posts || posts[dto.pollId].isDeleted ==> r == Fail(NotFound, "Poll not found")
    ensures dto.pollId in posts && !posts[dto.pollId].isDeleted && !IsPollType(posts[dto.pollId].kind) ==>
      r == Fail(BadRequest, "This post is not a poll")
  {
    if dto.pollId !in posts || posts[dto.pollId].isDeleted then Fail(NotFound, "Poll not found")
    else
      var post := posts[dto.pollId];
      if !IsPollType(post.kind) then Fail(BadRequest, "This post is not a poll")
      else if post.pollOptions.None? || |post.pollOptions.value| == 0 then Fail(BadRequest, "Poll has no options")
      else if post.isClosed then Fail(BadRequest, "Poll is closed")
      else if post.expiresAt.Some? && now > post.expiresAt.value then Fail(BadRequest, "Poll has expired")
      else if !post.multipleSelection && HasVoted(votes, userId, dto.pollId) then
        Fail(BadRequest, "You have already voted on this poll")
      else if !post.multipleSelection && |dto.optionIds| > 1 then
        Fail(BadRequest, "Only one option can be selected for this poll")
      else if post.multipleSelection && VotedAnyOf(votes, userId, dto.pollId, dto.optionIds) then
        Fail(BadRequest, "You have already voted on some of these options")
      else
        var invalid := NotAmong(dto.optionIds, OptionIds(post.pollOptions.value));
        if |invalid| > 0 then
          assert invalid[0] in invalid;
          Fail(BadRequest, "Invalid option IDs: " + Join(invalid, ", "))
        else Ok(post)
  }

  /**
   * The rejections that come after the poll is found, in order: no options,
   * closed, expired strictly before now (the expiry instant itself still
   * accepts votes).
   */
  lemma PollStateRejections(posts: map<string, Post>, votes: seq<PollVote>, userId: string, dto: VoteInput, now: int)
    requires dto.pollId in posts && !posts[dto.pollId].isDeleted && IsPollType(posts[dto.pollId].kind)
    ensures var post := posts[dto.pollId];
      var r := VoteCheck(posts, votes, userId, dto, now);
      (post.pollOptions.None? || |post.pollOptions.value| == 0 ==> r == Fail(BadRequest, "Poll has no options"))
      && (post.pollOptions.Some? && |post.pollOptions.value| > 0 && post.isClosed ==> r == Fail(BadRequest, "Poll is closed"))
      && ((post.pollOptions.Some? && |post.pollOptions.value| > 0 && !post.isClosed
           && post.expiresAt.Some? && now > post.expiresAt.value) ==> r == Fail(BadRequest, "Poll has expired"))
      && (post.expiresAt == Some(now) ==> r != Fail(BadRequest, "Poll has expired"))
  {
  }

  /**
   * The per-user rules: a single-selection poll takes one vote of at most one
   * option per user; a multiple-selection poll refuses options the user has
   * already voted for.
   */
  lemma UserVoteRejections(posts: map<string, Post>, votes: seq<PollVote>, userId: string, dto: VoteInput, now: int)
    requires dto.pollId in posts
    requires var post := posts[dto.pollId];
      !post.isDeleted && IsPollType(post.kind) && post.pollOptions.Some? && |post.pollOptions.value| > 0
      && !post.isClosed && (post.expiresAt.Some? ==> now <= post.expiresAt.value)
    ensures var post := posts[dto.pollId];
      var r := VoteCheck(posts, votes, userId, dto, now);
      (!post.multipleSelection && HasVoted(votes, userId, dto.pollId) ==>
         r == Fail(BadRequest, "You have already voted on this poll"))
      && (!post.multipleSelection && !HasVoted(votes, userId, dto.pollId) && |dto.optionIds| > 1 ==>
         r == Fail(BadRequest, "Only one option can be selected for this poll"))
      && (post.multipleSelection && VotedAnyOf(votes, userId, dto.pollId, dto.optionIds) ==>
         r == Fail(BadRequest, "You have already voted on some of these options"))
  {
  }

  // ---------------------------------------------------------------------
  // votePoll: the tally

  /** The first option with its id: the one `find` returns for that id. */
  predicate FirstWithId(options: seq<PollOption>, i: int)
    requires 0 <= i < |options|
  {
    forall j :: 0 <= j < i ==> options[j].id != options[i].id
  }

  /** `options.find((opt) => opt.id === id)` followed by `voteCount += 1`. */
  function Bump(options: seq<PollOption>, id: string): (r: seq<PollOption>)
    ensures |r| == |options|
  {
    if |options| == 0 then []
    else if options[0].id == id then [options[0].(voteCount := options[0].voteCount + 1)] + options[1..]
    else [options[0]] + Bump(options[1..], id)
  }

  /** The options after the `forEach` over the first `|ids|` chosen ids. */
  function Counted(options: seq<PollOption>, ids: seq<string>): (r: seq<PollOption>)
    ensures |r| == |options|
  {
    if |ids| == 0 then options else Bump(Counted(options, ids[..|ids| - 1]), ids[|ids| - 1])
  }

  /** How often `id` occurs in `ids`. */
  function Occurrences(ids: seq<string>, id: string): (n: nat)
    ensures n <= |ids|
  {
    if |ids| == 0 then 0 else Occurrences(ids[..|ids| - 1], id) + (if ids[|ids| - 1] == id then 1 else 0)
  }

  /** `Bump` increments exactly the first option carrying the id. */
  lemma {:induction false} BumpAt(options: seq<PollOption>, id: string, i: int)
    requires 0 <= i < |options|
    ensures Bump(options, id)[i] ==
      if options[i].id == id && FirstWithId(options, i) then options[i].(voteCount := options[i].voteCount + 1)
      else options[i]
  {
    if i > 0 && options[0].id != id {
      BumpAt(options[1..], id, i - 1);
      var s := options[1..];
      if options[i].id == id {
        assert FirstWithId(options, i) <==> FirstWithId(s, i - 1) by {
          forall j | 0 <= j < i
            ensures options[j].id != options[i].id <==> (j == 0 || s[j - 1].id != s[i - 1].id)
          {
          }
        }
      }
    } else if i > 0 {
      assert !FirstWithId(options, i) || options[i].id != id;
    }
  }

  /**
   * After the tally every option keeps its id, text and image; the first
   * option with a given id gains one vote per occurrence of that id, and any
   * later option with a repeated id gains nothing.
   */
  lemma {:induction false} CountedAt(options: seq<PollOption>, ids: seq<string>)
    ensures forall i :: 0 <= i < |options| ==>
      Counted(options, ids)[i] ==
        if FirstWithId(options, i) then options[i].(voteCount := options[i].voteCount + Occurrences(ids, options[i].id))
        else options[i]
  {
    if |ids| > 0 {
      var init := ids[..|ids| - 1];
      var before := Counted(options, init);
      CountedAt(options, init);
      forall i | 0 <= i < |options|
        ensures Counted(options, ids)[i] ==
          if FirstWithId(options, i) then options[i].(voteCount := options[i].voteCount + Occurrences(ids, options[i].id))
          else options[i]
      {
        BumpAt(before, ids[|ids| - 1], i);
        assert FirstWithId(before, i) <==> FirstWithId(options, i) by {
          assert forall j :: 0 <= j < |options| ==> before[j].id == options[j].id;
        }
      }
    }
  }

  function SumVotes(options: seq<PollOption>): int
  {
    if |options| == 0 then 0 else options[0].voteCount + SumVotes(options[1..])
  }

  lemma {:induction false} BumpSum(options: seq<PollOption>, id: string)
    ensures SumVotes(Bump(options, id)) == SumVotes(options) + if id in OptionIds(options) then 1 else 0
  {
    if |options| > 0 && options[0].id != id {
      BumpSum(options[1..], id);
      assert OptionIds(options) == [options[0].id] + OptionIds(options[1..]);
    } else if |options| > 0 {
      assert Bump(options, id)[1..] == options[1..];
      assert OptionIds(options)[0] == id;
    }
  }

  /**
   * When every chosen id is an option of the poll, the tally adds exactly
   * one vote per chosen id, as `totalVotes += optionIds.length` does: the
   * total and the option counts stay in step.
   */
  lemma {:induction false} CountedSum(options: seq<PollOption>, ids: seq<string>)
    requires forall id :: id in ids ==> id in OptionIds(options)
    ensures SumVotes(Counted(options, ids)) == SumVotes(options) + |ids|
  {
    if |ids| > 0 {
      var init := ids[..|ids| - 1];
      assert forall id :: id in init ==> id in ids;
      CountedSum(options, init);
      var before := Counted(options, init);
      BumpSum(before, ids[|ids| - 1]);
      assert OptionIds(before) == OptionIds(options) by {
        CountedAt(options, init);
      }
    }
  }

  /** The index `find` stops at, or |options| when no option has the id. */
  lemma {:induction false} BumpIs(options: seq<PollOption>, id: string, k: int)
    requires 0 <= k <= |options|
    requires forall j :: 0 <= j < k ==> options[j].id != id
    requires k < |options| ==> options[k].id == id
    ensures k < |options| ==> Bump(options, id) == options[k := options[k].(voteCount := options[k].voteCount + 1)]
    ensures k == |options| ==> Bump(options, id) == options
  {
    if |options| > 0 && k > 0 {
      BumpIs(options[1..], id, k - 1);
    }
  }

  /** The `forEach` of votePoll over the chosen ids, incrementing options of the poll's array in place. */
  method Tally(options: array<PollOption>, ids: seq<string>)
    modifies options
    ensures options[..] == Counted(old(options[..]), ids)
  {
    var n := 0;
    while n < |ids|
      invariant 0 <= n <= |ids|
      invariant options[..] == Counted(old(options[..]), ids[..n])
    {
      var k := 0;
      while k < options.Length && options[k].id != ids[n]
        invariant 0 <= k <= options.Length
        invariant forall j :: 0 <= j < k ==> options[j].id != ids[n]
      {
        k := k + 1;
      }
      BumpIs(options[..], ids[n], k);
      if k < options.Length {
        options[k] := options[k].(voteCount := options[k].voteCount + 1);
      }
      assert ids[..n + 1][..n] == ids[..n];
      n := n + 1;
    }
    assert ids[..n] == ids;
  }

  /** The rows `pollVotesRepo.save(votes)` inserts. */
  function NewVotes(userId: string, postId: string, ids: seq<string>): (vs: seq<PollVote>)
    ensures |vs| == |ids|
    ensures forall i :: 0 <= i < |ids| ==> vs[i] == PollVote(userId, postId, ids[i])
  {
    seq(|ids|, i requires 0 <= i < |ids| => PollVote(userId, postId, ids[i]))
  }

  /** The unique index of `poll_votes`. */
  predicate UniqueVotes(votes: seq<PollVote>)
  {
    forall i, j :: 0 <= i < j < |votes| ==> votes[i] != votes[j]
  }

  /** The poll after a vote: its options tallied and its total raised by the number of chosen ids. */
  function Voted(post: Post, ids: seq<string>): Post
    requires post.pollOptions.Some?
  {
    post.(pollOptions := Some(Counted(post.pollOptions.value, ids)), totalVotes := post.totalVotes + |ids|)
  }

  /** The `posts` and `poll_votes` tables with the operations of PostsService on them. */
  class PostsService {
    var posts: map<string, Post>
    var votes: seq<PollVote>

    ghost predicate Valid()
      reads this
    {
      (forall id :: id in posts ==> posts[id].id == id)
      && UniqueVotes(votes)
      && (forall v :: v in votes ==> v.postId in posts)
    }

    constructor()
      ensures posts == map[] && votes == [] && Valid()
    {
      posts := map[];
      votes := [];
    }

    /** `createPost`; `id` is the new row's UUID, `imageUrls` the URLs of the uploaded images. */
    method CreatePost(id: string, userId: string, dto: PostInput, imageUrls: seq<string>) returns (r: Result<Post>)
      requires Valid() && id !in posts
      modifies this
      ensures Valid()
      ensures r == NewPost(id, userId, dto, imageUrls)
      ensures posts == if r.Ok? then old(posts)[id := r.value] else old(posts)
      ensures votes == old(votes)
    {
      r := NewPost(id, userId, dto, imageUrls);
      if r.Ok? {
        posts := posts[id := r.value];
      }
    }

    /** `createPoll`; `optionIds` are the options' fresh UUIDs, `uploaded` the URLs of the option images. */
    method CreatePoll(id: string, userId: string, dto: PollInput, optionIds: seq<string>,
                      uploaded: map<int, string>, now: int) returns (p: Post)
      requires Valid() && id !in posts && |optionIds| == |dto.options|
      modifies this
      ensures Valid()
      ensures p == NewPoll(id, userId, dto, optionIds, uploaded, now)
      ensures posts == old(posts)[id := p] && votes == old(votes)
    {
      p := NewPoll(id, userId, dto, optionIds, uploaded, now);
      posts := posts[id := p];
    }

    /**
     * `votePoll`: the checks in order, then the vote rows (rejected as a
     * whole by the unique index when an option id repeats), then the tally.
     */
    method VotePoll(userId: string, dto: VoteInput, now: int) returns (r: Result<Post>)
      requires Valid()
      modifies this
      ensures Valid()
      ensures var check := VoteCheck(old(posts), old(votes), userId, dto, now);
        var rows := NewVotes(userId, dto.pollId, dto.optionIds);
        if check.Err? then r == Err(check.error) && posts == old(posts) && votes == old(votes)
        else if !UniqueVotes(old(votes) + rows) then
          r == Fail(InternalServerError, DuplicateVoteMessage) && posts == old(posts) && votes == old(votes)
        else
          var p := Voted(check.value, dto.optionIds);
          r == Ok(p) && posts == old(posts)[dto.pollId := p] && votes == old(votes) + rows
    {
      var check := VoteCheck(posts, votes, userId, dto, now);
      if check.Err? {
        return Err(check.error);
      }
      var post := check.value;
      var rows := NewVotes(userId, dto.pollId, dto.optionIds);
      if !UniqueVotes(votes + rows) {
        return Fail(InternalServerError, DuplicateVoteMessage);
      }
      votes := votes + rows;
      var current := post.pollOptions.value;
      var options := new PollOption[|current|](i requires 0 <= i < |current| => current[i]);
      assert options[..] == current;
      Tally(options, dto.optionIds);
      post := post.(pollOptions := Some(options[..]), totalVotes := post.totalVotes + |dto.optionIds|);
      posts := posts[dto.pollId := post];
      r := Ok(post);
    }
  }

  /**
   * An accepted vote keeps `totalVotes` and the sum of the options' counts
   * the same distance apart: both grow by the number of chosen ids.
   */
  lemma AcceptedVoteKeepsTotals(posts: map<string, Post>, votes: seq<PollVote>, userId: string, dto: VoteInput, now: int)
    requires VoteCheck(posts, votes, userId, dto, now).Ok?
    ensures var post := posts[dto.pollId];
      var p := Voted(post, dto.optionIds);
      p.totalVotes == post.totalVotes + |dto.optionIds|
      && SumVotes(p.pollOptions.value) == SumVotes(post.pollOptions.value) + |dto.optionIds|
  {
    var post := posts[dto.pollId];
    CountedSum(post.pollOptions.value, dto.optionIds);
  }

  /**
   * After a single-selection vote with at least one option, a second vote of
   * the same user on the same poll is rejected.
   */
  lemma SecondSingleVoteRejected(posts: map<string, Post>, votes: seq<PollVote>, userId: string,
                                 dto: VoteInput, again: VoteInput, now: int, later: int)
    requires VoteCheck(posts, votes, userId, dto, now).Ok?
    requires !posts[dto.pollId].multipleSelection && |dto.optionIds| > 0
    requires again.pollId == dto.pollId
    requires var p := Voted(posts[dto.pollId], dto.optionIds);
      var after := posts[dto.pollId := p];
      !p.isClosed && (p.expiresAt.Some? ==> later <= p.expiresAt.value)
    ensures var after := posts[dto.pollId := Voted(posts[dto.pollId], dto.optionIds)];
      VoteCheck(after, votes + NewVotes(userId, dto.pollId, dto.optionIds), userId, again, later)
      == Fail(BadRequest, "You have already voted on this poll")
  {
    var rows := NewVotes(userId, dto.pollId, dto.optionIds);
    assert rows[0] in votes + rows;
  }

  /**
   * On a multiple-selection poll, naming the same option twice passes the
   * checks but the vote rows break the unique index, so nothing is saved.
   */
  lemma RepeatedOptionBreaksIndex(votes: seq<PollVote>, userId: string, postId: string, ids: seq<string>, i: int, j: int)
    requires 0 <= i < j < |ids| && ids[i] == ids[j]
    ensures !UniqueVotes(votes + NewVotes(userId, postId, ids))
  {
    var all := votes + NewVotes(userId, postId, ids);
    assert all[|votes| + i] == all[|votes| + j];
  }

  /** Without repeated ids, the rows of an accepted vote keep the index unique. */
  lemma FreshVotesUnique(posts: map<string, Post>, votes: seq<PollVote>, userId: string, dto: VoteInput, now: int)
    requires UniqueVotes(votes)
    requires VoteCheck(posts, votes, userId, dto, now).Ok?
    requires forall i, j :: 0 <= i < j < |dto.optionIds| ==> dto.optionIds[i] != dto.optionIds[j]
    ensures UniqueVotes(votes + NewVotes(userId, dto.pollId, dto.optionIds))
  {
    var rows := NewVotes(userId, dto.pollId, dto.optionIds);
    var all := votes + rows;
    forall i, j | 0 <= i < j < |all|
      ensures all[i] != all[j]
    {
      if i < |votes| && j >= |votes| {
        assert all[i] in votes;
        assert rows[j - |votes|].optionId in dto.optionIds;
      }
    }
  }
}
