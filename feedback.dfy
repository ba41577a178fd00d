/** The feedback handlers: `createFeedback`, `getFeedbacks`,
    `updateFeedback` and `deleteFeedback`. The three writers check their
    guards in a fixed order and touch only the post table (and, for delete,
    the vote rows of the deleted post); the listing is a pure function of
    the tables and the query. */
module FeedbackController {
  import opened Common
  import opened Store

  const ValidationError := "Validation error"
  const AllFieldsRequired := "All fields are required"
  const CategoryNotFound := "Category not found"
  const StatusNotFound := "Status not found"
  const CreateFailed := "Error creating feedback"
  const Unauthorized := "Unauthorized"
  const FeedbackNotFound := "Feedback not found"
  const NotAuthorToEdit := "Not authorized to edit this feedback"
  const NotAuthorToDelete := "Not authorized to delete this feedback"
  const UpdateFailed := "Error updating feedback"

  /** The request body of create and update; any field may be absent. */
  datatype FeedbackInput = FeedbackInput(title: Option<string>, description: Option<string>,
                                         categoryId: Option<nat>, statusId: Option<nat>)

  /** A post as create and update return it, with its `_count.votes`. */
  datatype PostView = PostView(post: Post, votes: nat)

  /** The create handler's first guard: every field present and truthy. */
  predicate AllFieldsPresent(b: FeedbackInput)
  {
    TextPresent(b.title) && TextPresent(b.description) && IdPresent(b.categoryId) && IdPresent(b.statusId)
  }

  /** A post that does not exist has no vote rows, by the vote table's foreign key. */
  lemma NoVotesOnAbsentPost(s: Snapshot, id: nat)
    requires VotesValid(s)
    requires id !in s.posts
    ensures VoteCount(s.votes, id) == 0
  {
    assert VotesOn(s.votes, id) == {};
  }

  // ---------------------------------------------------------------- create

  method CreateFeedback(db: Db, user: Option<Claims>, body: FeedbackInput, now: int)
    returns (reply: Reply<PostView>)
    requires db.Valid()
    modifies db
    ensures db.Valid()
    ensures !AllFieldsPresent(body) ==> reply == Failure(400, ValidationError, Some(AllFieldsRequired))
    ensures AllFieldsPresent(body) && body.categoryId.value !in old(db.categories.rows) ==>
              reply == Failure(400, ValidationError, Some(CategoryNotFound))
    ensures AllFieldsPresent(body) && body.categoryId.value in old(db.categories.rows)
            && body.statusId.value !in old(db.statuses.rows) ==>
              reply == Failure(400, ValidationError, Some(StatusNotFound))
    ensures reply.Success? <==>
              && AllFieldsPresent(body)
              && body.categoryId.value in old(db.categories.rows)
              && body.statusId.value in old(db.statuses.rows)
              && user.Some? && user.value.userId in old(db.users)
    ensures AllFieldsPresent(body) && body.categoryId.value in old(db.categories.rows)
            && body.statusId.value in old(db.statuses.rows)
            && !(user.Some? && user.value.userId in old(db.users)) ==>
              reply == Failure(500, CreateFailed, None)
    ensures reply.Failure? ==> db.Tables() == old(db.Tables())
    ensures reply.Success? ==>
              var id := old(db.nextPostId);
              && id !in old(db.posts)
              && db.posts == old(db.posts)[id := Post(id, body.title.value, body.description.value,
                                                     user.value.userId, body.categoryId.value,
                                                     body.statusId.value, now)]
              && db.Tables() == old(db.Tables()).(posts := db.posts, nextPostId := id + 1)
              && reply == Success(201, PostView(db.posts[id], 0))
  {
    if !AllFieldsPresent(body) {
      reply := Failure(400, ValidationError, Some(AllFieldsRequired));
      return;
    }
    var categoryFound := body.categoryId.value in db.categories.rows;
    var statusFound := body.statusId.value in db.statuses.rows;
    if !categoryFound {
      reply := Failure(400, ValidationError, Some(CategoryNotFound));
      return;
    }
    if !statusFound {
      reply := Failure(400, ValidationError, Some(StatusNotFound));
      return;
    }
    // The insert violates the author foreign key when there is no such user.
    if user.None? || user.value.userId !in db.users {
      reply := Failure(500, CreateFailed, None);
      return;
    }
    var id := db.nextPostId;
    var post := Post(id, body.title.value, body.description.value, user.value.userId,
                     body.categoryId.value, body.statusId.value, now);
    NoVotesOnAbsentPost(db.Tables(), id);
    db.posts := db.posts[id := post];
    db.nextPostId := id + 1;
    reply := Success(201, PostView(post, VoteCount(db.votes, id)));
  }

  // ---------------------------------------------------------------- update

  /** The row after the update: `undefined` text fields are left as they
      were, the two foreign keys are replaced; id, author and creation time
      never change. */
  function Rewritten(p: Post, body: FeedbackInput): (r: Post)
    requires body.categoryId.Some? && body.statusId.Some?
    ensures r.id == p.id && r.authorId == p.authorId && r.createdAt == p.createdAt
    ensures r.title == (if body.title.Some? then body.title.value else p.title)
    ensures r.description == (if body.description.Some? then body.description.value else p.description)
    ensures r.categoryId == body.categoryId.value && r.statusId == body.statusId.value
  {
    p.(title := if body.title.Some? then body.title.value else p.title,
       description := if body.description.Some? then body.description.value else p.description,
       categoryId := body.categoryId.value,
       statusId := body.statusId.value)
  }

  /** Whether the store accepts the new foreign keys: a missing id parses to
      `NaN`, which the store rejects like an id with no row. */
  predicate KeysResolve(s: Snapshot, body: FeedbackInput)
  {
    && body.categoryId.Some? && body.categoryId.value in s.categories.rows
    && body.statusId.Some? && body.statusId.value in s.statuses.rows
  }

  method UpdateFeedback(db: Db, user: Option<Claims>, id: nat, body: FeedbackInput)
    returns (reply: Reply<PostView>)
    requires db.Valid()
    modifies db
    ensures db.Valid()
    ensures !IdPresent(UserIdOf(user)) ==> reply == Failure(401, Unauthorized, None)
    ensures IdPresent(UserIdOf(user)) && id !in old(db.posts) ==>
              reply == Failure(404, FeedbackNotFound, None)
    ensures IdPresent(UserIdOf(user)) && id in old(db.posts)
            && old(db.posts)[id].authorId != user.value.userId ==>
              reply == Failure(403, NotAuthorToEdit, None)
    ensures reply.Success? <==>
              && IdPresent(UserIdOf(user)) && id in old(db.posts)
              && old(db.posts)[id].authorId == user.value.userId
              && KeysResolve(old(db.Tables()), body)
    ensures IdPresent(UserIdOf(user)) && id in old(db.posts)
            && old(db.posts)[id].authorId == user.value.userId
            && !KeysResolve(old(db.Tables()), body) ==>
              reply == Failure(500, UpdateFailed, None)
    ensures reply.Failure? ==> db.Tables() == old(db.Tables())
    ensures reply.Success? ==>
              && db.posts == old(db.posts)[id := Rewritten(old(db.posts)[id], body)]
              && db.Tables() == old(db.Tables()).(posts := db.posts)
              && reply == Success(200, PostView(db.posts[id], VoteCount(db.votes, id)))
  {
    var userId := UserIdOf(user);
    if !IdPresent(userId) {
      reply := Failure(401, Unauthorized, None);
      return;
    }
    if id !in db.posts {
      reply := Failure(404, FeedbackNotFound, None);
      return;
    }
    var post := db.posts[id];
    if post.authorId != userId.value {
      reply := Failure(403, NotAuthorToEdit, None);
      return;
    }
    if !KeysResolve(db.Tables(), body) {
      reply := Failure(500, UpdateFailed, None);
      return;
    }
    var updated := Rewritten(post, body);
    db.posts := db.posts[id := updated];
    reply := Success(200, PostView(updated, VoteCount(db.votes, id)));
  }

  // ---------------------------------------------------------------- delete

  method DeleteFeedback(db: Db, user: Option<Claims>, id: nat) returns (reply: Reply<()>)
    requires db.Valid()
    modifies db
    ensures db.Valid()
    ensures !IdPresent(UserIdOf(user)) ==> reply == Failure(401, Unauthorized, None)
    ensures IdPresent(UserIdOf(user)) && id !in old(db.posts) ==>
              reply == Failure(404, FeedbackNotFound, None)
    ensures IdPresent(UserIdOf(user)) && id in old(db.posts)
            && old(db.posts)[id].authorId != user.value.userId ==>
              reply == Failure(403, NotAuthorToDelete, None)
    ensures reply.Success? <==>
              IdPresent(UserIdOf(user)) && id in old(db.posts) && old(db.posts)[id].authorId == user.value.userId
    ensures reply.Failure? ==> db.Tables() == old(db.Tables())
    ensures reply.Success? ==>
              && reply == Success(204, ())
              && db.posts == old(db.posts) - {id}
              && db.votes == (set v | v in old(db.votes) && v.postId != id)
              && db.Tables() == old(db.Tables()).(posts := db.posts, votes := db.votes)
  {
    var userId := UserIdOf(user);
    if !IdPresent(userId) {
      reply := Failure(401, Unauthorized, None);
      return;
    }
    if id !in db.posts {
      reply := Failure(404, FeedbackNotFound, None);
      return;
    }
    if db.posts[id].authorId != userId.value {
      reply := Failure(403, NotAuthorToDelete, None);
      return;
    }
    // The vote rows of the post go with it.
    db.votes := set v | v in db.votes && v.postId != id;
    db.posts := db.posts - {id};
    reply := Success(204, ());
  }

  // ---------------------------------------------------------------- listing

  /** The query string of `GET /feedback`. */
  datatype Query = Query(page: Option<Pos>, limit: Option<Pos>, categoryId: Option<nat>,
                         statusId: Option<nat>, sortBy: Option<string>)

  /** A listed post with its vote count and whether the caller voted for it. */
  datatype Item = Item(post: Post, votes: nat, hasVoted: bool)

  datatype Pagination = Pagination(total: nat, pages: nat, currentPage: nat)

  datatype Listing = Listing(posts: seq<Item>, pagination: Pagination)

  const DefaultPage: Pos := 1
  const DefaultLimit: Pos := 10
  const DefaultSortBy := "createdAt"

  function PageOf(q: Query): Pos
  {
    if q.page.Some? then q.page.value else DefaultPage
  }

  function LimitOf(q: Query): Pos
  {
    if q.limit.Some? then q.limit.value else DefaultLimit
  }

  function SortByOf(q: Query): string
  {
    if q.sortBy.Some? then q.sortBy.value else DefaultSortBy
  }

  /** `skip = (page - 1) * limit`. */
  function SkipOf(q: Query): nat
  {
    (PageOf(q) - 1) * LimitOf(q)
  }

  /** The `where` clause of the listing and of its count. */
  datatype Filter = Filter(categoryId: Option<nat>, statusId: Option<nat>)

  function FilterOf(q: Query): Filter
  {
    Filter(q.categoryId, q.statusId)
  }

  /** Each filter is an equality match that applies only when it was supplied. */
  predicate Matches(f: Filter, p: Post)
    ensures f.categoryId.None? && f.statusId.None? ==> Matches(f, p)
    ensures f.categoryId.None? ==> (Matches(f, p) <==> f.statusId.None? || p.statusId == f.statusId.value)
    ensures f.statusId.None? ==> (Matches(f, p) <==> f.categoryId.None? || p.categoryId == f.categoryId.value)
    ensures Matches(f, p) && f.categoryId.Some? ==> p.categoryId == f.categoryId.value
    ensures Matches(f, p) && f.statusId.Some? ==> p.statusId == f.statusId.value
  {
    && (f.categoryId.None? || p.categoryId == f.categoryId.value)
    && (f.statusId.None? || p.statusId == f.statusId.value)
  }

  /** A row as listed: `_count.votes`, and `hasVoted` when a user id is known. */
  function Decorate(votes: set<Vote>, userId: Option<nat>, p: Post): (it: Item)
    ensures it.post == p && it.votes == VoteCount(votes, p.id)
    ensures !IdPresent(userId) ==> !it.hasVoted
    ensures IdPresent(userId) ==> (it.hasVoted <==> Vote(userId.value, p.id) in votes)
  {
    Item(p, VoteCount(votes, p.id), if IdPresent(userId) then Vote(userId.value, p.id) in votes else false)
  }

  /** The matching posts with ids below `bound`, by ascending id. */
  function Candidates(s: Snapshot, f: Filter, userId: Option<nat>, bound: nat): (c: seq<Item>)
    ensures |c| <= bound
  {
    if bound == 0 then []
    else
      var id := bound - 1;
      Candidates(s, f, userId, id)
        + (if id in s.posts && Matches(f, s.posts[id]) then [Decorate(s.votes, userId, s.posts[id])] else [])
  }

  /** The `orderBy` key: the vote count for `sortBy == "votes"`, else the creation time. */
  function Key(it: Item, byVotes: bool): int
  {
    if byVotes then it.votes else it.post.createdAt
  }

  /** Non-increasing keys, stated on neighbours; `SortedPairwise` gives any two positions. */
  ghost predicate SortedDesc(s: seq<Item>, byVotes: bool)
  {
    |s| <= 1 || (Key(s[0], byVotes) >= Key(s[1], byVotes) && SortedDesc(s[1..], byVotes))
  }

  lemma {:induction false} SortedPairwise(s: seq<Item>, byVotes: bool, i: nat, j: nat)
    requires SortedDesc(s, byVotes)
    requires i <= j < |s|
    ensures Key(s[i], byVotes) >= Key(s[j], byVotes)
  {
    if 0 < i {
      SortedPairwise(s[1..], byVotes, i - 1, j - 1);
    } else if 0 < j {
      SortedPairwise(s[1..], byVotes, 0, j - 1);
    }
  }

  function Insert(x: Item, s: seq<Item>, byVotes: bool): (r: seq<Item>)
    requires SortedDesc(s, byVotes)
    ensures SortedDesc(r, byVotes)
    ensures multiset(r) == multiset(s) + multiset{x}
    ensures |r| == |s| + 1
    ensures r[0] == x || (|s| > 0 && r[0] == s[0])
  {
    if s == [] || Key(x, byVotes) >= Key(s[0], byVotes) then [x] + s
    else
      assert s == [s[0]] + s[1..];
      var rest := Insert(x, s[1..], byVotes);
      assert ([s[0]] + rest)[1..] == rest;
      [s[0]] + rest
  }

  /** The rows in non-increasing key order. */
  function Sort(s: seq<Item>, byVotes: bool): (r: seq<Item>)
    ensures SortedDesc(r, byVotes)
    ensures multiset(r) == multiset(s)
    ensures |r| == |s|
  {
    if s == [] then []
    else
      assert s == [s[0]] + s[1..];
      Insert(s[0], Sort(s[1..], byVotes), byVotes)
  }

  /** `Math.ceil(n / d)`. */
  function CeilDiv(n: nat, d: Pos): (q: nat)
    ensures q * d >= n
    ensures q > 0 ==> (q - 1) * d < n
  {
    var q := (n + d - 1) / d;
    assert q * d + (n + d - 1) % d == n + d - 1;
    q
  }

  function Min(a: nat, b: nat): nat
  {
    if a < b then a else b
  }

  /** The store's `skip`/`take`: at most `take` rows from offset `skip`. */
  function Window(s: seq<Item>, skip: nat, take: nat): (r: seq<Item>)
    ensures |r| == if skip < |s| then Min(take, |s| - skip) else 0
    ensures forall i :: 0 <= i < |r| ==> r[i] == s[skip + i]
  {
    var lo := if skip < |s| then skip else |s|;
    var hi := if skip + take < |s| then skip + take else |s|;
    s[lo..hi]
  }

  /** Every matching post, in the order the listing uses, before `skip`/`take`. */
  function Ordered(s: Snapshot, q: Query, userId: Option<nat>): (r: seq<Item>)
    ensures SortedDesc(r, SortByOf(q) == "votes")
    ensures multiset(r) == multiset(Candidates(s, FilterOf(q), userId, s.nextPostId))
  {
    Sort(Candidates(s, FilterOf(q), userId, s.nextPostId), SortByOf(q) == "votes")
  }

  /** `getFeedbacks`: the requested page of the ordered rows and the
      pagination block. */
  function ListFeedbacks(s: Snapshot, q: Query, userId: Option<nat>): (r: Listing)
    ensures |r.posts| <= LimitOf(q)
    ensures |r.posts| == if SkipOf(q) < |Ordered(s, q, userId)|
                         then Min(LimitOf(q), |Ordered(s, q, userId)| - SkipOf(q)) else 0
    ensures forall i :: 0 <= i < |r.posts| ==> r.posts[i] == Ordered(s, q, userId)[SkipOf(q) + i]
    ensures r.pagination.total == |Ordered(s, q, userId)|
    ensures r.pagination.pages * LimitOf(q) >= r.pagination.total
    ensures r.pagination.pages > 0 ==> (r.pagination.pages - 1) * LimitOf(q) < r.pagination.total
    ensures r.pagination.currentPage == PageOf(q)
  {
    var all := Ordered(s, q, userId);
    var page := Window(all, SkipOf(q), LimitOf(q));
    Listing(page, Pagination(|all|, CeilDiv(|all|, LimitOf(q)), PageOf(q)))
  }

  // ---------------------------------------------------------------- listing lemmas

  /** The ids of the posts that the filter selects. */
  function MatchingIds(s: Snapshot, f: Filter): set<nat>
  {
    set id | id in s.posts && Matches(f, s.posts[id])
  }

  ghost predicate Keyed(posts: map<nat, Post>)
  {
    forall id :: id in posts ==> posts[id].id == id
  }

  /** A listed row is a stored post below `bound` that matches the filter,
      with its own vote count and vote flag. */
  ghost predicate RowSound(s: Snapshot, f: Filter, userId: Option<nat>, bound: nat, it: Item)
  {
    && it.post.id in s.posts && it.post.id < bound
    && s.posts[it.post.id] == it.post
    && Matches(f, it.post)
    && it == Decorate(s.votes, userId, it.post)
  }

  ghost predicate Ascending(c: seq<Item>)
  {
    forall i, j :: 0 <= i < j < |c| ==> c[i].post.id < c[j].post.id
  }

  /** Every candidate row is sound and the ids ascend strictly. */
  lemma {:induction false} CandidatesSound(s: Snapshot, f: Filter, userId: Option<nat>, bound: nat)
    requires Keyed(s.posts)
    ensures forall it :: it in Candidates(s, f, userId, bound) ==> RowSound(s, f, userId, bound, it)
    ensures Ascending(Candidates(s, f, userId, bound))
  {
    if bound > 0 {
      var id := bound - 1;
      CandidatesSound(s, f, userId, id);
      var c0 := Candidates(s, f, userId, id);
      assert forall it :: RowSound(s, f, userId, id, it) ==> RowSound(s, f, userId, bound, it);
      if id in s.posts && Matches(f, s.posts[id]) {
        var x := Decorate(s.votes, userId, s.posts[id]);
        var c := c0 + [x];
        assert Candidates(s, f, userId, bound) == c;
        assert RowSound(s, f, userId, bound, x);
        forall i, j | 0 <= i < j < |c| ensures c[i].post.id < c[j].post.id {
          if j < |c0| {
            assert c[i] == c0[i] && c[j] == c0[j];
          } else {
            assert c[i] == c0[i] && c0[i] in c0;
          }
        }
      } else {
        assert Candidates(s, f, userId, bound) == c0;
      }
    }
  }

  /** Every stored post below the bound that matches the filter is a candidate. */
  lemma {:induction false} CandidatesComplete(s: Snapshot, f: Filter, userId: Option<nat>, bound: nat, id: nat)
    requires id in s.posts && id < bound && Matches(f, s.posts[id])
    ensures Decorate(s.votes, userId, s.posts[id]) in Candidates(s, f, userId, bound)
  {
    if id < bound - 1 {
      CandidatesComplete(s, f, userId, bound - 1, id);
    }
  }

  /** There are as many candidates as matching ids below the bound. */
  lemma {:induction false} CandidatesCount(s: Snapshot, f: Filter, userId: Option<nat>, bound: nat)
    ensures |Candidates(s, f, userId, bound)| == |set id | id in MatchingIds(s, f) && id < bound|
  {
    if bound == 0 {
      assert (set id | id in MatchingIds(s, f) && id < bound) == {};
    } else {
      CandidatesCount(s, f, userId, bound - 1);
      var below := set id | id in MatchingIds(s, f) && id < bound - 1;
      var upTo := set id | id in MatchingIds(s, f) && id < bound;
      if bound - 1 in MatchingIds(s, f) {
        assert upTo == below + {bound - 1};
      } else {
        assert upTo == below;
      }
    }
  }

  /** `total` is the number of stored posts that match the filters. */
  lemma TotalCountsMatching(s: Snapshot, q: Query, userId: Option<nat>)
    requires SnapshotValid(s)
    ensures ListFeedbacks(s, q, userId).pagination.total == |MatchingIds(s, FilterOf(q))|
  {
    var f := FilterOf(q);
    CandidatesCount(s, f, userId, s.nextPostId);
    assert (set id | id in MatchingIds(s, f) && id < s.nextPostId) == MatchingIds(s, f);
  }

  /** The full ordering holds each matching post exactly once, decorated
      with its vote count and the caller's vote flag. */
  lemma OrderedHoldsEachMatchOnce(s: Snapshot, q: Query, userId: Option<nat>, id: nat)
    requires SnapshotValid(s)
    requires id in MatchingIds(s, FilterOf(q))
    ensures multiset(Ordered(s, q, userId))[Decorate(s.votes, userId, s.posts[id])] == 1
  {
    var f := FilterOf(q);
    var c := Candidates(s, f, userId, s.nextPostId);
    CandidatesSound(s, f, userId, s.nextPostId);
    var it := Decorate(s.votes, userId, s.posts[id]);
    CandidatesComplete(s, f, userId, s.nextPostId, id);
    var k :| 0 <= k < |c| && c[k] == it;
    assert Ascending(c);
    OccursOnce(c, k);
  }

  /** Every row of the full ordering is a matching post with its own
      decoration. */
  lemma OrderedHoldsOnlyMatches(s: Snapshot, q: Query, userId: Option<nat>, it: Item)
    requires SnapshotValid(s)
    requires it in Ordered(s, q, userId)
    ensures it.post.id in MatchingIds(s, FilterOf(q))
    ensures it.post == s.posts[it.post.id] && it == Decorate(s.votes, userId, it.post)
  {
    var f := FilterOf(q);
    var c := Candidates(s, f, userId, s.nextPostId);
    CandidatesSound(s, f, userId, s.nextPostId);
    assert it in multiset(Ordered(s, q, userId));
    assert it in multiset(c);
    assert RowSound(s, f, userId, s.nextPostId, it);
  }

  /** In a row sequence with strictly ascending ids, the row at `k` occurs once. */
  lemma {:induction false} OccursOnce(c: seq<Item>, k: nat)
    requires k < |c|
    requires Ascending(c)
    ensures multiset(c)[c[k]] == 1
  {
    if k == |c| - 1 {
      var init := c[..|c| - 1];
      assert c == init + [c[k]];
      assert c[k] !in init by {
        forall i | 0 <= i < |init| ensures init[i] != c[k] {
          assert init[i].post.id < c[k].post.id;
        }
      }
    } else {
      var init := c[..|c| - 1];
      assert c == init + [c[|c| - 1]];
      assert c[|c| - 1] != c[k] by {
        assert c[k].post.id < c[|c| - 1].post.id;
      }
      OccursOnce(init, k);
      assert init[k] == c[k];
    }
  }

  /** Each listed row is a stored post that matches the filters; its
      `votes` is its vote-row count and `hasVoted` is false without a user id
      and otherwise says whether that user's vote row exists. */
  lemma ListedRowsMatch(s: Snapshot, q: Query, userId: Option<nat>)
    requires SnapshotValid(s)
    ensures forall it :: it in ListFeedbacks(s, q, userId).posts ==>
              && it.post.id in s.posts && s.posts[it.post.id] == it.post
              && Matches(FilterOf(q), it.post)
              && it.votes == VoteCount(s.votes, it.post.id)
              && (it.hasVoted <==> IdPresent(userId) && Vote(userId.value, it.post.id) in s.votes)
  {
    var all, page := Ordered(s, q, userId), ListFeedbacks(s, q, userId).posts;
    forall it | it in page
      ensures && it.post.id in s.posts && s.posts[it.post.id] == it.post
              && Matches(FilterOf(q), it.post)
              && it == Decorate(s.votes, userId, it.post)
    {
      var i :| 0 <= i < |page| && page[i] == it;
      assert it == all[SkipOf(q) + i];
      OrderedHoldsOnlyMatches(s, q, userId, it);
    }
  }

  /** With `sortBy == "votes"` the vote counts do not increase along the page;
      otherwise the creation times do not. */
  lemma ListingOrdered(s: Snapshot, q: Query, userId: Option<nat>, i: nat, j: nat)
    requires i <= j < |ListFeedbacks(s, q, userId).posts|
    ensures var page := ListFeedbacks(s, q, userId).posts;
            if SortByOf(q) == "votes" then page[i].votes >= page[j].votes
            else page[i].post.createdAt >= page[j].post.createdAt
  {
    var all := Ordered(s, q, userId);
    SortedPairwise(all, SortByOf(q) == "votes", SkipOf(q) + i, SkipOf(q) + j);
  }

  /** Row `k` of the full ordering is row `i` of page `page` whenever
      `k == (page - 1) * limit + i` with `i < limit`; every `k` has such a
      page and offset, namely `k / limit + 1` and `k % limit`. */
  lemma EveryRowOnItsPage(s: Snapshot, q: Query, userId: Option<nat>, k: nat, page: Pos, i: nat)
    requires k < |Ordered(s, q, userId)|
    requires i < LimitOf(q) && k == (page - 1) * LimitOf(q) + i
    ensures i < |ListFeedbacks(s, q.(page := Some(page)), userId).posts|
    ensures ListFeedbacks(s, q.(page := Some(page)), userId).posts[i] == Ordered(s, q, userId)[k]
  {
    var q' := q.(page := Some(page));
    var all := Ordered(s, q, userId);
    assert Ordered(s, q', userId) == all;
    assert SkipOf(q') + i == k;
    assert ListFeedbacks(s, q', userId).posts == Window(all, SkipOf(q'), LimitOf(q));
    WindowAt(all, SkipOf(q'), LimitOf(q), i);
  }

  lemma WindowAt(all: seq<Item>, skip: nat, take: nat, i: nat)
    requires i < take && skip + i < |all|
    ensures i < |Window(all, skip, take)| && Window(all, skip, take)[i] == all[skip + i]
  {
  }

  /** A page past the last one is empty. */
  lemma PastLastPageEmpty(s: Snapshot, q: Query, userId: Option<nat>)
    requires PageOf(q) > ListFeedbacks(s, q, userId).pagination.pages
    ensures ListFeedbacks(s, q, userId).posts == []
  {
    var r := ListFeedbacks(s, q, userId);
    var p := r.pagination.pages;
    assert PageOf(q) - 1 >= p;
    MulMono(p, PageOf(q) - 1, LimitOf(q));
  }

  /** Fifteen matching posts with the default limit: two pages, of ten and five rows. */
  lemma FifteenPostsTwoPages(s: Snapshot, q: Query, userId: Option<nat>)
    requires q.limit.None? && |Ordered(s, q, userId)| == 15
    ensures ListFeedbacks(s, q.(page := None), userId).pagination == Pagination(15, 2, 1)
    ensures |ListFeedbacks(s, q.(page := None), userId).posts| == 10
    ensures |ListFeedbacks(s, q.(page := Some(2)), userId).posts| == 5
  {
    assert Ordered(s, q.(page := None), userId) == Ordered(s, q, userId);
    assert Ordered(s, q.(page := Some(2)), userId) == Ordered(s, q, userId);
  }
}
