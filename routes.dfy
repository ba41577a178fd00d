/** The feedback router: which handlers run behind `authenticateToken`. The
    listing is mounted without it, so the listing handler never sees a user;
    the corrected mounting decodes the bearer token when one verifies and
    lists anonymously otherwise. */
module FeedbackRoutes {
  import opened Common
  import opened Store
  import opened AuthMiddleware
  import opened FeedbackController
  import opened VoteController

  /** `GET /` as mounted: the request's `Authorization` header is never
      read, so no listed row says the caller voted. */
  function ListAsMounted(s: Snapshot, q: Query, header: Option<string>, verify: Verifier): (r: Listing)
    ensures forall it :: it in r.posts ==> !it.hasVoted
  {
    AnonymousRowsUnvoted(s, q);
    ListFeedbacks(s, q, None)
  }

  /** Without a user every row of the listing has `hasVoted` false. */
  lemma AnonymousRowsUnvoted(s: Snapshot, q: Query)
    ensures forall it :: it in ListFeedbacks(s, q, None).posts ==> !it.hasVoted
  {
    var c := Candidates(s, FilterOf(q), None, s.nextPostId);
    CandidatesUnvoted(s, FilterOf(q), s.nextPostId);
    var all := Ordered(s, q, None);
    forall it | it in all ensures !it.hasVoted {
      assert it in multiset(all);
      assert it in multiset(c);
    }
    var r := ListFeedbacks(s, q, None);
    forall it | it in r.posts ensures !it.hasVoted {
      var i :| 0 <= i < |r.posts| && r.posts[i] == it;
      assert it == all[SkipOf(q) + i];
    }
  }

  lemma {:induction false} CandidatesUnvoted(s: Snapshot, f: Filter, bound: nat)
    ensures forall it :: it in Candidates(s, f, None, bound) ==> !it.hasVoted
  {
    if bound > 0 {
      CandidatesUnvoted(s, f, bound - 1);
    }
  }

  /** As mounted, no listed row ever says the caller voted, even for a caller
      with a valid token who did vote. */
  lemma MountedListNeverShowsVote(s: Snapshot, q: Query, header: Option<string>, verify: Verifier)
    requires SnapshotValid(s)
    ensures forall it :: it in ListAsMounted(s, q, header, verify).posts ==> !it.hasVoted
  {
  }

  /** Whatever the header, the mounted listing is the anonymous one. */
  lemma MountedListIsAnonymous(s: Snapshot, q: Query, header: Option<string>, verify: Verifier)
    ensures ListAsMounted(s, q, header, verify) == ListFeedbacks(s, q, None)
  {
  }

  /** The caller's id when the header carries a token that verifies, and no
      user otherwise. */
  function OptionalUser(header: Option<string>, verify: Verifier): (u: Option<nat>)
    ensures Authenticate(header, verify).Deny? ==> u == None
    ensures Authenticate(header, verify).Proceed? ==> u == Some(Authenticate(header, verify).user.userId)
  {
    var d := Authenticate(header, verify);
    if d.Proceed? then Some(d.user.userId) else None
  }

  /** `GET /` behind an optional variant of the middleware. */
  function ListWithOptionalAuth(s: Snapshot, q: Query, header: Option<string>, verify: Verifier): (r: Listing)
    ensures Authenticate(header, verify).Deny? ==> r == ListFeedbacks(s, q, None)
    ensures Authenticate(header, verify).Proceed? ==>
              r == ListFeedbacks(s, q, Some(Authenticate(header, verify).user.userId))
  {
    ListFeedbacks(s, q, OptionalUser(header, verify))
  }

  /** With the optional middleware, an authenticated caller sees, on every
      row, exactly whether their own vote for that post is stored; an
      unauthenticated caller gets the anonymous listing. */
  lemma OptionalAuthShowsOwnVotes(s: Snapshot, q: Query, header: Option<string>, verify: Verifier)
    requires SnapshotValid(s)
    requires Authenticate(header, verify).Proceed? && Authenticate(header, verify).user.userId != 0
    ensures var uid := Authenticate(header, verify).user.userId;
            forall it :: it in ListWithOptionalAuth(s, q, header, verify).posts ==>
              (it.hasVoted <==> Vote(uid, it.post.id) in s.votes)
  {
    ListedRowsMatch(s, q, OptionalUser(header, verify));
  }

  lemma OptionalAuthAnonymous(s: Snapshot, q: Query, header: Option<string>, verify: Verifier)
    requires Authenticate(header, verify).Deny?
    ensures ListWithOptionalAuth(s, q, header, verify) == ListAsMounted(s, q, header, verify)
  {
  }

  /** `POST /:postId/vote`: the middleware, then the toggle with the decoded
      user. */
  function VoteRoute(s: Snapshot, header: Option<string>, verify: Verifier, postId: nat): (r: (set<Vote>, Reply<string>))
    ensures Authenticate(header, verify).Deny? ==>
              r == (s.votes, Failure(Authenticate(header, verify).status, Authenticate(header, verify).error, None))
    ensures Authenticate(header, verify).Proceed? ==>
              r == VoteStep(s, Some(Authenticate(header, verify).user), postId)
  {
    match Authenticate(header, verify)
    case Deny(status, error) => (s.votes, Failure(status, error, None))
    case Proceed(user) => VoteStep(s, Some(user), postId)
  }

  /** A vote request whose header has no token or a token that fails to
      verify leaves the vote set as it was and never reaches the handler's
      replies. */
  lemma UnauthenticatedVoteChangesNothing(s: Snapshot, header: Option<string>, verify: Verifier, postId: nat)
    requires Authenticate(header, verify).Deny?
    ensures VoteRoute(s, header, verify, postId).0 == s.votes
    ensures VoteRoute(s, header, verify, postId).1.Failure?
    ensures VoteRoute(s, header, verify, postId).1.status in {401, 403}
  {
  }

  /** `POST /`: the middleware, then the create handler with the decoded
      user. A request that reaches the handler always carries a user, so the
      handler's missing-user 500 is reached only for a token whose user has
      no row. */
  method CreateRoute(db: Db, header: Option<string>, verify: Verifier, body: FeedbackInput, now: int)
    returns (reply: Reply<PostView>)
    requires db.Valid()
    modifies db
    ensures db.Valid()
    ensures Authenticate(header, verify).Deny? ==>
              && reply == Failure(Authenticate(header, verify).status, Authenticate(header, verify).error, None)
              && db.Tables() == old(db.Tables())
    ensures Authenticate(header, verify).Proceed? ==>
              var uid := Authenticate(header, verify).user.userId;
              && (reply.Success? <==>
                    && AllFieldsPresent(body)
                    && body.categoryId.value in old(db.categories.rows)
                    && body.statusId.value in old(db.statuses.rows)
                    && uid in old(db.users))
              && (reply.Success? ==>
                    var id := old(db.nextPostId);
                    && db.posts == old(db.posts)[id := Post(id, body.title.value, body.description.value, uid,
                                                           body.categoryId.value, body.statusId.value, now)]
                    && db.Tables() == old(db.Tables()).(posts := db.posts, nextPostId := id + 1)
                    && reply == Success(201, PostView(db.posts[id], 0)))
    ensures reply.Failure? ==> db.Tables() == old(db.Tables())
  {
    match Authenticate(header, verify)
    case Deny(status, error) =>
      reply := Failure(status, error, None);
    case Proceed(user) =>
      reply := CreateFeedback(db, Some(user), body, now);
  }

  /** `PUT /:id`: the middleware, then the update handler with the decoded
      user. For a token with a non-zero user id the handler's own 401 is
      never sent. */
  method UpdateRoute(db: Db, header: Option<string>, verify: Verifier, id: nat, body: FeedbackInput)
    returns (reply: Reply<PostView>)
    requires db.Valid()
    modifies db
    ensures db.Valid()
    ensures Authenticate(header, verify).Deny? ==>
              && reply == Failure(Authenticate(header, verify).status, Authenticate(header, verify).error, None)
              && db.Tables() == old(db.Tables())
    ensures Authenticate(header, verify).Proceed? && Authenticate(header, verify).user.userId != 0 ==>
              var uid := Authenticate(header, verify).user.userId;
              && reply != Failure(401, Unauthorized, None)
              && (reply.Success? <==>
                    id in old(db.posts) && old(db.posts)[id].authorId == uid && KeysResolve(old(db.Tables()), body))
    ensures reply.Success? ==>
              && id in old(db.posts) && KeysResolve(old(db.Tables()), body)
              && db.posts == old(db.posts)[id := Rewritten(old(db.posts)[id], body)]
              && db.Tables() == old(db.Tables()).(posts := db.posts)
              && reply == Success(200, PostView(db.posts[id], VoteCount(db.votes, id)))
    ensures reply.Failure? ==> db.Tables() == old(db.Tables())
  {
    match Authenticate(header, verify)
    case Deny(status, error) =>
      reply := Failure(status, error, None);
    case Proceed(user) =>
      reply := UpdateFeedback(db, Some(user), id, body);
  }

  /** `DELETE /:id`: the middleware, then the delete handler with the
      decoded user. For a token with a non-zero user id the handler's own 401
      is never sent, and only the author removes the post. */
  method DeleteRoute(db: Db, header: Option<string>, verify: Verifier, id: nat) returns (reply: Reply<()>)
    requires db.Valid()
    modifies db
    ensures db.Valid()
    ensures Authenticate(header, verify).Deny? ==>
              && reply == Failure(Authenticate(header, verify).status, Authenticate(header, verify).error, None)
              && db.Tables() == old(db.Tables())
    ensures Authenticate(header, verify).Proceed? && Authenticate(header, verify).user.userId != 0 ==>
              var uid := Authenticate(header, verify).user.userId;
              && reply != Failure(401, Unauthorized, None)
              && (reply.Success? <==> id in old(db.posts) && old(db.posts)[id].authorId == uid)
    ensures reply.Success? ==>
              && reply == Success(204, ())
              && db.posts == old(db.posts) - {id}
              && db.votes == (set v | v in old(db.votes) && v.postId != id)
              && db.Tables() == old(db.Tables()).(posts := db.posts, votes := db.votes)
    ensures reply.Failure? ==> db.Tables() == old(db.Tables())
  {
    match Authenticate(header, verify)
    case Deny(status, error) =>
      reply := Failure(status, error, None);
    case Proceed(user) =>
      reply := DeleteFeedback(db, Some(user), id);
  }
}
