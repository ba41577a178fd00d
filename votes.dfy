/** `toggleVote`: removes the caller's vote on a post when it exists and
    inserts it otherwise. */
module VoteController {
  import opened Common
  import opened Store

  const VoteRemoved := "Голос снят"
  const VoteCounted := "Голос учтен"
  const VoteFailed := "Ошибка при голосовании"

  /** The vote set after flipping the membership of `v`. */
  function Toggled(votes: set<Vote>, v: Vote): (r: set<Vote>)
    ensures v in r <==> v !in votes
    ensures forall w :: w != v ==> (w in r <==> w in votes)
  {
    if v in votes then votes - {v} else votes + {v}
  }

  /** The vote table and the reply after one call of `toggleVote` by `user`
      on `postId`. A request without a user, or an insert whose user or post
      row does not exist (a foreign-key violation), is a store failure. */
  function VoteStep(s: Snapshot, user: Option<Claims>, postId: nat): (r: (set<Vote>, Reply<string>))
    ensures r.1.Failure? ==> r == (s.votes, Failure(500, VoteFailed, None))
    ensures r.1.Success? ==> user.Some? && r.0 == Toggled(s.votes, Vote(user.value.userId, postId))
    ensures r.1 == Success(200, VoteRemoved) <==> user.Some? && Vote(user.value.userId, postId) in s.votes
    ensures r.1 == Success(200, VoteCounted) <==>
              && user.Some? && Vote(user.value.userId, postId) !in s.votes
              && user.value.userId in s.users && postId in s.posts
    ensures r.1.Success? ==> r.1 in {Success(200, VoteRemoved), Success(200, VoteCounted)}
  {
    if user.None? then (s.votes, Failure(500, VoteFailed, None))
    else
      var v := Vote(user.value.userId, postId);
      if v in s.votes then (s.votes - {v}, Success(200, VoteRemoved))
      else if v.userId in s.users && postId in s.posts then (s.votes + {v}, Success(200, VoteCounted))
      else (s.votes, Failure(500, VoteFailed, None))
  }

  /** The handler. The lookup of the pair precedes the insert, so the insert
      never duplicates a row; on success every other pair is untouched. */
  method ToggleVote(db: Db, user: Option<Claims>, postId: nat) returns (reply: Reply<string>)
    requires db.Valid()
    modifies db
    ensures db.Valid()
    ensures (db.votes, reply) == VoteStep(old(db.Tables()), user, postId)
    ensures db.Tables() == old(db.Tables()).(votes := db.votes)
  {
    if user.None? {
      reply := Failure(500, VoteFailed, None);
      return;
    }
    var v := Vote(user.value.userId, postId);
    var existing := v in db.votes;
    if existing {
      db.votes := db.votes - {v};
      reply := Success(200, VoteRemoved);
    } else if v.userId in db.users && postId in db.posts {
      db.votes := db.votes + {v};
      reply := Success(200, VoteCounted);
    } else {
      reply := Failure(500, VoteFailed, None);
    }
  }

  /** Toggling the same pair twice gives back the original vote set. */
  lemma ToggleInvolution(votes: set<Vote>, v: Vote)
    ensures Toggled(Toggled(votes, v), v) == votes
  {
  }

  /** Two successive successful calls for one user and post restore the vote
      table, and the second call succeeds whenever the first did. */
  lemma ToggleTwiceRestores(s: Snapshot, user: Option<Claims>, postId: nat)
    requires VotesValid(s)
    requires VoteStep(s, user, postId).1.Success?
    ensures var s1 := s.(votes := VoteStep(s, user, postId).0);
            VoteStep(s1, user, postId).1.Success? && VoteStep(s1, user, postId).0 == s.votes
  {
  }

  /** Removing or inserting the vote `v` changes the vote count of its post
      by exactly one and the count of every other post not at all. */
  lemma {:induction false} ToggleChangesCountByOne(votes: set<Vote>, v: Vote, postId: nat)
    ensures postId == v.postId && v in votes ==>
              VoteCount(Toggled(votes, v), postId) == VoteCount(votes, postId) - 1
    ensures postId == v.postId && v !in votes ==>
              VoteCount(Toggled(votes, v), postId) == VoteCount(votes, postId) + 1
    ensures postId != v.postId ==> VoteCount(Toggled(votes, v), postId) == VoteCount(votes, postId)
  {
    var before, after := VotesOn(votes, postId), VotesOn(Toggled(votes, v), postId);
    if postId != v.postId {
      assert after == before;
    } else if v in votes {
      assert after == before - {v};
    } else {
      assert after == before + {v};
    }
  }
}
