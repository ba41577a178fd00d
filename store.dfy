/** The relational store behind the handlers, written as in-memory tables:
    users keyed by id with a unique email, the category and status lookup
    tables with a unique name, posts keyed by id, and the set of
    `(userId, postId)` vote rows. Ids are autoincrement counters that start
    at 1. */
module Store {
  import opened Common

  datatype User = User(id: nat, email: string, password: string, avatar: Option<string>,
                       createdAt: int, updatedAt: int)

  /** A user row with the password column stripped, as every handler returns it. */
  datatype PublicUser = PublicUser(id: nat, email: string, avatar: Option<string>,
                                   createdAt: int, updatedAt: int)

  function Public(u: User): PublicUser
  {
    PublicUser(u.id, u.email, u.avatar, u.createdAt, u.updatedAt)
  }

  datatype Post = Post(id: nat, title: string, description: string, authorId: nat,
                       categoryId: nat, statusId: nat, createdAt: int)

  /** A vote row; the pair is the table's unique key, so a set holds the table. */
  datatype Vote = Vote(userId: nat, postId: nat)

  /** A lookup table (categories or statuses): rows by id, a unique `name`
      column, and the next autoincrement id. */
  datatype NameTable = NameTable(rows: map<nat, string>, next: nat)

  /** All tables at one moment. */
  datatype Snapshot = Snapshot(users: map<nat, User>, nextUserId: nat,
                               categories: NameTable, statuses: NameTable,
                               posts: map<nat, Post>, nextPostId: nat,
                               votes: set<Vote>)

  /** The rows of `votes` that are votes for `postId`. */
  function VotesOn(votes: set<Vote>, postId: nat): set<Vote>
  {
    set v | v in votes && v.postId == postId
  }

  /** `_count.votes` of a post. */
  function VoteCount(votes: set<Vote>, postId: nat): nat
  {
    |VotesOn(votes, postId)|
  }

  ghost predicate EmailsUnique(users: map<nat, User>)
  {
    forall a, b :: a in users && b in users && users[a].email == users[b].email ==> a == b
  }

  ghost predicate UsersValid(users: map<nat, User>, next: nat)
  {
    && next >= 1
    && (forall id :: id in users ==> users[id].id == id && 0 < id < next)
    && EmailsUnique(users)
  }

  ghost predicate NamesUnique(rows: map<nat, string>)
  {
    forall a, b :: a in rows && b in rows && rows[a] == rows[b] ==> a == b
  }

  ghost predicate TableValid(t: NameTable)
  {
    && t.next >= 1
    && (forall id :: id in t.rows ==> 0 < id < t.next)
    && NamesUnique(t.rows)
  }

  /** Every post has its own id as key, an id below the counter, and foreign
      keys that resolve. */
  ghost predicate PostsValid(s: Snapshot)
  {
    && s.nextPostId >= 1
    && forall id :: id in s.posts ==>
         && s.posts[id].id == id
         && 0 < id < s.nextPostId
         && s.posts[id].authorId in s.users
         && s.posts[id].categoryId in s.categories.rows
         && s.posts[id].statusId in s.statuses.rows
  }

  ghost predicate VotesValid(s: Snapshot)
  {
    forall v :: v in s.votes ==> v.userId in s.users && v.postId in s.posts
  }

  /** The store's integrity constraints: primary keys, unique columns and
      foreign keys. */
  ghost predicate SnapshotValid(s: Snapshot)
  {
    && UsersValid(s.users, s.nextUserId)
    && TableValid(s.categories)
    && TableValid(s.statuses)
    && PostsValid(s)
    && VotesValid(s)
  }

  class Db {
    var users: map<nat, User>
    var nextUserId: nat
    var categories: NameTable
    var statuses: NameTable
    var posts: map<nat, Post>
    var nextPostId: nat
    var votes: set<Vote>

    function Tables(): Snapshot
      reads this
    {
      Snapshot(users, nextUserId, categories, statuses, posts, nextPostId, votes)
    }

    ghost predicate Valid()
      reads this
    {
      SnapshotValid(Tables())
    }

    /** A freshly migrated, empty database. */
    constructor ()
      ensures Valid()
      ensures users == map[] && posts == map[] && votes == {}
      ensures categories == NameTable(map[], 1) && statuses == NameTable(map[], 1)
      ensures nextUserId == 1 && nextPostId == 1
    {
      users, nextUserId := map[], 1;
      categories, statuses := NameTable(map[], 1), NameTable(map[], 1);
      posts, nextPostId := map[], 1;
      votes := {};
    }
  }
}
