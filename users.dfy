/** `register`, `login` and `getProfile`. Password hashing, hash comparison
    and token signing are calls into libraries the model cannot see, so each
    handler receives them as function parameters. */
module UserController {
  import opened Common
  import opened Store

  const EmailAlreadyRegistered := "Email уже зарегистрирован"
  const BadCredentials := "Неверный email или пароль"
  const UserNotFound := "Пользователь не найден"
  const ProfileFailed := "Ошибка при получении профиля"

  /** The bcrypt cost factor and the token lifetime passed to the libraries. */
  const HashRounds := 10
  const TokenLifetime := "24h"

  /** `bcrypt.hash(password, rounds)`. */
  type Hasher = (string, nat) -> string
  /** `bcrypt.compare(password, hash)`. */
  type Comparer = (string, string) -> bool
  /** `jwt.sign(payload, secret, { expiresIn })`, with the secret bound in. */
  type Signer = (Claims, string) -> string

  /** The body of a successful register or login. */
  datatype Session = Session(user: PublicUser, token: string)

  ghost predicate EmailTaken(users: map<nat, User>, email: string)
  {
    exists id :: id in users && users[id].email == email
  }

  /** The row with the given email; there is only one, the column being unique. */
  ghost function UserWithEmail(users: map<nat, User>, email: string): (u: User)
    requires EmailTaken(users, email)
    ensures u in users.Values && u.email == email
  {
    var id :| id in users && users[id].email == email;
    users[id]
  }

  /** The token issued for a user: signed over exactly its id and email. */
  function TokenFor(sign: Signer, u: User): string
  {
    sign(Claims(u.id, u.email), TokenLifetime)
  }

  method Register(db: Db, email: string, password: string, avatar: Option<string>, now: int,
                  hash: Hasher, sign: Signer)
    returns (reply: Reply<Session>)
    requires db.Valid()
    modifies db
    ensures db.Valid()
    ensures reply.Failure? <==> EmailTaken(old(db.users), email)
    ensures reply.Failure? ==> reply == Failure(400, EmailAlreadyRegistered, None)
                               && db.Tables() == old(db.Tables())
    ensures reply.Success? ==>
              var id := old(db.nextUserId);
              var u := User(id, email, hash(password, HashRounds), avatar, now, now);
              && id !in old(db.users)
              && db.users == old(db.users)[id := u]
              && db.Tables() == old(db.Tables()).(users := db.users, nextUserId := id + 1)
              && reply == Success(201, Session(Public(u), TokenFor(sign, u)))
  {
    var existing := exists id | id in db.users :: db.users[id].email == email;
    if existing {
      reply := Failure(400, EmailAlreadyRegistered, None);
      return;
    }
    var hashed := hash(password, HashRounds);
    var id := db.nextUserId;
    var user := User(id, email, hashed, avatar, now, now);
    db.users := db.users[id := user];
    db.nextUserId := id + 1;
    var token := sign(Claims(user.id, user.email), TokenLifetime);
    reply := Success(201, Session(Public(user), token));
  }

  /** Reads the store only. Both kinds of failure give the same reply. */
  method Login(db: Db, email: string, password: string, compare: Comparer, sign: Signer)
    returns (reply: Reply<Session>)
    requires db.Valid()
    ensures !EmailTaken(db.users, email) ==> reply == Failure(401, BadCredentials, None)
    ensures EmailTaken(db.users, email) ==>
              var u := UserWithEmail(db.users, email);
              if compare(password, u.password)
              then reply == Success(200, Session(Public(u), TokenFor(sign, u)))
              else reply == Failure(401, BadCredentials, None)
  {
    var found := exists id | id in db.users :: db.users[id].email == email;
    if !found {
      reply := Failure(401, BadCredentials, None);
      return;
    }
    var id :| id in db.users && db.users[id].email == email;
    var user := db.users[id];
    assert user == UserWithEmail(db.users, email);
    var validPassword := compare(password, user.password);
    if !validPassword {
      reply := Failure(401, BadCredentials, None);
      return;
    }
    var token := sign(Claims(user.id, user.email), TokenLifetime);
    reply := Success(200, Session(Public(user), token));
  }

  /** Reads the store only. A request without a user is a store failure
      (the lookup has no key). */
  method GetProfile(db: Db, user: Option<Claims>) returns (reply: Reply<PublicUser>)
    ensures user.None? ==> reply == Failure(500, ProfileFailed, None)
    ensures user.Some? && user.value.userId !in db.users ==> reply == Failure(404, UserNotFound, None)
    ensures user.Some? && user.value.userId in db.users ==>
              reply == Success(200, Public(db.users[user.value.userId]))
  {
    if user.None? {
      reply := Failure(500, ProfileFailed, None);
      return;
    }
    var id := user.value.userId;
    if id !in db.users {
      reply := Failure(404, UserNotFound, None);
      return;
    }
    reply := Success(200, Public(db.users[id]));
  }

  /** A user stored by a successful registration can log in with the same
      password, given that `compare` accepts every password against its own
      hash; the login returns that user. */
  lemma RegisteredUserCanLogIn(users: map<nat, User>, u: User, password: string,
                               hash: Hasher, compare: Comparer)
    requires EmailsUnique(users)
    requires u.id in users && users[u.id] == u && u.password == hash(password, HashRounds)
    requires forall p :: compare(p, hash(p, HashRounds))
    ensures EmailTaken(users, u.email)
    ensures UserWithEmail(users, u.email) == u
    ensures compare(password, UserWithEmail(users, u.email).password)
  {
    assert users[u.id].email == u.email;
    var w := UserWithEmail(users, u.email);
    var k :| k in users && users[k] == w;
  }

  /** After a successful registration the email is taken. */
  lemma SecondRegistrationFails(users: map<nat, User>, id: nat, u: User)
    requires u.id == id
    ensures EmailTaken(users[id := u], u.email)
  {
    assert users[id := u][id].email == u.email;
  }

  /** Two registrations with the same email: once the first succeeds, the
      second is rejected with 400 and the users table stays as the first
      left it; when the first fails, so does the second. */
  method RegisterTwice(db: Db, email: string, password1: string, password2: string,
                       avatar: Option<string>, now: int, hash: Hasher, sign: Signer)
    returns (r1: Reply<Session>, r2: Reply<Session>)
    requires db.Valid()
    modifies db
    ensures db.Valid()
    ensures r1.Success? ==>
              && r2 == Failure(400, EmailAlreadyRegistered, None)
              && db.users == old(db.users)[old(db.nextUserId) :=
                   User(old(db.nextUserId), email, hash(password1, HashRounds), avatar, now, now)]
              && db.Tables() == old(db.Tables()).(users := db.users, nextUserId := old(db.nextUserId) + 1)
    ensures r1.Failure? ==> r2 == r1 && db.Tables() == old(db.Tables())
  {
    r1 := Register(db, email, password1, avatar, now, hash, sign);
    if r1.Success? {
      SecondRegistrationFails(old(db.users), old(db.nextUserId),
                              User(old(db.nextUserId), email, hash(password1, HashRounds), avatar, now, now));
    }
    r2 := Register(db, email, password2, avatar, now, hash, sign);
  }
}
