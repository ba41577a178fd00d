/** `authenticateToken`: takes field 1 of the `Authorization` header split
    on single spaces, verifies it, and either attaches the decoded claims to
    the request and passes control on, or answers 401/403. */
module AuthMiddleware {
  import opened Common

  const AuthenticationRequired := "Authentication required"
  const InvalidToken := "Invalid token"

  /** `jwt.verify(token, secret)`: the decoded payload, or `None` where the
      library throws (bad signature, expired, malformed). */
  type Verifier = string -> Option<Claims>

  /** `s.split(' ')`: the pieces between single spaces, empty ones included. */
  function Split(s: string): (r: seq<string>)
    ensures |r| >= 1
    ensures forall i :: 0 <= i < |r| ==> ' ' !in r[i]
  {
    if s == [] then [""]
    else
      var rest := Split(s[1..]);
      if s[0] == ' ' then [""] + rest
      else [[s[0]] + rest[0]] + rest[1..]
  }

  /** The inverse of `Split`: the pieces joined with single spaces. */
  function Join(parts: seq<string>): string
    requires |parts| >= 1
  {
    if |parts| == 1 then parts[0] else parts[0] + " " + Join(parts[1..])
  }

  lemma {:induction false} JoinSplit(s: string)
    ensures Join(Split(s)) == s
  {
    if s != [] {
      JoinSplit(s[1..]);
      var rest := Split(s[1..]);
      if s[0] == ' ' {
        assert ([""] + rest)[1..] == rest;
      } else {
        var r := [[s[0]] + rest[0]] + rest[1..];
        assert r[1..] == rest[1..];
        if |rest| > 1 {
          assert Join(rest) == rest[0] + " " + Join(rest[1..]);
        }
      }
    }
  }

  /** A word without spaces followed by a space splits off as the first piece. */
  lemma {:induction false} SplitAfterWord(word: string, rest: string)
    requires ' ' !in word
    ensures Split(word + " " + rest) == [word] + Split(rest)
  {
    if word == [] {
      assert word + " " + rest == [' '] + rest;
      assert ([' '] + rest)[1..] == rest;
    } else {
      var s := word + " " + rest;
      assert s[0] == word[0] && s[1..] == word[1..] + " " + rest;
      SplitAfterWord(word[1..], rest);
      assert [word[0]] + word[1..] == word;
    }
  }

  /** `authHeader && authHeader.split(' ')[1]`, kept only when truthy. */
  function ExtractToken(header: Option<string>): (t: Option<string>)
    ensures header.None? ==> t.None?
    ensures t.Some? ==> t.value != "" && ' ' !in t.value
    ensures t.Some? ==> header.Some? && |Split(header.value)| > 1 && Split(header.value)[1] == t.value
    ensures header.Some? && |Split(header.value)| > 1 && Split(header.value)[1] != "" ==> t.Some?
  {
    if header.None? then None
    else
      var parts := Split(header.value);
      if |parts| > 1 && parts[1] != "" then Some(parts[1]) else None
  }

  /** What the middleware does with a request. */
  datatype Decision = Proceed(user: Claims) | Deny(status: nat, error: string)

  function Authenticate(header: Option<string>, verify: Verifier): (d: Decision)
    ensures d.Deny? ==> d.status in {401, 403}
    ensures d.Deny? && d.status == 401 <==> ExtractToken(header).None?
    ensures d.Deny? && d.status == 401 ==> d.error == AuthenticationRequired
    ensures d.Deny? && d.status == 403 <==>
              ExtractToken(header).Some? && verify(ExtractToken(header).value).None?
    ensures d.Deny? && d.status == 403 ==> d.error == InvalidToken
    ensures d.Proceed? ==> ExtractToken(header).Some? && verify(ExtractToken(header).value) == Some(d.user)
  {
    var token := ExtractToken(header);
    if token.None? then Deny(401, AuthenticationRequired)
    else
      var decoded := verify(token.value);
      if decoded.None? then Deny(403, InvalidToken) else Proceed(decoded.value)
  }

  /** `Scheme token` yields `token` whatever the scheme word is. */
  lemma SchemeNotChecked(scheme: string, token: string)
    requires ' ' !in scheme && ' ' !in token && token != ""
    ensures ExtractToken(Some(scheme + " " + token)) == Some(token)
  {
    SplitAfterWord(scheme, token);
    NoSpaceSplit(token);
  }

  /** A header without a space has no field 1. */
  lemma NoSpaceNoToken(header: string)
    requires ' ' !in header
    ensures ExtractToken(Some(header)) == None
  {
    NoSpaceSplit(header);
  }

  lemma {:induction false} NoSpaceSplit(s: string)
    requires ' ' !in s
    ensures Split(s) == [s]
  {
    if s != [] {
      NoSpaceSplit(s[1..]);
      assert [s[0]] + s[1..] == s;
    }
  }

  /** Two spaces after the scheme make field 1 empty, as in `"Bearer  x"`. */
  lemma DoubleSpaceNoToken(scheme: string, rest: string)
    requires ' ' !in scheme
    ensures ExtractToken(Some(scheme + "  " + rest)) == None
  {
    assert scheme + "  " + rest == scheme + " " + (" " + rest);
    SplitAfterWord(scheme, " " + rest);
    SplitAfterWord("", rest);
    assert "" + " " + rest == " " + rest;
  }

  /** The request and response as the middleware sees them: `req.user`, the
      response status and error once one is sent, and how often `next` ran. */
  class Exchange {
    var user: Option<Claims>
    var status: Option<nat>
    var error: Option<string>
    var nextCalls: nat

    constructor ()
      ensures user == None && status == None && error == None && nextCalls == 0
    {
      user, status, error, nextCalls := None, None, None, 0;
    }
  }

  method AuthenticateToken(ex: Exchange, header: Option<string>, verify: Verifier)
    modifies ex
    ensures Authenticate(header, verify).Proceed? ==>
              && ex.user == Some(Authenticate(header, verify).user)
              && ex.nextCalls == old(ex.nextCalls) + 1
              && ex.status == old(ex.status) && ex.error == old(ex.error)
    ensures Authenticate(header, verify).Deny? ==>
              && ex.status == Some(Authenticate(header, verify).status)
              && ex.error == Some(Authenticate(header, verify).error)
              && ex.nextCalls == old(ex.nextCalls) && ex.user == old(ex.user)
  {
    var token := ExtractToken(header);
    if token.None? {
      ex.status, ex.error := Some(401), Some(AuthenticationRequired);
      return;
    }
    var decoded := verify(token.value);
    if decoded.None? {
      ex.status, ex.error := Some(403), Some(InvalidToken);
      return;
    }
    ex.user := decoded;
    ex.nextCalls := ex.nextCalls + 1;
  }
}
