/**
 * The bearer-token guard, src/common/guards/jwt-auth.guard.ts. The token is
 * taken from the Authorization header as in section 2.1 of RFC 6750, except
 * that the scheme name is compared case-sensitively. Signature and expiry
 * checking is the `verify` parameter; the guard never looks at refresh
 * sessions.
 */
module JwtGuard {
  import opened Wrappers
  import opened Strings
  import opened Users

  /** The decoded payload; only `sub` is read. */
  datatype Payload = Payload(sub: Option<string>)

  const TokenRequiredMessage: string := "Authorization token required"
  const BadTokenMessage: string := "Invalid or expired token"

  /** `extractTokenFromHeader`: the second space-separated part when the first is exactly 'Bearer'. */
  function ExtractToken(authorization: Option<string>): (token: Option<string>)
    ensures token.Some? <==>
      authorization.Some? && |Split(authorization.value, ' ')| >= 2 && Split(authorization.value, ' ')[0] == "Bearer"
    ensures token.Some? ==> token.value == Split(authorization.value, ' ')[1] && ' ' !in token.value
  {
    if authorization.None? then None
    else
      var parts := Split(authorization.value, ' ');
      if parts[0] == "Bearer" && |parts| >= 2 then Some(parts[1]) else None
  }

  /** A header built as 'Bearer <token>' gives back the token, whatever follows a further space. */
  lemma BearerRoundTrip(token: string, rest: string)
    requires ' ' !in token
    ensures ExtractToken(Some("Bearer " + token)) == Some(token)
    ensures ExtractToken(Some("Bearer " + token + " " + rest)) == Some(token)
  {
    assert "Bearer " + token == "Bearer" + [' '] + token;
    SplitAt("Bearer", token, ' ');
    SplitWithout(token, ' ');
    assert "Bearer " + token + " " + rest == "Bearer" + [' '] + (token + [' '] + rest);
    SplitAt("Bearer", token + [' '] + rest, ' ');
    SplitAt(token, rest, ' ');
  }

  /** The scheme is compared case-sensitively: 'bearer <token>' is not accepted. */
  lemma LowerCaseSchemeRejected(token: string)
    ensures ExtractToken(Some("bearer " + token)) == None
  {
    assert "bearer " + token == "bearer" + [' '] + token;
    SplitAt("bearer", token, ' ');
  }

  /**
   * The rejection chain of `canActivate`, in order: no token, a token that
   * does not verify, a payload without `sub`, an unknown user, a deleted user.
   */
  function Admit(authorization: Option<string>, verify: string -> Option<Payload>, rows: seq<User>): (r: Result<User>)
    ensures r.Err? ==> r.error.status == Unauthorized
    ensures (var t := ExtractToken(authorization); t.None? || t.value == "") ==> r == Fail(Unauthorized, TokenRequiredMessage)
    ensures r.Ok? <==>
      var t := ExtractToken(authorization);
      t.Some? && t.value != "" && verify(t.value).Some? && Present(verify(t.value).value.sub)
      && FindFirst(rows, ById(verify(t.value).value.sub.value)).Some?
      && !FindFirst(rows, ById(verify(t.value).value.sub.value)).value.isDeleted
    ensures r.Ok? ==> r.value in rows && !r.value.isDeleted && Some(r.value.id) == verify(ExtractToken(authorization).value).value.sub
  {
    var token := ExtractToken(authorization);
    if token.None? || token.value == "" then Fail(Unauthorized, TokenRequiredMessage)
    else
      var payload := verify(token.value);
      if payload.None? then Fail(Unauthorized, BadTokenMessage)
      else if !Present(payload.value.sub) then Fail(Unauthorized, "Invalid token payload")
      else
        var user := FindFirst(rows, ById(payload.value.sub.value));
        if user.None? then Fail(Unauthorized, "User not found")
        else if user.value.isDeleted then Fail(Unauthorized, "User account has been deleted")
        else Ok(user.value)
  }

  /** A soft-deleted account is refused even with a token that verifies. */
  lemma DeletedUserRejected(authorization: Option<string>, verify: string -> Option<Payload>, rows: seq<User>)
    requires UniqueRows(rows)
    requires var t := ExtractToken(authorization);
      t.Some? && t.value != "" && verify(t.value).Some? && Present(verify(t.value).value.sub)
    requires var sub := verify(ExtractToken(authorization).value).value.sub.value;
      exists u :: u in rows && u.id == sub && u.isDeleted
    ensures Admit(authorization, verify, rows) == Fail(Unauthorized, "User account has been deleted")
  {
    var sub := verify(ExtractToken(authorization).value).value.sub.value;
    var u :| u in rows && u.id == sub && u.isDeleted;
    FindOwnId(rows, u);
  }

  /** The incoming request; the guard writes `user`. */
  class Request {
    const authorization: Option<string>
    var user: Option<User>

    constructor(authorization: Option<string>)
      ensures this.authorization == authorization && user == None
    {
      this.authorization := authorization;
      user := None;
    }
  }

  class JwtAuthGuard {
    const users: UserStore

    constructor(users: UserStore)
      ensures this.users == users
    {
      this.users := users;
    }

    /** `canActivate`: attaches the user to the request and answers true, or throws Unauthorized. */
    method CanActivate(request: Request, verify: string -> Option<Payload>) returns (r: Result<bool>)
      modifies request
      ensures var d := Admit(request.authorization, verify, users.rows);
        (d.Ok? ==> r == Ok(true) && request.user == Some(d.value))
        && (d.Err? ==> r == Err(d.error) && request.user == old(request.user))
    {
      var d := Admit(request.authorization, verify, users.rows);
      if d.Err? {
        return Err(d.error);
      }
      request.user := Some(d.value);
      return Ok(true);
    }
  }
}
