/**
 * The auth orchestration of src/modules/auth/auth.service.ts: dispatch on the
 * login type, find-or-create by a normalised phone or email, the email
 * password decision, OTP verification through the older ledger, and token
 * issuance (a signed access token plus a 30-day refresh session).
 */
module Auth {
  import opened Wrappers
  import opened Strings
  import opened Crypto
  import opened Json
  import opened Users
  import opened OtpCodes
  import LegacyOtp
  import Session

  /** AuthProvider: the login types. */
  datatype AuthProvider = PHONE | EMAIL | GOOGLE | APPLE

  /** The stored value of each AuthProvider member. */
  function ProviderValue(p: AuthProvider): string
  {
    match p
    case PHONE => "phone"
    case EMAIL => "email"
    case GOOGLE => "google"
    case APPLE => "apple"
  }

  /** The fields of a validated LoginDto that the service reads. */
  datatype LoginRequest = LoginRequest(
    loginType: AuthProvider,
    phone: Option<string>,
    email: Option<string>,
    password: Option<string>,
    deviceId: Option<string>,
    ip: Option<string>)

  /** The JWT payload: `{ sub, email ?? null, phone ?? null }` (None stands for null). */
  datatype Claims = Claims(sub: string, email: Option<string>, phone: Option<string>)

  /** What `jwt.signAsync(payload, { expiresIn })` produces; the service never decodes it. */
  datatype AccessToken = SignedJwt(claims: Claims, expiresIn: string)

  const AccessTokenLifetime: string := "15m"
  const RefreshTtlDays: int := 30
  const NoPasswordMessage: string := "Password required for this account. Use password reset or email OTP flow."

  datatype TokenBundle = TokenBundle(
    accessToken: AccessToken,
    refreshToken: string,
    refreshExpiresAt: int,
    user: map<string, Value>)

  datatype LoginOutcome =
    | OtpSent(otpId: string, userId: string, message: string)
    | SignedIn(tokens: TokenBundle)

  /**
   * The clock and the values the foreign calls supply: the UUIDs of a new
   * user, OTP and session, the OTP generator's draw, the 64 random bytes of
   * the refresh secret, and whether the provider and lastLoginAt updates,
   * whose failures the code ignores, fail.
   */
  datatype Draws = Draws(
    now: int,
    userId: string,
    otpId: string,
    otpDraw: nat,
    sessionId: string,
    sessionSecret: seq<bv8>,
    providerUpdateFails: bool,
    lastLoginUpdateFails: bool)

  // ------------------------------------------------------------ helpers

  /** `normalizeEmail`: trim, then lower-case. */
  function NormalizeEmail(email: string): (r: string)
    ensures IsTrimmed(r)
    ensures ToLower(r) == r
    ensures |r| <= |email|
  {
    var t := Trim(email);
    ToLowerKeepsTrimmed(t);
    ToLowerIdempotent(t);
    ToLower(t)
  }

  lemma NormalizeEmailIdempotent(email: string)
    ensures NormalizeEmail(NormalizeEmail(email)) == NormalizeEmail(email)
  {
    TrimTrimmed(NormalizeEmail(email));
  }

  /** An address already trimmed and in lower case is its own normal form. */
  lemma NormalizeEmailKeepsNormal(email: string)
    requires IsTrimmed(email) && ToLower(email) == email
    ensures NormalizeEmail(email) == email
  {
    TrimTrimmed(email);
  }

  /**
   * Normalising drops the whitespace around an address and lower-cases what
   * is left; an address of whitespace only normalises to the empty string.
   */
  lemma NormalizeEmailOfPadded(pre: string, email: string, post: string)
    requires forall i :: 0 <= i < |pre| ==> IsWhitespace(pre[i])
    requires forall i :: 0 <= i < |post| ==> IsWhitespace(post[i])
    ensures |email| > 0 && !IsWhitespace(email[0]) && !IsWhitespace(email[|email| - 1]) ==>
      NormalizeEmail(pre + email + post) == ToLower(email)
    ensures NormalizeEmail(pre + post) == ""
  {
    if |email| > 0 && !IsWhitespace(email[0]) && !IsWhitespace(email[|email| - 1]) {
      TrimPadded(pre, email, post);
    }
    TrimBlank(pre + post);
  }

  /** `normalizePhone`: `replace(/[^\d+]/g, '')`. */
  function NormalizePhone(phone: string): (r: string)
    ensures forall i :: 0 <= i < |r| ==> IsPhoneChar(r[i]) && r[i] in phone
  {
    Filter(phone, IsPhoneChar)
  }

  lemma NormalizePhoneIdempotent(phone: string)
    ensures NormalizePhone(NormalizePhone(phone)) == NormalizePhone(phone)
  {
    FilterIdempotent(phone, IsPhoneChar);
  }

  /** Normalising works piecewise: the result of a concatenation is the concatenation of the results. */
  lemma NormalizePhoneConcat(a: string, b: string)
    ensures NormalizePhone(a + b) == NormalizePhone(a) + NormalizePhone(b)
  {
    FilterConcat(a, b, IsPhoneChar);
  }

  /** A single character is kept exactly when it is a digit or '+'. */
  lemma NormalizePhoneChar(c: char)
    ensures NormalizePhone([c]) == if IsPhoneChar(c) then [c] else []
  {
    assert [c][1..] == [];
  }

  /** Every digit and '+' of the input is kept, in order; a character of any other kind is dropped. */
  lemma NormalizePhoneSplice(a: string, c: char, b: string)
    ensures NormalizePhone(a + [c] + b) ==
      NormalizePhone(a) + (if IsPhoneChar(c) then [c] else []) + NormalizePhone(b)
  {
    NormalizePhoneConcat(a + [c], b);
    NormalizePhoneConcat(a, [c]);
    NormalizePhoneChar(c);
  }

  /** A text column as it appears on the loaded entity: null when unset. */
  function TextOrNull(o: Option<string>): Value
  {
    if o.Some? then Str(o.value) else Null
  }

  /** The user entity as the object the service holds. */
  function UserObject(u: User): map<string, Value>
  {
    map[
      "id" := Str(u.id),
      "email" := TextOrNull(u.email),
      "password" := TextOrNull(u.password),
      "phone" := TextOrNull(u.phone),
      "provider" := Str(u.provider),
      "isEmailVerified" := Bool(u.isEmailVerified),
      "isPhoneVerified" := Bool(u.isPhoneVerified),
      "isDeleted" := Bool(u.isDeleted),
      "lastLoginAt" := if u.lastLoginAt.Some? then Num(u.lastLoginAt.value) else Null,
      "profileCompleted" := Bool(u.profileCompleted),
      "isAdvisor" := Bool(u.isAdvisor),
      "questionnaireCompleted" := Bool(u.questionnaireCompleted)]
  }

  /** `stripSensitive`: `const { passwordHash, ...rest } = user`. */
  function StripSensitive(user: map<string, Value>): (rest: map<string, Value>)
    ensures "passwordHash" !in rest
    ensures forall k :: k in rest <==> k in user && k != "passwordHash"
    ensures forall k :: k in rest ==> rest[k] == user[k]
  {
    user - {"passwordHash"}
  }

  /** The entity has no `passwordHash` key, so the stored password digest reaches the client. */
  lemma StrippedUserKeepsPassword(u: User)
    ensures StripSensitive(UserObject(u)) == UserObject(u)
    ensures StripSensitive(UserObject(u))["password"] == TextOrNull(u.password)
  {
    assert "passwordHash" !in UserObject(u);
  }

  function TokenClaims(u: User): Claims
  {
    Claims(u.id, u.email, u.phone)
  }

  // ------------------------------------------------------ pure decisions

  datatype Route = PhoneRoute(phone: string) | EmailRoute(email: string)

  /** The `switch (dto.type)` of `login`. */
  function LoginRoute(req: LoginRequest): (r: Result<Route>)
    ensures r.Ok? <==>
      (req.loginType == PHONE && Present(req.phone)) || (req.loginType == EMAIL && Present(req.email))
    ensures req.loginType == PHONE && Present(req.phone) ==> r == Ok(PhoneRoute(req.phone.value))
    ensures req.loginType == EMAIL && Present(req.email) ==> r == Ok(EmailRoute(req.email.value))
    ensures req.loginType == PHONE && !Present(req.phone) ==> r == Fail(BadRequest, "phone is required")
    ensures req.loginType == EMAIL && !Present(req.email) ==> r == Fail(BadRequest, "email is required")
    ensures req.loginType in {GOOGLE, APPLE} ==> r == Fail(Unauthorized, "Unsupported provider")
  {
    match req.loginType
    case PHONE => if !Present(req.phone) then Fail(BadRequest, "phone is required") else Ok(PhoneRoute(req.phone.value))
    case EMAIL => if !Present(req.email) then Fail(BadRequest, "email is required") else Ok(EmailRoute(req.email.value))
    case _ => Fail(Unauthorized, "Unsupported provider")
  }

  datatype EmailStep = SignUp(provider: string) | NoPasswordOnAccount | BadCredentials | PasswordAccepted

  /** The decision tree of `loginWithEmail` for the row found by email (if any). */
  function EmailLoginStep(existing: Option<User>, password: Option<string>): (step: EmailStep)
    ensures step.SignUp? <==> existing.None?
    ensures step.SignUp? ==> step.provider == if Present(password) then "email_pwd" else "email_otp"
    ensures step == NoPasswordOnAccount <==> existing.Some? && !Present(existing.value.password)
    ensures step == PasswordAccepted <==>
      existing.Some? && Present(existing.value.password)
      && Compare(if password.Some? then password.value else "", existing.value.password.value)
  {
    if existing.None? then SignUp(if Present(password) then "email_pwd" else "email_otp")
    else if !Present(existing.value.password) then NoPasswordOnAccount
    else if !Compare(if password.Some? then password.value else "", existing.value.password.value) then BadCredentials
    else PasswordAccepted
  }

  /** The row `loginWithEmail` stores for a new address: the `passwordHash` it passes is not a column. */
  function SignUpRow(id: string, normalizedEmail: string, provider: string): User
  {
    NewUser(id, Some(normalizedEmail), None, provider)
  }

  /**
   * As written, an account created by an email login never has a password, so
   * every later email login to it is refused with the 'Password required'
   * message, whatever password is presented.
   */
  lemma EmailSignUpLocksOut(rows: seq<User>, id: string, email: string, password: Option<string>,
                            email2: string, password2: Option<string>)
    requires FindFirst(rows, ByEmail(NormalizeEmail(email))).None?
    requires NormalizeEmail(email2) == NormalizeEmail(email)
    ensures var row := SignUpRow(id, NormalizeEmail(email), EmailLoginStep(None, password).provider);
      EmailLoginStep(FindFirst(rows + [row], ByEmail(NormalizeEmail(email2))), password2) == NoPasswordOnAccount
  {
    var row := SignUpRow(id, NormalizeEmail(email), EmailLoginStep(None, password).provider);
    FindFirstAppend(rows, row, ByEmail(NormalizeEmail(email2)));
  }

  /**
   * bcrypt reads only the first 72 characters of a password, so a longer
   * password is accepted after any other text that shares those 72.
   */
  lemma LongPasswordPrefixAccepted(u: User, stored: string, presented: string)
    requires u.password == Some(Hash(stored))
    requires |stored| >= BcryptMaxLength && |presented| >= BcryptMaxLength
    requires presented[..BcryptMaxLength] == stored[..BcryptMaxLength]
    ensures EmailLoginStep(Some(u), Some(presented)) == PasswordAccepted
  {
    LateDifferenceAccepted(stored, presented);
  }

  /**
   * `user.provider` is rewritten to 'phone' when it is empty or already
   * 'phone'; a failure of that update is ignored.
   */
  function ProviderFixRows(rows: seq<User>, u: User, d: Draws): seq<User>
  {
    if (u.provider == "" || u.provider == ProviderValue(PHONE)) && !d.providerUpdateFails then
      UpdateRows(rows, u.id, SetProvider("phone"))
    else rows
  }

  /** The lastLoginAt update, which may fail and is then ignored. */
  function LastLoginRows(rows: seq<User>, u: User, d: Draws): seq<User>
  {
    if d.lastLoginUpdateFails then rows else UpdateRows(rows, u.id, SetLastLoginAt(d.now))
  }

  /** What `signTokensForUser` returns and the session it records. */
  ghost predicate IssuedFor(t: TokenBundle, user: User, deviceInfo: Option<string>, ip: Option<string>, d: Draws,
                            before: map<string, Session.UserSession>, after: map<string, Session.UserSession>)
  {
    var secret := HexEncode(d.sessionSecret);
    var expiresAt := d.now + RefreshTtlDays * Session.DayMs;
    t == TokenBundle(SignedJwt(TokenClaims(user), AccessTokenLifetime), Session.RefreshToken(d.sessionId, secret),
                     expiresAt, StripSensitive(UserObject(user)))
    && after == before[d.sessionId := Session.UserSession(d.sessionId, user.id, deviceInfo, Hash(secret), ip, true, expiresAt)]
  }

  /** The effect of `loginWithPhone` on the user table and the OTP ledger. */
  ghost predicate PhoneLoginDone(phone: string, d: Draws, r: LoginOutcome,
                                 rows0: seq<User>, rows1: seq<User>,
                                 otps0: map<string, OtpRecord>, otps1: map<string, OtpRecord>)
  {
    var normalized := NormalizePhone(phone);
    var existing := FindFirst(rows0, ByPhone(normalized));
    var ownerId := if existing.Some? then existing.value.id else d.userId;
    d.otpDraw < 900000
    && rows1 == (if existing.Some? then rows0 else rows0 + [NewUser(d.userId, None, Some(normalized), "phone_otp")])
    && otps1 == otps0[d.otpId := IssuedRecord(d.otpId, ownerId, Purpose.Login, GenerateNumericOtp(6, d.otpDraw),
                                               d.now + LegacyOtp.DefaultTtlMinutes * MinuteMs)]
    && r == OtpSent(d.otpId, ownerId, "OTP sent")
  }

  /** The effect of `loginWithEmail` on the user table and the sessions. */
  ghost predicate EmailLoginDone(email: string, password: Option<string>, deviceInfo: Option<string>, ip: Option<string>,
                                 d: Draws, r: Result<LoginOutcome>, rows0: seq<User>, rows1: seq<User>,
                                 s0: map<string, Session.UserSession>, s1: map<string, Session.UserSession>)
  {
    var normalized := NormalizeEmail(email);
    var existing := FindFirst(rows0, ByEmail(normalized));
    match EmailLoginStep(existing, password)
    case SignUp(provider) =>
      var created := SignUpRow(d.userId, normalized, provider);
      r.Ok? && r.value.SignedIn? && IssuedFor(r.value.tokens, created, deviceInfo, ip, d, s0, s1)
      && rows1 == LastLoginRows(rows0 + [created], created, d)
    case NoPasswordOnAccount =>
      r == Fail(Unauthorized, NoPasswordMessage) && rows1 == rows0 && s1 == s0
    case BadCredentials =>
      r == Fail(Unauthorized, "Invalid credentials") && rows1 == rows0 && s1 == s0
    case PasswordAccepted =>
      r.Ok? && r.value.SignedIn? && IssuedFor(r.value.tokens, existing.value, deviceInfo, ip, d, s0, s1)
      && rows1 == LastLoginRows(rows0, existing.value, d)
  }

  class AuthService {
    const users: UserStore
    const otps: LegacyOtp.OtpService
    const sessions: Session.SessionService

    ghost predicate Valid()
      reads this, users, otps, sessions
    {
      users.Valid() && otps.Valid() && sessions.Valid()
    }

    /** The draws are fresh for the current tables. */
    ghost predicate FreshFor(d: Draws)
      reads this, users, otps, sessions
    {
      IsUuid(d.userId) && users.FindById(d.userId).None?
      && d.otpDraw < 900000 && d.otpId !in otps.otps
      && |d.sessionSecret| == 64 && IsUuid(d.sessionId) && d.sessionId !in sessions.sessions
    }

    constructor(users: UserStore, otps: LegacyOtp.OtpService, sessions: Session.SessionService)
      ensures this.users == users && this.otps == otps && this.sessions == sessions
    {
      this.users := users;
      this.otps := otps;
      this.sessions := sessions;
    }

    /** `signTokensForUser`. */
    method SignTokensForUser(user: User, deviceInfo: Option<string>, ip: Option<string>, d: Draws)
      returns (t: TokenBundle)
      requires Valid() && |d.sessionSecret| == 64 && IsUuid(d.sessionId) && d.sessionId !in sessions.sessions
      modifies users, sessions
      ensures Valid()
      ensures IssuedFor(t, user, deviceInfo, ip, d, old(sessions.sessions), sessions.sessions)
      ensures users.rows == LastLoginRows(old(users.rows), user, d)
    {
      var created := sessions.CreateSession(user.id, deviceInfo, ip, Some(RefreshTtlDays), d.now, d.sessionSecret, d.sessionId);
      if !d.lastLoginUpdateFails {
        users.Update(user.id, SetLastLoginAt(d.now));
      }
      t := TokenBundle(SignedJwt(TokenClaims(user), AccessTokenLifetime), created.refreshToken, created.expiresAt,
                       StripSensitive(UserObject(user)));
    }

    /** `loginWithPhone`: sending the code is commented out in the source, so it cannot fail. */
    method LoginWithPhone(phone: string, d: Draws) returns (r: LoginOutcome)
      requires Valid() && FreshFor(d)
      modifies users, otps
      ensures Valid()
      ensures PhoneLoginDone(phone, d, r, old(users.rows), users.rows, old(otps.otps), otps.otps)
    {
      var normalized := NormalizePhone(phone);
      var user := users.FindByPhone(normalized);
      var owner: User;
      if user.None? {
        owner := NewUser(d.userId, None, Some(normalized), "phone_otp");
        users.Create(owner);
      } else {
        owner := user.value;
      }
      var otpId, code := otps.CreateOtp(owner.id, Purpose.Login, None, d.now, d.otpDraw, d.otpId);
      r := OtpSent(otpId, owner.id, "OTP sent");
    }

    /** `loginWithEmail`. */
    method LoginWithEmail(email: string, password: Option<string>, deviceInfo: Option<string>, ip: Option<string>, d: Draws)
      returns (r: Result<LoginOutcome>)
      requires Valid() && FreshFor(d)
      modifies users, sessions
      ensures Valid()
      ensures EmailLoginDone(email, password, deviceInfo, ip, d, r, old(users.rows), users.rows,
                             old(sessions.sessions), sessions.sessions)
    {
      var normalized := NormalizeEmail(email);
      var user := users.FindByEmail(normalized);
      var step := EmailLoginStep(user, password);
      match step {
        case SignUp(provider) =>
          var created := SignUpRow(d.userId, normalized, provider);
          users.Create(created);
          var t := SignTokensForUser(created, deviceInfo, ip, d);
          r := Ok(SignedIn(t));
        case NoPasswordOnAccount =>
          r := Fail(Unauthorized, NoPasswordMessage);
        case BadCredentials =>
          r := Fail(Unauthorized, "Invalid credentials");
        case PasswordAccepted =>
          var t := SignTokensForUser(user.value, deviceInfo, ip, d);
          r := Ok(SignedIn(t));
      }
    }

    /** `login`: the dispatch on `dto.type`. */
    method Login(req: LoginRequest, d: Draws) returns (r: Result<LoginOutcome>)
      requires Valid() && FreshFor(d)
      modifies users, otps, sessions
      ensures Valid()
      ensures LoginRoute(req).Err? ==>
        r == Err(LoginRoute(req).error) && users.rows == old(users.rows)
        && otps.otps == old(otps.otps) && sessions.sessions == old(sessions.sessions)
      ensures LoginRoute(req).Ok? && LoginRoute(req).value.PhoneRoute? ==>
        r.Ok? && sessions.sessions == old(sessions.sessions)
        && PhoneLoginDone(req.phone.value, d, r.value, old(users.rows), users.rows, old(otps.otps), otps.otps)
      ensures LoginRoute(req).Ok? && LoginRoute(req).value.EmailRoute? ==>
        otps.otps == old(otps.otps)
        && EmailLoginDone(req.email.value, req.password, req.deviceId, req.ip, d, r, old(users.rows), users.rows,
                          old(sessions.sessions), sessions.sessions)
    {
      var route := LoginRoute(req);
      if route.Err? {
        return Err(route.error);
      }
      match route.value {
        case PhoneRoute(phone) =>
          var outcome := LoginWithPhone(phone, d);
          r := Ok(outcome);
        case EmailRoute(email) =>
          r := LoginWithEmail(email, req.password, req.deviceId, req.ip, d);
      }
    }

    /**
     * `verifyOtp(dto)`: the older ledger checks the code; the OTP's purpose is
     * not consulted, so any accepted code signs the owner in.
     */
    method VerifyOtp(otpId: string, code: string, deviceInfo: Option<string>, ip: Option<string>, d: Draws)
      returns (r: Result<TokenBundle>)
      requires Valid() && |d.sessionSecret| == 64 && IsUuid(d.sessionId) && d.sessionId !in sessions.sessions
      modifies users, otps, sessions
      ensures Valid()
      ensures var c := CheckOtp(old(otps.otps), otpId, code, d.now);
        otps.otps == (if c.Accepted? then MarkUsed(old(otps.otps), otpId) else old(otps.otps))
      ensures var c := CheckOtp(old(otps.otps), otpId, code, d.now);
        !c.Accepted? ==>
          r == Err(LegacyOtp.VerifyOutcome(c).error)
          && users.rows == old(users.rows) && sessions.sessions == old(sessions.sessions)
      ensures var c := CheckOtp(old(otps.otps), otpId, code, d.now);
        c.Accepted? && FindFirst(old(users.rows), ById(c.otp.userId)).None? ==>
          r == Fail(BadRequest, "User not found")
          && users.rows == old(users.rows) && sessions.sessions == old(sessions.sessions)
      ensures var c := CheckOtp(old(otps.otps), otpId, code, d.now);
        c.Accepted? && FindFirst(old(users.rows), ById(c.otp.userId)).Some? ==>
          var owner := FindFirst(old(users.rows), ById(c.otp.userId));
          r.Ok? && IssuedFor(r.value, owner.value, deviceInfo, ip, d, old(sessions.sessions), sessions.sessions)
          && users.rows == LastLoginRows(ProviderFixRows(old(users.rows), owner.value, d), owner.value, d)
    {
      var res := otps.VerifyOtp(otpId, code, d.now);
      if res.Err? {
        return Err(res.error);
      }
      var user := users.FindById(res.value.userId);
      if user.None? {
        return Fail(BadRequest, "User not found");
      }
      var u := user.value;
      if (u.provider == "" || u.provider == ProviderValue(PHONE)) && !d.providerUpdateFails {
        users.Update(u.id, SetProvider("phone"));
      }
      var t := SignTokensForUser(u, deviceInfo, ip, d);
      r := Ok(t);
    }
  }
}
