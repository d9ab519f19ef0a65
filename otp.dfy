/**
 * The current OTP ledger, src/modules/otp/otp.service.ts. Every OTP row is
 * created unused and is moved to `used = true` by a successful verification,
 * by an explicit invalidation or by the invalidation that precedes a resend;
 * nothing moves it back. Verification can also check the address the code
 * was sent to, and a 'login' code ends in token issuance through the auth
 * service.
 */
module OtpLedger {
  import opened Wrappers
  import opened Strings
  import opened Crypto
  import opened Users
  import opened OtpCodes
  import Auth
  import Session

  /** The payload of a 'send-otp' job. */
  datatype OtpJobData = OtpJobData(
    email: Option<string>,
    phone: Option<string>,
    code: string,
    purpose: Purpose,
    userId: string,
    otpId: string)

  /** What a successful `verifyOtp` returns: tokens for a 'login' code, `{ userId, purpose }` otherwise. */
  datatype VerifyResult =
    | SignedIn(tokens: Auth.TokenBundle)
    | PurposeVerified(userId: string, purpose: Purpose)

  /** The fields of a validated ResendOtpDto. */
  datatype ResendRequest = ResendRequest(
    purpose: Purpose,
    loginType: Auth.AuthProvider,
    phone: Option<string>,
    email: Option<string>)

  datatype Resent = Resent(otpId: string, userId: string, message: string)

  const EmailMismatchMessage: string := "Email does not match the OTP recipient"
  const PhoneMismatchMessage: string := "Phone does not match the OTP recipient"
  const EnqueueFailedMessage: string := "Error in sending OTP, Please try after sometime"

  /** This ledger reports every rejected check as 'Invalid OTP' except expiry. */
  function RejectionMessage(c: OtpCheck): (m: string)
    requires !c.Accepted?
    ensures m == "OTP expired" <==> c.Expired?
  {
    if c.Expired? then "OTP expired" else "Invalid OTP"
  }

  /** A code accepted once is rejected as 'Invalid OTP' on every later attempt, whatever is presented. */
  lemma {:induction false} SecondVerifyRejected(otps: map<string, OtpRecord>, id: string, code: string, now: int,
                                                code2: string, later: int)
    requires CheckOtp(otps, id, code, now).Accepted?
    ensures var c := CheckOtp(MarkUsed(otps, id), id, code2, later);
      c.AlreadyUsed? && RejectionMessage(c) == "Invalid OTP"
  {
    MarkUsedFinal(otps, id, code2, later);
  }

  /** The owner's email equals the given one ignoring case. */
  predicate EmailMatches(u: User, email: string)
  {
    Present(u.email) && ToLower(u.email.value) == ToLower(email)
  }

  /** The owner's phone, stripped of separators, is non-empty and equals the stripped given phone. */
  predicate PhoneMatches(u: User, phone: string)
  {
    u.phone.Some? && StripPhone(u.phone.value) != "" && StripPhone(u.phone.value) == StripPhone(phone)
  }

  /**
   * The phone check ignores formatting: a space, dash or bracket written
   * anywhere into the given phone changes nothing, a stored phone matches
   * itself, and a phone matches exactly when its stripped form does.
   */
  lemma PhoneMatchesFormatted(u: User, a: string, sep: char, b: string)
    requires IsPhoneSeparator(sep)
    ensures PhoneMatches(u, a + [sep] + b) <==> PhoneMatches(u, a + b)
    ensures PhoneMatches(u, StripPhone(a)) <==> PhoneMatches(u, a)
    ensures u.phone.Some? && StripPhone(u.phone.value) != "" ==> PhoneMatches(u, u.phone.value)
  {
    StripPhoneDropsSeparator(a, sep, b);
    StripPhoneIdempotent(a);
  }

  /** `update({ userId, purpose, used: false }, { used: true })`. */
  function InvalidateUnused(otps: map<string, OtpRecord>, userId: string, purpose: Purpose): (r: map<string, OtpRecord>)
    ensures r.Keys == otps.Keys
  {
    map k | k in otps ::
      if otps[k].userId == userId && otps[k].purpose == purpose && !otps[k].used
      then otps[k].(used := true) else otps[k]
  }

  /**
   * Bulk invalidation leaves no unused OTP of that user and purpose, only
   * ever sets `used`, and leaves every other row exactly as it was.
   */
  lemma InvalidateUnusedEffect(otps: map<string, OtpRecord>, userId: string, purpose: Purpose)
    ensures var r := InvalidateUnused(otps, userId, purpose);
      UsedOnlyGrows(otps, r)
      && (forall k :: k in r && r[k].userId == userId && r[k].purpose == purpose ==> r[k].used)
      && (forall k :: k in otps && (otps[k].userId != userId || otps[k].purpose != purpose) ==> r[k] == otps[k])
  {
  }

  /**
   * After a resend, the freshly issued OTP is the only unused one for that
   * user and purpose.
   */
  lemma ResendLeavesOneLive(otps: map<string, OtpRecord>, userId: string, purpose: Purpose, rec: OtpRecord)
    requires rec.userId == userId && rec.purpose == purpose && !rec.used
    ensures var live := InvalidateUnused(otps, userId, purpose)[rec.id := rec];
      rec.id in live && !live[rec.id].used
      && forall k :: k in live && live[k].userId == userId && live[k].purpose == purpose && !live[k].used ==> k == rec.id
  {
    InvalidateUnusedEffect(otps, userId, purpose);
  }

  /** When the job cannot be queued, no unused OTP of that user and purpose remains. */
  lemma FailedResendLeavesNoneLive(otps: map<string, OtpRecord>, userId: string, purpose: Purpose, rec: OtpRecord)
    requires rec.userId == userId && rec.purpose == purpose && !rec.used
    ensures var dead := MarkUsed(InvalidateUnused(otps, userId, purpose)[rec.id := rec], rec.id);
      forall k :: k in dead && dead[k].userId == userId && dead[k].purpose == purpose ==> dead[k].used
  {
    InvalidateUnusedEffect(otps, userId, purpose);
  }

  /** The owner row the resend looks up, or the error raised before anything is written. */
  function ResendOwner(rows: seq<User>, dto: ResendRequest): (r: Result<User>)
    requires dto.loginType == Auth.PHONE ==> dto.phone.Some?
    requires dto.loginType == Auth.EMAIL ==> dto.email.Some?
    ensures r.Ok? ==> r.value in rows
    ensures r.Ok? <==>
      (dto.loginType == Auth.PHONE && FindFirst(rows, ByPhone(dto.phone.value)).Some?)
      || (dto.loginType == Auth.EMAIL && FindFirst(rows, ByEmail(dto.email.value)).Some?)
    ensures dto.loginType in {Auth.GOOGLE, Auth.APPLE} ==> r == Fail(BadRequest, "Unsupported provider for OTP resend")
    ensures r.Err? && dto.loginType == Auth.PHONE ==> r == Fail(NotFound, "User not found with this phone number")
    ensures r.Err? && dto.loginType == Auth.EMAIL ==> r == Fail(NotFound, "User not found with this email")
  {
    match dto.loginType
    case PHONE =>
      var u := FindFirst(rows, ByPhone(dto.phone.value));
      if u.None? then Fail(NotFound, "User not found with this phone number") else Ok(u.value)
    case EMAIL =>
      var u := FindFirst(rows, ByEmail(dto.email.value));
      if u.None? then Fail(NotFound, "User not found with this email") else Ok(u.value)
    case _ => Fail(BadRequest, "Unsupported provider for OTP resend")
  }

  /** The job the resend queues: the channel of the request and nothing of the other. */
  function ResendJob(dto: ResendRequest, code: string, userId: string, otpId: string): (job: OtpJobData)
    requires dto.loginType == Auth.PHONE || dto.loginType == Auth.EMAIL
    requires dto.loginType == Auth.PHONE ==> dto.phone.Some?
    requires dto.loginType == Auth.EMAIL ==> dto.email.Some?
    ensures job.code == code && job.otpId == otpId && job.userId == userId && job.purpose == dto.purpose
    ensures (job.phone.Some? <==> dto.loginType == Auth.PHONE) && (job.email.Some? <==> dto.loginType == Auth.EMAIL)
  {
    if dto.loginType == Auth.PHONE then OtpJobData(None, dto.phone, code, dto.purpose, userId, otpId)
    else OtpJobData(dto.email, None, code, dto.purpose, userId, otpId)
  }

  /** The user row as `verifyOtp` holds it after setting the flags in memory. */
  function SeenUser(u: User, email: Option<string>, phone: Option<string>): User
  {
    u.(isEmailVerified := u.isEmailVerified || Present(email), isPhoneVerified := u.isPhoneVerified || Present(phone))
  }

  /**
   * The outcome of the address checks of `verifyOtp` for the owner `u`: the
   * message of the first failing check, if any, and the user rows after the
   * verification flags written so far.
   */
  datatype RecipientOutcome = RecipientOutcome(failure: Option<string>, rows: seq<User>)

  function CheckRecipient(rows: seq<User>, u: User, email: Option<string>, phone: Option<string>): (o: RecipientOutcome)
    ensures o.failure.None? <==>
      (!Present(email) || EmailMatches(u, email.value)) && (!Present(phone) || PhoneMatches(u, phone.value))
    ensures o.failure == Some(EmailMismatchMessage) <==> Present(email) && !EmailMatches(u, email.value)
    ensures o.failure == Some(EmailMismatchMessage) ==> o.rows == rows
    ensures o.failure == Some(PhoneMismatchMessage) && Present(email) ==> o.rows == UpdateRows(rows, u.id, MarkEmailVerified)
    ensures |o.rows| == |rows|
    ensures o.failure.None? ==> forall i :: 0 <= i < |o.rows| ==>
      o.rows[i].id == rows[i].id
      && o.rows[i].isEmailVerified == (rows[i].isEmailVerified || (rows[i].id == u.id && Present(email)))
      && o.rows[i].isPhoneVerified == (rows[i].isPhoneVerified || (rows[i].id == u.id && Present(phone)))
  {
    if Present(email) && !EmailMatches(u, email.value) then RecipientOutcome(Some(EmailMismatchMessage), rows)
    else
      var rowsE := if Present(email) then UpdateRows(rows, u.id, MarkEmailVerified) else rows;
      if Present(phone) && !PhoneMatches(u, phone.value) then RecipientOutcome(Some(PhoneMismatchMessage), rowsE)
      else RecipientOutcome(None, if Present(phone) then UpdateRows(rowsE, u.id, MarkPhoneVerified) else rowsE)
  }

  /** The effect of `verifyOtp` on the ledger, the users and the sessions, branch by branch. */
  ghost predicate VerifyDone(otpId: string, code: string, deviceInfo: Option<string>, ip: Option<string>,
                             email: Option<string>, phone: Option<string>, d: Auth.Draws, r: Result<VerifyResult>,
                             otps0: map<string, OtpRecord>, otps1: map<string, OtpRecord>,
                             rows0: seq<User>, rows1: seq<User>,
                             s0: map<string, Session.UserSession>, s1: map<string, Session.UserSession>)
  {
    var c := CheckOtp(otps0, otpId, code, d.now);
    if !c.Accepted? then
      r == Fail(BadRequest, RejectionMessage(c)) && otps1 == otps0 && rows1 == rows0 && s1 == s0
    else
      var owner := FindFirst(rows0, ById(c.otp.userId));
      if owner.None? then
        r == Fail(BadRequest, "User not found") && otps1 == otps0 && rows1 == rows0 && s1 == s0
      else
        var u := owner.value;
        var rc := CheckRecipient(rows0, u, email, phone);
        if rc.failure.Some? then
          r == Fail(BadRequest, rc.failure.value) && otps1 == otps0 && rows1 == rc.rows && s1 == s0
        else
          var seen := SeenUser(u, email, phone);
          otps1 == MarkUsed(otps0, otpId)
          && if c.otp.purpose == Login then
               r.Ok? && r.value.SignedIn? && Auth.IssuedFor(r.value.tokens, seen, deviceInfo, ip, d, s0, s1)
               && rows1 == Auth.LastLoginRows(rc.rows, seen, d)
             else
               r == Ok(PurposeVerified(u.id, c.otp.purpose)) && rows1 == rc.rows && s1 == s0
  }

  class OtpService {
    var otps: map<string, OtpRecord>
    /** The jobs handed to the 'otp' queue, oldest first. */
    var jobs: seq<OtpJobData>
    /** The configured OTP_TTL_MINUTES. */
    const ttlMinutes: int
    const users: UserStore
    const auth: Auth.AuthService

    ghost predicate Valid()
      reads this, users, auth, auth.users, auth.otps, auth.sessions
    {
      KeyedById(otps) && auth.users == users && auth.Valid()
    }

    constructor(ttlMinutes: int, auth: Auth.AuthService)
      requires auth.Valid()
      ensures Valid() && otps == map[] && jobs == []
      ensures this.ttlMinutes == ttlMinutes && this.auth == auth && users == auth.users
    {
      this.ttlMinutes := ttlMinutes;
      this.auth := auth;
      this.users := auth.users;
      otps := map[];
      jobs := [];
    }

    /** `createOtp(userId, purpose, ttlMinutes = OTP_TTL_MINUTES)`. */
    method CreateOtp(userId: string, purpose: Purpose, ttl: Option<int>, now: int, draw: nat, newId: string)
      returns (otpId: string, code: string)
      requires Valid() && draw < 900000 && newId !in otps
      modifies this
      ensures Valid() && UsedOnlyGrows(old(otps), otps) && jobs == old(jobs)
      ensures otpId == newId && code == GenerateNumericOtp(6, draw)
      ensures var minutes := if ttl.Some? then ttl.value else ttlMinutes;
        otps == old(otps)[newId := IssuedRecord(newId, userId, purpose, code, now + minutes * MinuteMs)]
    {
      code := GenerateNumericOtp(6, draw);
      var minutes := if ttl.Some? then ttl.value else ttlMinutes;
      otps := otps[newId := IssuedRecord(newId, userId, purpose, code, now + minutes * MinuteMs)];
      otpId := newId;
    }

    /**
     * `verifyOtp(otpId, code, deviceInfo, ip, email, phone)`. The email check
     * writes `isEmailVerified` before the phone check runs, so a phone
     * mismatch leaves that write in place; the OTP itself is consumed only
     * after both checks pass.
     */
    method VerifyOtp(otpId: string, code: string, deviceInfo: Option<string>, ip: Option<string>,
                     email: Option<string>, phone: Option<string>, d: Auth.Draws)
      returns (r: Result<VerifyResult>)
      requires Valid() && |d.sessionSecret| == 64 && IsUuid(d.sessionId) && d.sessionId !in auth.sessions.sessions
      modifies this, users, auth.sessions
      ensures Valid() && UsedOnlyGrows(old(otps), otps) && jobs == old(jobs)
      ensures VerifyDone(otpId, code, deviceInfo, ip, email, phone, d, r, old(otps), otps,
                         old(users.rows), users.rows, old(auth.sessions.sessions), auth.sessions.sessions)
    {
      var c := CheckOtp(otps, otpId, code, d.now);
      if !c.Accepted? {
        return Fail(BadRequest, RejectionMessage(c));
      }
      var owner := users.FindById(c.otp.userId);
      if owner.None? {
        return Fail(BadRequest, "User not found");
      }
      var u := owner.value;
      var failure := CheckRecipientOf(u, email, phone);
      if failure.Some? {
        return Fail(BadRequest, failure.value);
      }
      u := SeenUser(u, email, phone);
      otps := MarkUsed(otps, otpId);
      if c.otp.purpose == Login {
        var t := auth.SignTokensForUser(u, deviceInfo, ip, d);
        return Ok(SignedIn(t));
      }
      return Ok(PurposeVerified(u.id, c.otp.purpose));
    }

    /**
     * The address checks of `verifyOtp` (lines 102-118), each match writing
     * its verification flag before the next check runs.
     */
    method CheckRecipientOf(u: User, email: Option<string>, phone: Option<string>) returns (failure: Option<string>)
      requires Valid()
      modifies users
      ensures Valid()
      ensures RecipientOutcome(failure, users.rows) == CheckRecipient(old(users.rows), u, email, phone)
    {
      if Present(email) {
        if !EmailMatches(u, email.value) {
          return Some(EmailMismatchMessage);
        }
        users.Update(u.id, MarkEmailVerified);
      }
      if Present(phone) {
        if !PhoneMatches(u, phone.value) {
          return Some(PhoneMismatchMessage);
        }
        users.Update(u.id, MarkPhoneVerified);
      }
      return None;
    }

    /** `invalidateOtp(otpId)`. */
    method InvalidateOtp(otpId: string)
      requires Valid()
      modifies this
      ensures Valid() && UsedOnlyGrows(old(otps), otps) && jobs == old(jobs)
      ensures otps == MarkUsed(old(otps), otpId)
    {
      otps := MarkUsed(otps, otpId);
    }

    /** `invalidateUnusedOtpsForUser(userId, purpose)`. */
    method InvalidateUnusedOtpsForUser(userId: string, purpose: Purpose)
      requires Valid()
      modifies this
      ensures Valid() && UsedOnlyGrows(old(otps), otps) && jobs == old(jobs)
      ensures otps == InvalidateUnused(old(otps), userId, purpose)
    {
      InvalidateUnusedEffect(otps, userId, purpose);
      otps := InvalidateUnused(otps, userId, purpose);
    }

    /** `addOtpJob(data)`: the queue either accepts the job or the call throws. */
    method AddOtpJob(data: OtpJobData, fails: bool) returns (queued: bool)
      modifies this
      ensures queued == !fails
      ensures otps == old(otps)
      ensures jobs == if fails then old(jobs) else old(jobs) + [data]
    {
      if fails {
        return false;
      }
      jobs := jobs + [data];
      return true;
    }

    /**
     * `resendOtp(dto)`: find the owner, invalidate the unused codes of that
     * purpose, issue a new one and queue it; when queueing fails, the new code
     * is invalidated too.
     */
    method ResendOtp(dto: ResendRequest, now: int, draw: nat, newId: string, enqueueFails: bool)
      returns (r: Result<Resent>)
      requires Valid() && draw < 900000 && newId !in otps
      requires dto.loginType == Auth.PHONE ==> dto.phone.Some?
      requires dto.loginType == Auth.EMAIL ==> dto.email.Some?
      modifies this
      ensures Valid() && UsedOnlyGrows(old(otps), otps)
      ensures var owner := ResendOwner(old(users.rows), dto);
        owner.Err? ==> r == Err(owner.error) && otps == old(otps) && jobs == old(jobs)
      ensures var owner := ResendOwner(old(users.rows), dto);
        owner.Ok? ==>
          var code := GenerateNumericOtp(6, draw);
          var live := InvalidateUnused(old(otps), owner.value.id, dto.purpose)
                        [newId := IssuedRecord(newId, owner.value.id, dto.purpose, code, now + ttlMinutes * MinuteMs)];
          if enqueueFails then
            r == Fail(BadRequest, EnqueueFailedMessage) && otps == MarkUsed(live, newId) && jobs == old(jobs)
          else
            r == Ok(Resent(newId, owner.value.id, "OTP resent successfully")) && otps == live
            && jobs == old(jobs) + [ResendJob(dto, code, owner.value.id, newId)]
    {
      var owner := ResendOwner(users.rows, dto);
      if owner.Err? {
        return Err(owner.error);
      }
      var user := owner.value;
      InvalidateUnusedOtpsForUser(user.id, dto.purpose);
      var otpId, code := CreateOtp(user.id, dto.purpose, Some(ttlMinutes), now, draw, newId);
      var queued := AddOtpJob(ResendJob(dto, code, user.id, otpId), enqueueFails);
      if !queued {
        InvalidateOtp(otpId);
        return Fail(BadRequest, EnqueueFailedMessage);
      }
      return Ok(Resent(otpId, user.id, "OTP resent successfully"));
    }
  }
}
