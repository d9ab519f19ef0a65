/**
 * The older OTP ledger, src/otp/otp.service.ts, which the auth service still
 * uses. It differs from the current ledger in its 5-minute default TTL and in
 * reporting a used code as 'OTP already used'.
 */
module LegacyOtp {
  import opened Wrappers
  import opened Strings
  import opened Crypto
  import opened OtpCodes

  const DefaultTtlMinutes: int := 5

  /** What a successful `verifyOtp` returns. */
  datatype Verified = Verified(userId: string, purpose: Purpose)

  /** The message each failed check raises, all as BadRequest. */
  function RejectionMessage(c: OtpCheck): string
    requires !c.Accepted?
  {
    match c
    case Unknown => "Invalid OTP"
    case AlreadyUsed => "OTP already used"
    case Expired => "OTP expired"
    case WrongCode => "Invalid OTP"
  }

  /** The outcome `verifyOtp` reports for a check, as a pure function of it. */
  function VerifyOutcome(c: OtpCheck): (r: Result<Verified>)
    ensures r.Ok? <==> c.Accepted?
    ensures c.Accepted? ==> r.value == Verified(c.otp.userId, c.otp.purpose)
    ensures r.Err? ==> r.error.status == BadRequest
  {
    if c.Accepted? then Ok(Verified(c.otp.userId, c.otp.purpose))
    else Fail(BadRequest, RejectionMessage(c))
  }

  /** A code that has been accepted once is reported as already used on every later attempt. */
  lemma {:induction false} SecondVerifyFails(otps: map<string, OtpRecord>, id: string, code: string, now: int,
                                             code2: string, later: int)
    requires CheckOtp(otps, id, code, now).Accepted?
    ensures VerifyOutcome(CheckOtp(MarkUsed(otps, id), id, code2, later)) == Fail(BadRequest, "OTP already used")
  {
    MarkUsedFinal(otps, id, code2, later);
  }

  class OtpService {
    var otps: map<string, OtpRecord>

    ghost predicate Valid()
      reads this
    {
      KeyedById(otps)
    }

    constructor()
      ensures otps == map[] && Valid()
    {
      otps := map[];
    }

    /**
     * `createOtp(userId, purpose, ttlMinutes = 5)`. `draw` is the random draw of
     * the code generator and `newId` the UUID the database assigns.
     */
    method CreateOtp(userId: string, purpose: Purpose, ttlMinutes: Option<int>, now: int, draw: nat, newId: string)
      returns (otpId: string, code: string)
      requires Valid() && draw < 900000 && newId !in otps
      modifies this
      ensures Valid() && UsedOnlyGrows(old(otps), otps)
      ensures otpId == newId && code == GenerateNumericOtp(6, draw)
      ensures var ttl := if ttlMinutes.Some? then ttlMinutes.value else DefaultTtlMinutes;
        otps == old(otps)[newId := IssuedRecord(newId, userId, purpose, code, now + ttl * MinuteMs)]
    {
      code := GenerateNumericOtp(6, draw);
      var ttl := if ttlMinutes.Some? then ttlMinutes.value else DefaultTtlMinutes;
      otps := otps[newId := IssuedRecord(newId, userId, purpose, code, now + ttl * MinuteMs)];
      otpId := newId;
    }

    /**
     * `verifyOtp(otpId, code)`: unknown id, used, expired (expiresAt < now) and
     * wrong code are rejected in that order and leave the ledger as it was;
     * success marks the row used and returns its owner and purpose.
     */
    method VerifyOtp(otpId: string, code: string, now: int) returns (r: Result<Verified>)
      requires Valid()
      modifies this
      ensures Valid() && UsedOnlyGrows(old(otps), otps)
      ensures r == VerifyOutcome(CheckOtp(old(otps), otpId, code, now))
      ensures otps == if r.Ok? then MarkUsed(old(otps), otpId) else old(otps)
    {
      var c := CheckOtp(otps, otpId, code, now);
      r := VerifyOutcome(c);
      if c.Accepted? {
        otps := MarkUsed(otps, otpId);
      }
    }

    /** `invalidateOtp(otpId)`. */
    method InvalidateOtp(otpId: string)
      requires Valid()
      modifies this
      ensures Valid() && UsedOnlyGrows(old(otps), otps)
      ensures otps == MarkUsed(old(otps), otpId)
    {
      otps := MarkUsed(otps, otpId);
    }
  }
}
