/**
 * What the two OTP ledgers (src/modules/otp/otp.service.ts and
 * src/otp/otp.service.ts) share: the OTP row, the numeric code generator and
 * the order of the checks a presented code goes through.
 */
module OtpCodes {
  import opened Wrappers
  import opened Strings
  import opened Crypto

  /** OtpPurpose: 'login' | 'reset' | 'verify'. */
  datatype Purpose = Login | Reset | Verify

  function PurposeName(p: Purpose): string
  {
    match p
    case Login => "login"
    case Reset => "reset"
    case Verify => "verify"
  }

  const MinuteMs: int := 60000

  /** A row of the `otps` table; only the bcrypt digest of the code is kept. */
  datatype OtpRecord = OtpRecord(
    id: string,
    userId: string,
    purpose: Purpose,
    codeHash: string,
    expiresAt: int,
    used: bool)

  /**
   * `generateNumericOtp(length)`: `Math.floor(Math.random() * (max - min + 1)) + min`
   * rendered with `toString()`, where `draw` is the value of the `Math.floor(...)`
   * term, any integer from 0 to max - min.
   */
  function GenerateNumericOtp(length: nat, draw: nat): (code: string)
    requires 1 <= length
    requires draw <= Pow10(length) - 1 - Pow10(length - 1)
    ensures |code| == length && AllDigits(code) && code[0] != '0'
    ensures ParseDigits(code) == Pow10(length - 1) + draw
    ensures Pow10(length - 1) <= ParseDigits(code) <= Pow10(length) - 1
  {
    var n := Pow10(length - 1) + draw;
    ParseNatToString(n);
    NatToStringLength(n, length);
    NatToString(n)
  }

  /** The six-digit codes both ledgers issue: 100000 to 999999. */
  lemma SixDigitCode(draw: nat)
    requires draw < 900000
    ensures |GenerateNumericOtp(6, draw)| == 6
    ensures 100000 <= ParseDigits(GenerateNumericOtp(6, draw)) <= 999999
  {
  }

  /** The outcome of the checks a presented (otpId, code) pair goes through, in source order. */
  datatype OtpCheck = Unknown | AlreadyUsed | Expired | WrongCode | Accepted(otp: OtpRecord)

  function CheckOtp(otps: map<string, OtpRecord>, otpId: string, code: string, now: int): (c: OtpCheck)
    ensures c.Accepted? <==>
      otpId in otps && !otps[otpId].used && now <= otps[otpId].expiresAt
      && Compare(code, otps[otpId].codeHash)
    ensures c.Accepted? ==> c.otp == otps[otpId]
    ensures c == Unknown <==> otpId !in otps
    ensures c == AlreadyUsed <==> otpId in otps && otps[otpId].used
  {
    if otpId !in otps then Unknown
    else
      var otp := otps[otpId];
      if otp.used then AlreadyUsed
      else if otp.expiresAt < now then Expired
      else if !Compare(code, otp.codeHash) then WrongCode
      else Accepted(otp)
  }

  /** The row a ledger stores for a freshly issued code. */
  function IssuedRecord(id: string, userId: string, purpose: Purpose, code: string, expiresAt: int): OtpRecord
  {
    OtpRecord(id, userId, purpose, Hash(code), expiresAt, false)
  }

  /**
   * A freshly issued code is accepted up to and including its expiry instant,
   * and only that code is: issued codes are far shorter than the 72
   * characters bcrypt reads, so no longer text can share its digest.
   */
  lemma IssuedCodeAccepted(otps: map<string, OtpRecord>, id: string, userId: string, purpose: Purpose,
                           code: string, presented: string, expiresAt: int, now: int)
    requires now <= expiresAt && |code| < BcryptMaxLength
    ensures var rec := IssuedRecord(id, userId, purpose, code, expiresAt);
      CheckOtp(otps[id := rec], id, presented, now) == (if presented == code then Accepted(rec) else WrongCode)
  {
    CompareHash(code, presented);
  }

  /** One instant after its expiry, an unused code is reported expired whatever is presented. */
  lemma ExpiredAfterDeadline(otps: map<string, OtpRecord>, id: string, code: string, now: int)
    requires id in otps && !otps[id].used && otps[id].expiresAt < now
    ensures CheckOtp(otps, id, code, now) == Expired
  {
  }

  /** `update({ id }, { used: true })`: an unknown id changes nothing. */
  function MarkUsed(otps: map<string, OtpRecord>, id: string): (r: map<string, OtpRecord>)
  {
    if id in otps then otps[id := otps[id].(used := true)] else otps
  }

  /** Marking a row used is idempotent, touches no other row, and no code is ever accepted for it again. */
  lemma MarkUsedFinal(otps: map<string, OtpRecord>, id: string, code: string, now: int)
    ensures MarkUsed(MarkUsed(otps, id), id) == MarkUsed(otps, id)
    ensures MarkUsed(otps, id).Keys == otps.Keys
    ensures forall k :: k in otps && k != id ==> MarkUsed(otps, id)[k] == otps[k]
    ensures CheckOtp(MarkUsed(otps, id), id, code, now) == (if id in otps then AlreadyUsed else Unknown)
  {
  }

  /** `used` only ever goes from false to true, and no row disappears or changes anything else. */
  ghost predicate UsedOnlyGrows(before: map<string, OtpRecord>, after: map<string, OtpRecord>)
  {
    forall k :: k in before ==>
      k in after && after[k].(used := before[k].used) == before[k] && (before[k].used ==> after[k].used)
  }

  /** Each ledger's `Valid`: a row is stored under its own id. */
  ghost predicate KeyedById(otps: map<string, OtpRecord>)
  {
    forall k :: k in otps ==> otps[k].id == k
  }
}
