/**
 * The 'otp' queue worker, src/queue/processors/otp.processor.ts: it picks
 * the delivery channel of a job, and when delivery fails on the last allowed
 * attempt it invalidates the OTP before rethrowing.
 */
module OtpProcessor {
  import opened Wrappers
  import opened OtpCodes
  import OtpLedger
  import Twilio

  /** A queued job: its data, the attempts already made and the `attempts` option it was added with. */
  datatype Job = Job(data: OtpLedger.OtpJobData, attemptsMade: nat, attempts: Option<int>)

  datatype Channel = EmailChannel(email: string) | SmsChannel(phone: string)

  const NoRecipientMessage: string := "Either email or phone must be provided"

  /** The email channel whenever an email is present; SMS only without one. */
  function ChooseChannel(data: OtpLedger.OtpJobData): (r: Result<Channel>)
    ensures Present(data.email) ==> r == Ok(EmailChannel(data.email.value))
    ensures !Present(data.email) && Present(data.phone) ==> r == Ok(SmsChannel(data.phone.value))
    ensures r.Err? <==> !Present(data.email) && !Present(data.phone)
    ensures r.Err? ==> r == Fail(InternalServerError, NoRecipientMessage)
  {
    if Present(data.email) then Ok(EmailChannel(data.email.value))
    else if Present(data.phone) then Ok(SmsChannel(data.phone.value))
    else Fail(InternalServerError, NoRecipientMessage)
  }

  /** `job.opts?.attempts || 3`. */
  function AllowedAttempts(attempts: Option<int>): int
  {
    if attempts.Some? && attempts.value != 0 then attempts.value else 3
  }

  /** `job.attemptsMade >= (job.opts?.attempts || 3) - 1`. */
  predicate IsFinalAttempt(job: Job)
  {
    job.attemptsMade >= AllowedAttempts(job.attempts) - 1
  }

  /**
   * With the three attempts `addOtpJob` asks for, or with none given, only the
   * third attempt (two already made) and later ones are final, and once an
   * attempt is final every later one is too.
   */
  lemma FinalAttemptRule(job: Job, later: nat)
    requires job.attempts == Some(3) || job.attempts == None || job.attempts == Some(0)
    requires later >= job.attemptsMade
    ensures IsFinalAttempt(job) <==> job.attemptsMade >= 2
    ensures IsFinalAttempt(job) ==> IsFinalAttempt(job.(attemptsMade := later))
  {
  }

  /** The result of one delivery attempt; the email channel has no failure mode. */
  function Deliver(job: Job, twilio: Twilio.TwilioService, sms: Twilio.ClientOutcome): (r: Result<()>)
    reads twilio
    ensures Present(job.data.email) ==> r.Ok?
    ensures !Present(job.data.email) && !Present(job.data.phone) ==> r == Fail(InternalServerError, NoRecipientMessage)
    ensures !Present(job.data.email) && Present(job.data.phone) ==>
      r == twilio.SendOtpSms(job.data.phone.value, job.data.code, PurposeName(job.data.purpose), sms)
  {
    var channel := ChooseChannel(job.data);
    if channel.Err? then Err(channel.error)
    else
      match channel.value
      case EmailChannel(_) => Ok(())
      case SmsChannel(phone) => twilio.SendOtpSms(phone, job.data.code, PurposeName(job.data.purpose), sms)
  }

  class OtpProcessor {
    const ledger: OtpLedger.OtpService
    const twilio: Twilio.TwilioService

    constructor(ledger: OtpLedger.OtpService, twilio: Twilio.TwilioService)
      ensures this.ledger == ledger && this.twilio == twilio
    {
      this.ledger := ledger;
      this.twilio := twilio;
    }

    /**
     * `process(job)`: every failure is rethrown; the OTP is invalidated only
     * when the failing attempt is the final one, and a successful delivery
     * leaves the ledger alone.
     */
    method Process(job: Job, sms: Twilio.ClientOutcome) returns (r: Result<()>)
      requires ledger.Valid()
      modifies ledger
      ensures ledger.Valid() && UsedOnlyGrows(old(ledger.otps), ledger.otps) && ledger.jobs == old(ledger.jobs)
      ensures r == Deliver(job, twilio, sms)
      ensures ledger.otps ==
        if r.Err? && IsFinalAttempt(job) then MarkUsed(old(ledger.otps), job.data.otpId) else old(ledger.otps)
    {
      r := Deliver(job, twilio, sms);
      if r.Err? && IsFinalAttempt(job) {
        ledger.InvalidateOtp(job.data.otpId);
      }
    }
  }
}
