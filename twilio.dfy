/**
 * The SMS gateway wrapper, src/common/services/twilio.service.ts: its
 * configuration state, the phone formatting and message templates, and how
 * a send attempt turns into success or an error message. The network call
 * itself is the `outcome` parameter.
 */
module Twilio {
  import opened Wrappers
  import opened Strings

  /** The configuration values the service reads; None is an unset variable. */
  datatype Config = Config(
    enabled: Option<string>,
    phoneNumber: Option<string>,
    accountSid: Option<string>,
    authToken: Option<string>,
    otpTtlMinutes: Option<string>)

  /**
   * What `twilioClient.messages.create` does: it resolves with the message
   * resource (its status, error code and error message; unset codes are
   * null), or it rejects with an error carrying an optional code and message.
   */
  datatype ClientOutcome =
    | Created(status: string, errorCode: Option<int>, errorMessage: Option<string>)
    | Rejected(code: Option<int>, message: Option<string>)

  const NotInitialisedMessage: string := "Twilio client is not initialized. Check your configuration."
  const AuthFailedMessage: string :=
    "Twilio authentication failed. Please check your TWILIO_ACCOUNT_SID and TWILIO_AUTH_TOKEN are correct."

  /** `formatPhoneNumber`: keep digits and '+', and insist on a leading '+'. */
  function FormatPhoneNumber(phone: string): (r: Result<string>)
    ensures r.Ok? <==> StartsWith(Filter(phone, IsPhoneChar), "+")
    ensures r.Ok? ==> r.value == Filter(phone, IsPhoneChar)
    ensures r.Ok? ==> StartsWith(r.value, "+") && forall i :: 0 <= i < |r.value| ==> IsPhoneChar(r.value[i])
    ensures r.Err? ==> (r.error.message ==
      "Phone number must include country code. Received: " + phone
      + ", Expected format: +[country code][number] (e.g., +917015935344 for India)")
  {
    var cleaned := Filter(phone, IsPhoneChar);
    if StartsWith(cleaned, "+") then Ok(cleaned)
    else Fail(InternalServerError, "Phone number must include country code. Received: " + phone
                                   + ", Expected format: +[country code][number] (e.g., +917015935344 for India)")
  }

  /** A formatted number formats to itself. */
  lemma FormatPhoneNumberIdempotent(phone: string)
    requires FormatPhoneNumber(phone).Ok?
    ensures FormatPhoneNumber(FormatPhoneNumber(phone).value) == FormatPhoneNumber(phone)
  {
    FilterIdempotent(phone, IsPhoneChar);
  }

  /** How `${...}` renders the configured TTL: an unset value prints as 'undefined'. */
  function TtlText(ttl: Option<string>): string
  {
    if ttl.Some? then ttl.value else "undefined"
  }

  /** The wording of `purposeMessages[purpose] || <verify wording>`. */
  function PurposeLead(purpose: string): string
  {
    if purpose == "login" then "login"
    else if purpose == "reset" then "password reset"
    else "verification"
  }

  /** `createOtpMessage(code, purpose)`. */
  function CreateOtpMessage(code: string, purpose: string, ttl: Option<string>): (m: string)
    ensures Contains(m, code) && Contains(m, TtlText(ttl))
    ensures StartsWith(m, "Your " + PurposeLead(purpose) + " code is: ")
  {
    var prefix := "Your " + PurposeLead(purpose) + " code is: ";
    var middle := ". This code will expire in ";
    var m := prefix + code + middle + TtlText(ttl) + " minutes.";
    ContainsInfix(prefix, code, middle + TtlText(ttl) + " minutes.");
    assert prefix + code + middle + TtlText(ttl) + " minutes." == prefix + code + (middle + TtlText(ttl) + " minutes.");
    ContainsInfix(prefix + code + middle, TtlText(ttl), " minutes.");
    assert m[..|prefix|] == prefix;
    m
  }

  /**
   * The names `purposeMessages[purpose]` finds on `Object.prototype` rather
   * than in the literal; for them the lookup yields a member, not a message.
   */
  predicate InheritedKey(purpose: string)
  {
    purpose in {"constructor", "toString", "toLocaleString", "valueOf", "hasOwnProperty",
                "isPrototypeOf", "propertyIsEnumerable", "__proto__", "__defineGetter__",
                "__defineSetter__", "__lookupGetter__", "__lookupSetter__"}
  }

  /** Any purpose other than 'login', 'reset' and the inherited names gets the verify wording. */
  lemma UnknownPurposeVerifyWording(code: string, purpose: string, ttl: Option<string>)
    requires purpose != "login" && purpose != "reset" && !InheritedKey(purpose)
    ensures CreateOtpMessage(code, purpose, ttl) == CreateOtpMessage(code, "verify", ttl)
  {
  }

  /** `error.code === 20003 || error.message?.includes('Authenticate')`. */
  predicate IsAuthFailure(code: Option<int>, message: Option<string>)
  {
    code == Some(20003) || (message.Some? && Contains(message.value, "Authenticate"))
  }

  /** The message the `catch` of `sendOtpSms` rethrows for a client error. */
  function ErrorMessage(code: Option<int>, message: Option<string>, formattedPhone: string, from: string): (m: string)
    ensures |m| > 0
    ensures IsAuthFailure(code, message) ==> m == AuthFailedMessage
    ensures !IsAuthFailure(code, message) && code == Some(21211) ==>
      m == "Invalid phone number format: " + formattedPhone + ". Please ensure the phone number is in E.164 format."
    ensures !IsAuthFailure(code, message) && code == Some(21614) ==>
      m == "Invalid 'from' phone number: " + from + ". Please verify your TWILIO_PHONE_NUMBER is correct and verified in Twilio."
    ensures !IsAuthFailure(code, message) && code != Some(21211) && code != Some(21614) ==>
      m == if Present(message) then message.value else "Unknown error occurred"
  {
    if IsAuthFailure(code, message) then AuthFailedMessage
    else if code == Some(21211) then
      "Invalid phone number format: " + formattedPhone + ". Please ensure the phone number is in E.164 format."
    else if code == Some(21614) then
      "Invalid 'from' phone number: " + from + ". Please verify your TWILIO_PHONE_NUMBER is correct and verified in Twilio."
    else if Present(message) then message.value
    else "Unknown error occurred"
  }

  /** The error a resolved but failed message resource raises inside the `try`. */
  function FailedResourceText(status: string, errorCode: Option<int>, errorMessage: Option<string>): string
  {
    "Twilio error: " + (if Present(errorMessage) then errorMessage.value else "Unknown error")
    + " (Code: " + (if errorCode.Some? then IntToString(errorCode.value) else "null")
    + ", Status: " + status + ")"
  }

  /** `messageResponse.status === 'failed' || messageResponse.errorCode`. */
  predicate ResourceFailed(status: string, errorCode: Option<int>)
  {
    status == "failed" || (errorCode.Some? && errorCode.value != 0)
  }

  /** Whether `onModuleInit` ends with a client. */
  predicate ClientCreated(config: Config, creationFails: bool)
  {
    config.enabled == Some("true") && Present(config.accountSid) && Present(config.authToken)
    && Present(config.phoneNumber) && !creationFails
  }

  class TwilioService {
    const config: Config
    const isEnabled: bool
    const fromPhoneNumber: string
    /** Whether `twilioClient` is non-null. */
    var hasClient: bool

    constructor(config: Config)
      ensures this.config == config
      ensures isEnabled <==> config.enabled == Some("true")
      ensures fromPhoneNumber == if Present(config.phoneNumber) then config.phoneNumber.value else ""
      ensures !hasClient
    {
      this.config := config;
      isEnabled := config.enabled == Some("true");
      fromPhoneNumber := if Present(config.phoneNumber) then config.phoneNumber.value else "";
      hasClient := false;
    }

    /**
     * `onModuleInit`: creates the client only when enabled, with both
     * credentials and a from-number; `creationFails` is a throwing
     * `twilio(...)` factory, which is logged and leaves no client.
     */
    method OnModuleInit(creationFails: bool)
      modifies this
      ensures hasClient == (old(hasClient) || (isEnabled && Present(config.accountSid) && Present(config.authToken)
                                               && fromPhoneNumber != "" && !creationFails))
    {
      if isEnabled {
        if !Present(config.accountSid) || !Present(config.authToken) {
          return;
        }
        if fromPhoneNumber == "" {
          return;
        }
        if !creationFails {
          hasClient := true;
        }
      }
    }

    /** `isConfigured()`. */
    predicate IsConfigured()
      reads this
    {
      isEnabled && hasClient && fromPhoneNumber != ""
    }

    /**
     * `sendOtpSms(phone, code, purpose)`: disabled sends succeed without the
     * client; a missing client and an unformattable number throw before the
     * client is called; a rejected or failed create is rethrown with the
     * mapped message.
     */
    function SendOtpSms(phone: string, code: string, purpose: string, outcome: ClientOutcome): (r: Result<()>)
      reads this
      ensures !isEnabled ==> r.Ok?
      ensures isEnabled && !hasClient ==> r == Fail(InternalServerError, NotInitialisedMessage)
      ensures isEnabled && hasClient && FormatPhoneNumber(phone).Err? ==> r == Err(FormatPhoneNumber(phone).error)
      ensures r.Ok? <==>
        !isEnabled || (hasClient && FormatPhoneNumber(phone).Ok? && outcome.Created?
                       && !ResourceFailed(outcome.status, outcome.errorCode))
      ensures isEnabled && hasClient && FormatPhoneNumber(phone).Ok? && outcome.Rejected? ==>
        r == Fail(InternalServerError, ErrorMessage(outcome.code, outcome.message,
                                                    FormatPhoneNumber(phone).value, fromPhoneNumber))
    {
      if !isEnabled then Ok(())
      else if !hasClient then Fail(InternalServerError, NotInitialisedMessage)
      else
        var formatted := FormatPhoneNumber(phone);
        if formatted.Err? then Err(formatted.error)
        else
          match outcome
          case Created(status, errorCode, errorMessage) =>
            if ResourceFailed(status, errorCode) then
              var thrown := FailedResourceText(status, errorCode, errorMessage);
              Fail(InternalServerError, ErrorMessage(None, Some(thrown), formatted.value, fromPhoneNumber))
            else Ok(())
          case Rejected(errorCode, message) =>
            Fail(InternalServerError, ErrorMessage(errorCode, message, formatted.value, fromPhoneNumber))
    }
  }

  /**
   * Application start-up, construction followed by `onModuleInit`: the
   * service is configured exactly when TWILIO_ENABLED is 'true', both
   * credentials and the from-number are set, and the client factory does
   * not throw.
   */
  method Start(config: Config, creationFails: bool) returns (t: TwilioService)
    ensures t.config == config
    ensures t.IsConfigured() <==> ClientCreated(config, creationFails)
  {
    t := new TwilioService(config);
    t.OnModuleInit(creationFails);
  }
}
