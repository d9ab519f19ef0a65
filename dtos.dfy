/**
 * The request DTOs with their own rules: LoginDto and SocialLoginDto,
 * VerifyOtpDto, ResendOtpDto, ResetPasswordDto and CompleteProfileDto. A
 * DTO is a record of the values its fields arrive with (Undefined when a
 * field is missing). Each DTO has its implicit conversion to the declared
 * field types, then its transform, both of which run before validation, and
 * a predicate saying whether the converted and transformed record passes
 * every check, with `@ValidateIf` and `@IsOptional` skipping a property's
 * checks as class-validator does.
 */
module Dtos {
  import opened Strings
  import opened Json
  import opened Validators
  import Auth

  // ---------------------------------------------------------------------
  // LoginDto and SocialLoginDto

  datatype LoginDto = LoginDto(kind: Value, phone: Value, email: Value, password: Value, deviceId: Value, ip: Value)

  /** Every LoginDto field is declared as a string (the provider enum's values are strings). */
  function LoginConvert(d: LoginDto): LoginDto
  {
    LoginDto(AsString(d.kind), AsString(d.phone), AsString(d.email), AsString(d.password),
             AsString(d.deviceId), AsString(d.ip))
  }

  function LoginTransform(d: LoginDto): (r: LoginDto)
  {
    d.(phone := PhoneTransform(d.phone), email := EmailTransform(d.email), password := TrimTransform(d.password))
  }

  /** The checks of LoginDto on a transformed record. */
  predicate LoginChecks(d: LoginDto, isEmail: string -> bool)
  {
    IsProvider(d.kind)
    && (IsProviderOf(d.kind, Auth.PHONE) ==> NotEmpty(d.phone) && IsString(d.phone) && MatchesPhone(d.phone))
    && (IsProviderOf(d.kind, Auth.EMAIL) ==> NotEmpty(d.email) && IsEmail(d.email, isEmail))
    && (IsProviderOf(d.kind, Auth.EMAIL) ==> NotEmpty(d.password) && IsString(d.password))
    && (Absent(d.deviceId) || IsString(d.deviceId))
    && (Absent(d.ip) || IsString(d.ip))
  }

  predicate LoginValid(d: LoginDto, isEmail: string -> bool)
  {
    LoginChecks(LoginTransform(LoginConvert(d)), isEmail)
  }

  /**
   * The phone is checked only for a PHONE login and the e-mail and password
   * only for an EMAIL login: on any other login type those fields may hold
   * anything.
   */
  lemma LoginChecksFollowType(d: LoginDto, isEmail: string -> bool, v: Value, w: Value, x: Value)
    ensures !IsProviderOf(d.kind, Auth.PHONE) ==> (LoginValid(d, isEmail) <==> LoginValid(d.(phone := v), isEmail))
    ensures !IsProviderOf(d.kind, Auth.EMAIL) ==>
      (LoginValid(d, isEmail) <==> LoginValid(d.(email := w, password := x), isEmail))
  {
    ProviderAfterConversion(d.kind);
    var c := LoginConvert(d);
    assert LoginConvert(d.(phone := v)) == c.(phone := AsString(v));
    assert LoginConvert(d.(email := w, password := x)) == c.(email := AsString(w), password := AsString(x));
  }

  /**
   * A PHONE login passes only when the phone is a single value whose text,
   * stripped of whitespace, '-', '(' and ')', matches the pattern; an EMAIL
   * login whose password is missing, an array or only whitespace is refused.
   */
  lemma LoginPhoneAndPassword(d: LoginDto, isEmail: string -> bool)
    ensures IsProviderOf(d.kind, Auth.PHONE) && LoginValid(d, isEmail) ==>
      Scalar(d.phone) && IsE164(StripPhone(ScalarText(d.phone)))
    ensures IsProviderOf(d.kind, Auth.EMAIL) && !Scalar(d.password) ==> !LoginValid(d, isEmail)
    ensures IsProviderOf(d.kind, Auth.EMAIL) && d.password.Str?
            && (forall i :: 0 <= i < |d.password.s| ==> IsWhitespace(d.password.s[i])) ==>
      !LoginValid(d, isEmail)
  {
    ProviderAfterConversion(d.kind);
    var c := LoginConvert(d);
    ConvertedLoginFields(c, isEmail);
    if IsProviderOf(d.kind, Auth.PHONE) && LoginValid(d, isEmail) {
      ConvertedPhoneText(d.phone);
    }
    if d.password.Str? && forall i :: 0 <= i < |d.password.s| ==> IsWhitespace(d.password.s[i]) {
      TrimBlank(d.password.s);
      ConversionsIdempotent(d.password);
    }
  }

  /** What LoginChecks asks of the transformed phone and password. */
  lemma ConvertedLoginFields(c: LoginDto, isEmail: string -> bool)
    ensures IsProviderOf(c.kind, Auth.PHONE) && LoginChecks(LoginTransform(c), isEmail) ==> MatchesPhone(PhoneTransform(c.phone))
    ensures IsProviderOf(c.kind, Auth.EMAIL) && LoginChecks(LoginTransform(c), isEmail) ==>
      c.password.Str? && Trim(c.password.s) != ""
  {
  }

  /** A converted value that matches the pattern once stripped came from a single value with that text. */
  lemma ConvertedPhoneText(v: Value)
    requires MatchesPhone(PhoneTransform(AsString(v)))
    ensures Scalar(v) && IsE164(StripPhone(ScalarText(v)))
  {
  }

  /** A PHONE login whose stripped phone matches the pattern, with no device id or ip, is accepted. */
  lemma PhoneLoginAccepted(phone: string, email: Value, password: Value, isEmail: string -> bool)
    requires IsE164(StripPhone(phone))
    ensures LoginValid(LoginDto(Str("phone"), Str(phone), email, password, Undefined, Undefined), isEmail)
  {
    var d := LoginDto(Str("phone"), Str(phone), email, password, Undefined, Undefined);
    ConversionsIdempotent(Str("phone"));
    ConversionsIdempotent(Str(phone));
    assert LoginConvert(d) == LoginDto(Str("phone"), Str(phone), AsString(email), AsString(password), Undefined, Undefined);
    ConvertedPhoneLogin(LoginConvert(d), isEmail);
  }

  lemma ConvertedPhoneLogin(c: LoginDto, isEmail: string -> bool)
    requires c.kind == Str("phone") && c.deviceId == Undefined && c.ip == Undefined
    requires MatchesPhone(PhoneTransform(c.phone))
    ensures LoginChecks(LoginTransform(c), isEmail)
  {
    var t := LoginTransform(c);
    ProviderValuesAreMembers();
    assert IsProvider(t.kind) && IsProviderOf(t.kind, Auth.PHONE) && !IsProviderOf(t.kind, Auth.EMAIL);
    MatchingPhoneNotEmpty(t.phone);
  }

  lemma MatchingPhoneNotEmpty(v: Value)
    requires MatchesPhone(v)
    ensures NotEmpty(v) && IsString(v)
  {
    E164Shape(v.s);
  }

  /**
   * The phone may also arrive as a JSON number: the implicit conversion
   * turns it into its decimal text, so any number of 8 to 15 digits logs in.
   */
  lemma NumericPhoneLoginAccepted(n: nat, k: nat, email: Value, password: Value, isEmail: string -> bool)
    requires 8 <= k <= 15 && Pow10(k - 1) <= n < Pow10(k)
    ensures LoginValid(LoginDto(Str("phone"), Num(n), email, password, Undefined, Undefined), isEmail)
  {
    var text := NumberPhoneText(n, k);
    PhoneLoginAccepted(text, email, password, isEmail);
    assert LoginConvert(LoginDto(Str("phone"), Num(n), email, password, Undefined, Undefined))
        == LoginConvert(LoginDto(Str("phone"), Str(text), email, password, Undefined, Undefined));
  }

  /** A number of 8 to 15 digits converts to a text that needs no stripping and matches the pattern. */
  lemma NumberPhoneText(n: nat, k: nat) returns (text: string)
    requires 8 <= k <= 15 && Pow10(k - 1) <= n < Pow10(k)
    ensures AsString(Num(n)) == Str(text) && AsString(Str(text)) == Str(text)
    ensures IsE164(StripPhone(text))
  {
    text := NatToString(n);
    NumbersAreE164(n, k);
    E164Shape(text);
    StripPhoneKeepsClean(text);
    ConversionsIdempotent(Str(text));
  }

  datatype SocialLoginDto = SocialLoginDto(kind: Value, deviceId: Value, idToken: Value)

  function SocialLoginConvert(d: SocialLoginDto): SocialLoginDto
  {
    SocialLoginDto(AsString(d.kind), AsString(d.deviceId), AsString(d.idToken))
  }

  predicate SocialLoginChecks(d: SocialLoginDto)
  {
    NotEmpty(d.kind) && IsProvider(d.kind)
    && IsString(d.deviceId) && NotEmpty(d.deviceId)
    && (IsProviderOf(d.kind, Auth.GOOGLE) ==> IsString(d.idToken))
  }

  /** SocialLoginDto: a provider type, a non-empty device id, and an id token when the type is GOOGLE. */
  predicate SocialLoginValid(d: SocialLoginDto)
  {
    SocialLoginChecks(SocialLoginConvert(d))
  }

  /** The id token is required exactly for GOOGLE: any other type ignores it. */
  lemma SocialIdTokenOnlyForGoogle(d: SocialLoginDto, token: Value)
    ensures IsProviderOf(d.kind, Auth.GOOGLE) && !Scalar(d.idToken) ==> !SocialLoginValid(d)
    ensures !IsProviderOf(d.kind, Auth.GOOGLE) ==> (SocialLoginValid(d) <==> SocialLoginValid(d.(idToken := token)))
  {
    ProviderAfterConversion(d.kind);
    assert SocialLoginConvert(d.(idToken := token)) == SocialLoginConvert(d).(idToken := AsString(token));
  }

  // ---------------------------------------------------------------------
  // VerifyOtpDto

  datatype VerifyOtpDto = VerifyOtpDto(otpId: Value, code: Value, email: Value, phone: Value)

  function VerifyOtpConvert(d: VerifyOtpDto): VerifyOtpDto
  {
    VerifyOtpDto(AsString(d.otpId), AsString(d.code), AsString(d.email), AsString(d.phone))
  }

  function VerifyOtpTransform(d: VerifyOtpDto): (r: VerifyOtpDto)
  {
    d.(email := EmailTransform(d.email), phone := PhoneTransform(d.phone))
  }

  predicate VerifyOtpChecks(d: VerifyOtpDto, isEmail: string -> bool)
  {
    IsString(d.otpId) && NotEmpty(d.otpId)
    && IsString(d.code) && NotEmpty(d.code)
    && (Absent(d.email) || IsEmail(d.email, isEmail))
    && (Absent(d.phone) || (IsString(d.phone) && MatchesPhone(d.phone)))
    && EmailOrPhone(d.email, d.phone)
  }

  predicate VerifyOtpValid(d: VerifyOtpDto, isEmail: string -> bool)
  {
    VerifyOtpChecks(VerifyOtpTransform(VerifyOtpConvert(d)), isEmail)
  }

  /**
   * A valid VerifyOtpDto has an otpId and a code that are single values with
   * non-empty text, and an e-mail or a phone that is non-empty after its
   * transform; a record with neither is refused.
   */
  lemma VerifyOtpNeedsContact(d: VerifyOtpDto, isEmail: string -> bool)
    ensures VerifyOtpValid(d, isEmail) ==>
      Scalar(d.otpId) && ScalarText(d.otpId) != "" && Scalar(d.code) && ScalarText(d.code) != ""
      && ((Scalar(d.email) && Auth.NormalizeEmail(ScalarText(d.email)) != "")
          || (Scalar(d.phone) && StripPhone(ScalarText(d.phone)) != ""))
    ensures Absent(d.email) && Absent(d.phone) ==> !VerifyOtpValid(d, isEmail)
  {
    var c := VerifyOtpConvert(d);
    var t := VerifyOtpTransform(c);
    assert t.email == EmailTransform(AsString(d.email)) && t.phone == PhoneTransform(AsString(d.phone));
    if VerifyOtpValid(d, isEmail) {
      EmailOrPhoneOnStrings(t.email, t.phone);
    }
  }

  // ---------------------------------------------------------------------
  // ResendOtpDto

  const ResendPurposes: set<string> := {"login", "reset"}

  datatype ResendOtpDto = ResendOtpDto(purpose: Value, kind: Value, phone: Value, email: Value)

  /** The purpose is declared `'login' | 'reset'`, which is reflected as a string. */
  function ResendOtpConvert(d: ResendOtpDto): ResendOtpDto
  {
    ResendOtpDto(AsString(d.purpose), AsString(d.kind), AsString(d.phone), AsString(d.email))
  }

  function ResendOtpTransform(d: ResendOtpDto): (r: ResendOtpDto)
  {
    d.(phone := PhoneTransform(d.phone), email := EmailTransform(d.email))
  }

  predicate ResendOtpChecks(d: ResendOtpDto, isEmail: string -> bool)
  {
    IsString(d.purpose) && IsIn(d.purpose, ResendPurposes)
    && IsProvider(d.kind)
    && (IsProviderOf(d.kind, Auth.PHONE) ==> NotEmpty(d.phone) && IsString(d.phone) && MatchesPhone(d.phone))
    && (IsProviderOf(d.kind, Auth.EMAIL) ==> NotEmpty(d.email) && IsEmail(d.email, isEmail))
  }

  predicate ResendOtpValid(d: ResendOtpDto, isEmail: string -> bool)
  {
    ResendOtpChecks(ResendOtpTransform(ResendOtpConvert(d)), isEmail)
  }

  /**
   * Only 'login' and 'reset' may be resent ('verify' is refused); the phone
   * is required only for PHONE and the e-mail only for EMAIL.
   */
  lemma ResendPurposeRule(d: ResendOtpDto, isEmail: string -> bool)
    ensures ResendOtpValid(d, isEmail) ==> d.purpose == Str("login") || d.purpose == Str("reset")
    ensures d.purpose == Str("verify") ==> !ResendOtpValid(d, isEmail)
  {
    assert ResendOtpTransform(ResendOtpConvert(d)).purpose == AsString(d.purpose);
    AsStringOfWord(d.purpose, "login");
    AsStringOfWord(d.purpose, "reset");
  }

  lemma ResendContactRules(d: ResendOtpDto, isEmail: string -> bool, v: Value, w: Value)
    ensures IsProviderOf(d.kind, Auth.PHONE) && Absent(d.phone) ==> !ResendOtpValid(d, isEmail)
    ensures IsProviderOf(d.kind, Auth.EMAIL) && Absent(d.email) ==> !ResendOtpValid(d, isEmail)
    ensures !IsProviderOf(d.kind, Auth.PHONE) ==> (ResendOtpValid(d, isEmail) <==> ResendOtpValid(d.(phone := v), isEmail))
    ensures !IsProviderOf(d.kind, Auth.EMAIL) ==> (ResendOtpValid(d, isEmail) <==> ResendOtpValid(d.(email := w), isEmail))
  {
    ProviderAfterConversion(d.kind);
    var c := ResendOtpConvert(d);
    assert ResendOtpConvert(d.(phone := v)) == c.(phone := AsString(v));
    assert ResendOtpConvert(d.(email := w)) == c.(email := AsString(w));
  }

  // ---------------------------------------------------------------------
  // ResetPasswordDto

  const MinPasswordLength: nat := 6

  datatype ResetPasswordDto = ResetPasswordDto(resetToken: Value, newPassword: Value, confirmPassword: Value)

  function ResetPasswordConvert(d: ResetPasswordDto): ResetPasswordDto
  {
    ResetPasswordDto(AsString(d.resetToken), AsString(d.newPassword), AsString(d.confirmPassword))
  }

  predicate ResetPasswordChecks(d: ResetPasswordDto)
  {
    IsString(d.resetToken) && NotEmpty(d.resetToken)
    && IsString(d.newPassword) && NotEmpty(d.newPassword) && MinLength(d.newPassword, MinPasswordLength)
    && IsString(d.confirmPassword) && NotEmpty(d.confirmPassword) && Match(d.confirmPassword, d.newPassword)
  }

  predicate ResetPasswordValid(d: ResetPasswordDto)
  {
    ResetPasswordChecks(ResetPasswordConvert(d))
  }

  /**
   * A valid reset carries a token with non-empty text and a new password
   * whose text has at least six characters and is repeated exactly by the
   * confirmation's text; a missing, null or array value on either side, or
   * a mismatch, is refused.
   */
  lemma ResetPasswordRules(d: ResetPasswordDto)
    ensures ResetPasswordValid(d) ==>
      Scalar(d.resetToken) && ScalarText(d.resetToken) != ""
      && Scalar(d.newPassword) && |ScalarText(d.newPassword)| >= 6
      && Scalar(d.confirmPassword) && ScalarText(d.confirmPassword) == ScalarText(d.newPassword)
    ensures !Scalar(d.newPassword) || !Scalar(d.confirmPassword) ==> !ResetPasswordValid(d)
    ensures (Scalar(d.newPassword) && Scalar(d.confirmPassword)
             && ScalarText(d.newPassword) != ScalarText(d.confirmPassword)) ==> !ResetPasswordValid(d)
  {
    assert ResetPasswordConvert(d).newPassword == AsString(d.newPassword);
    assert ResetPasswordConvert(d).confirmPassword == AsString(d.confirmPassword);
  }

  /**
   * A six-digit number as the new password and its text as the confirmation
   * pass: the conversion makes both the same string.
   */
  lemma NumericPasswordReset(token: string, n: nat)
    requires token != "" && 100000 <= n < 1000000
    ensures ResetPasswordValid(ResetPasswordDto(Str(token), Num(n), Str(NatToString(n))))
  {
    assert Pow10(5) == 100000 && Pow10(6) == 1000000 by {
      assert Pow10(1) == 10 && Pow10(2) == 100 && Pow10(3) == 1000 && Pow10(4) == 10000;
    }
    NatToStringLength(n, 6);
    ConversionsIdempotent(Str(token));
    ConversionsIdempotent(Str(NatToString(n)));
    assert AsString(Num(n)) == Str(NatToString(n));
  }

  // ---------------------------------------------------------------------
  // CompleteProfileDto

  datatype CompleteProfileDto = CompleteProfileDto(
    firstName: Value, lastName: Value, phone: Value, email: Value, isAdvisor: Value, termsAccepted: Value)

  /** The names, phone and e-mail are declared strings; isAdvisor and termsAccepted booleans. */
  function ProfileConvert(d: CompleteProfileDto): CompleteProfileDto
  {
    CompleteProfileDto(AsString(d.firstName), AsString(d.lastName), AsString(d.phone), AsString(d.email),
                       AsBoolean(d.isAdvisor), AsBoolean(d.termsAccepted))
  }

  function ProfileTransform(d: CompleteProfileDto): (r: CompleteProfileDto)
  {
    d.(firstName := TrimTransform(d.firstName), lastName := TrimTransform(d.lastName),
       phone := PhoneTransform(d.phone), email := EmailTransform(d.email))
  }

  predicate ProfileChecks(d: CompleteProfileDto, isEmail: string -> bool)
  {
    IsString(d.firstName) && NotEmpty(d.firstName)
    && IsString(d.lastName) && NotEmpty(d.lastName)
    && (Absent(d.phone) || (IsString(d.phone) && MatchesPhone(d.phone)))
    && (Absent(d.email) || IsEmail(d.email, isEmail))
    && IsBoolean(d.isAdvisor) && NotEmpty(d.isAdvisor)
    && IsBoolean(d.termsAccepted) && IsTrue(d.termsAccepted)
  }

  predicate CompleteProfileValid(d: CompleteProfileDto, isEmail: string -> bool)
  {
    ProfileChecks(ProfileTransform(ProfileConvert(d)), isEmail)
  }

  /**
   * A completed profile has first and last names whose text is non-empty
   * once trimmed, an isAdvisor that is a single value, and a termsAccepted
   * that is a single truthy value: blank names, a missing or falsy
   * termsAccepted, or an array, are refused.
   */
  lemma CompleteProfileRules(d: CompleteProfileDto, isEmail: string -> bool)
    ensures CompleteProfileValid(d, isEmail) ==>
      Scalar(d.firstName) && Trim(ScalarText(d.firstName)) != ""
      && Scalar(d.lastName) && Trim(ScalarText(d.lastName)) != ""
      && Scalar(d.isAdvisor)
      && Scalar(d.termsAccepted) && Truthy(d.termsAccepted)
    ensures !Scalar(d.termsAccepted) || !Truthy(d.termsAccepted) ==> !CompleteProfileValid(d, isEmail)
    ensures d.firstName.Str? && (forall i :: 0 <= i < |d.firstName.s| ==> IsWhitespace(d.firstName.s[i])) ==>
      !CompleteProfileValid(d, isEmail)
  {
    var t := ProfileTransform(ProfileConvert(d));
    assert t.firstName == TrimTransform(AsString(d.firstName)) && t.lastName == TrimTransform(AsString(d.lastName));
    assert t.isAdvisor == AsBoolean(d.isAdvisor) && t.termsAccepted == AsBoolean(d.termsAccepted);
    if d.firstName.Str? && forall i :: 0 <= i < |d.firstName.s| ==> IsWhitespace(d.firstName.s[i]) {
      TrimBlank(d.firstName.s);
    }
  }

  /**
   * The conversion runs `Boolean()` before IsTrue looks: the string 'false'
   * becomes true, so a profile that sends it accepts the terms.
   */
  lemma FalseStringAcceptsTerms(first: string, last: string, isEmail: string -> bool)
    requires Trim(first) != "" && Trim(last) != ""
    ensures CompleteProfileValid(CompleteProfileDto(Str(first), Str(last), Undefined, Undefined, Bool(false), Str("false")), isEmail)
  {
    var d := CompleteProfileDto(Str(first), Str(last), Undefined, Undefined, Bool(false), Str("false"));
    ConversionsIdempotent(Str(first));
    ConversionsIdempotent(Str(last));
    ConversionsIdempotent(Bool(false));
    assert AsBoolean(Str("false")) == Bool(true);
    assert ProfileConvert(d) == CompleteProfileDto(Str(first), Str(last), Undefined, Undefined, Bool(false), Bool(true));
    var c := CompleteProfileDto(Str(first), Str(last), Undefined, Undefined, Bool(false), Bool(true));
    assert ProfileTransform(c) == CompleteProfileDto(Str(Trim(first)), Str(Trim(last)), Undefined, Undefined, Bool(false), Bool(true));
    NamedProfileAccepted(Trim(first), Trim(last), isEmail);
  }

  lemma NamedProfileAccepted(first: string, last: string, isEmail: string -> bool)
    requires first != "" && last != ""
    ensures ProfileChecks(CompleteProfileDto(Str(first), Str(last), Undefined, Undefined, Bool(false), Bool(true)), isEmail)
  {
  }

  /**
   * A phone given to CompleteProfileDto, as a string or a number, must match
   * the pattern after conversion and stripping; an array phone is refused.
   */
  lemma ProfilePhoneChecked(d: CompleteProfileDto, isEmail: string -> bool)
    ensures CompleteProfileValid(d, isEmail) && !Absent(d.phone) ==> MatchesPhone(PhoneTransform(AsString(d.phone)))
  {
    ConvertedPhoneChecked(ProfileConvert(d), isEmail);
  }

  lemma ConvertedPhoneChecked(c: CompleteProfileDto, isEmail: string -> bool)
    ensures ProfileChecks(ProfileTransform(c), isEmail) && !Absent(c.phone) ==> MatchesPhone(PhoneTransform(c.phone))
  {
  }

  /** The phone and e-mail are optional: a valid profile stays valid without them. */
  lemma ProfileContactOptional(d: CompleteProfileDto, isEmail: string -> bool)
    ensures CompleteProfileValid(d, isEmail) ==> CompleteProfileValid(d.(phone := Undefined, email := Null), isEmail)
  {
    if CompleteProfileValid(d, isEmail) {
      var c := ProfileConvert(d);
      assert ProfileConvert(d.(phone := Undefined, email := Null)) == c.(phone := Undefined, email := Null);
      var t := ProfileTransform(c);
      assert ProfileTransform(c.(phone := Undefined, email := Null)) == t.(phone := Undefined, email := Null);
    }
  }
}
