/**
 * The building blocks of the request DTOs: the `@Transform` lambdas shared
 * by several DTO classes, the phone pattern, the class-validator checks the
 * DTOs use, and the three custom validators (IsEmailOrPhone, Match,
 * IsTrue). Before any `@Transform` runs, the global pipe's implicit
 * conversion turns each field into the type it is declared with. A
 * transform only rewrites strings; any other value passes through. Whether
 * a string is an e-mail address is left to a parameter.
 */
module Validators {
  import opened Strings
  import opened Json
  import Auth

  // ---------------------------------------------------------------------
  // implicit conversion (`transformOptions: { enableImplicitConversion: true }`)

  /** Neither missing, null nor an array: the values class-transformer converts as a whole. */
  predicate Scalar(v: Value)
  {
    !v.Undefined? && !v.Null? && !v.Arr?
  }

  /** `String(v)` of a single value: the text `ToText` gives it, without the array case. */
  function ScalarText(v: Value): (s: string)
    requires Scalar(v)
  {
    match v
    case Bool(b) => if b then "true" else "false"
    case Num(n) => IntToString(n)
    case Str(s) => s
    case Obj(_) => "[object Object]"
  }

  lemma ScalarTextIsToText(v: Value)
    requires Scalar(v)
    ensures ScalarText(v) == ToText(v)
  {
  }

  /**
   * A field declared `string`: `String(value)` for anything but null and
   * undefined, and element by element inside an array.
   */
  function AsString(v: Value): (r: Value)
    ensures Scalar(v) <==> r.Str?
    ensures Scalar(v) ==> r.s == ScalarText(v)
    ensures !v.Arr? && !Scalar(v) ==> r == v
    ensures v.Arr? ==> r.Arr? && |r.items| == |v.items|
    decreases v
  {
    match v
    case Undefined => v
    case Null => v
    case Arr(items) => Arr(seq(|items|, i requires 0 <= i < |items| => AsString(items[i])))
    case _ => Str(ScalarText(v))
  }

  /**
   * A field declared `boolean`: `Boolean(value)`, that is its truthiness, for
   * anything but null and undefined, and element by element inside an array.
   */
  function AsBoolean(v: Value): (r: Value)
    ensures Scalar(v) <==> r.Bool?
    ensures Scalar(v) ==> r.b == Truthy(v)
    ensures !v.Arr? && !Scalar(v) ==> r == v
    ensures v.Arr? ==> r.Arr? && |r.items| == |v.items|
    decreases v
  {
    match v
    case Undefined => v
    case Null => v
    case Arr(items) => Arr(seq(|items|, i requires 0 <= i < |items| => AsBoolean(items[i])))
    case _ => Bool(Truthy(v))
  }

  /** Converting twice is converting once, and a string or a boolean is left as it is. */
  lemma {:induction false} ConversionsIdempotent(v: Value)
    ensures AsString(AsString(v)) == AsString(v)
    ensures AsBoolean(AsBoolean(v)) == AsBoolean(v)
    ensures v.Str? ==> AsString(v) == v
    ensures v.Bool? ==> AsBoolean(v) == v
    decreases v
  {
    if v.Arr? {
      forall i | 0 <= i < |v.items| {
        ConversionsIdempotent(v.items[i]);
      }
      assert AsString(AsString(v)).items == AsString(v).items;
      assert AsBoolean(AsBoolean(v)).items == AsBoolean(v).items;
    }
  }

  /**
   * A lower-case word other than 'true' and 'false' (a provider, a purpose)
   * is the conversion of that very string and of nothing else: numbers
   * render as digits, booleans as 'true' or 'false', objects as
   * '[object Object]'.
   */
  lemma AsStringOfWord(v: Value, word: string)
    requires |word| > 0 && 'a' <= word[0] <= 'z' && word != "true" && word != "false"
    ensures AsString(v) == Str(word) <==> v == Str(word)
  {
    if v.Num? {
      var t := ScalarText(v);
      assert t[0] == '-' || IsDigit(t[0]);
    }
  }

  // ---------------------------------------------------------------------
  // transforms

  /** `typeof value === 'string' ? value.replace(/[\s\-()]/g, '').trim() : value`. */
  function PhoneTransform(v: Value): (r: Value)
    ensures v.Str? <==> r.Str?
    ensures v.Str? ==> r.s == StripPhone(v.s) && |r.s| <= |v.s|
    ensures !v.Str? ==> r == v
  {
    if v.Str? then Str(StripPhone(v.s)) else v
  }

  /** `typeof value === 'string' ? value.trim().toLowerCase() : value`. */
  function EmailTransform(v: Value): (r: Value)
    ensures v.Str? <==> r.Str?
    ensures v.Str? ==> r.s == Auth.NormalizeEmail(v.s)
    ensures !v.Str? ==> r == v
  {
    if v.Str? then Str(Auth.NormalizeEmail(v.s)) else v
  }

  /** `typeof value === 'string' ? value.trim() : value`. */
  function TrimTransform(v: Value): (r: Value)
    ensures v.Str? <==> r.Str?
    ensures v.Str? ==> r.s == Trim(v.s)
    ensures !v.Str? ==> r == v
  {
    if v.Str? then Str(Trim(v.s)) else v
  }

  /** Running a transform on its own output changes nothing, so a re-validated DTO is stable. */
  lemma TransformsIdempotent(v: Value)
    ensures PhoneTransform(PhoneTransform(v)) == PhoneTransform(v)
    ensures EmailTransform(EmailTransform(v)) == EmailTransform(v)
    ensures TrimTransform(TrimTransform(v)) == TrimTransform(v)
  {
    if v.Str? {
      StripPhoneIdempotent(v.s);
      Auth.NormalizeEmailIdempotent(v.s);
      TrimIdempotent(v.s);
    }
  }

  // ---------------------------------------------------------------------
  // class-validator checks

  /** `@IsOptional()`: a null or undefined value skips the property's other checks. */
  predicate Absent(v: Value)
  {
    v.Null? || v.Undefined?
  }

  /** `@IsNotEmpty()`: not '', null or undefined. */
  predicate NotEmpty(v: Value)
  {
    v != Str("") && !Absent(v)
  }

  /** `@IsString()`. */
  predicate IsString(v: Value)
  {
    v.Str?
  }

  /** `@IsBoolean()`. */
  predicate IsBoolean(v: Value)
  {
    v.Bool?
  }

  /** `@MinLength(n)`: a string of at least n characters. */
  predicate MinLength(v: Value, n: nat)
  {
    v.Str? && |v.s| >= n
  }

  /** `@IsEmail()`, with the address syntax given by `isEmail`. */
  predicate IsEmail(v: Value, isEmail: string -> bool)
  {
    v.Str? && isEmail(v.s)
  }

  /** `@IsIn(values)`. */
  predicate IsIn(v: Value, values: set<string>)
  {
    v.Str? && v.s in values
  }

  /** The values of the AuthProvider members. */
  const ProviderValues: set<string> := {"phone", "email", "google", "apple"}

  lemma ProviderValuesAreMembers()
    ensures forall p: Auth.AuthProvider :: Auth.ProviderValue(p) in ProviderValues
    ensures forall s :: s in ProviderValues ==> exists p: Auth.AuthProvider :: Auth.ProviderValue(p) == s
  {
    assert Auth.ProviderValue(Auth.PHONE) == "phone";
    assert Auth.ProviderValue(Auth.EMAIL) == "email";
    assert Auth.ProviderValue(Auth.GOOGLE) == "google";
    assert Auth.ProviderValue(Auth.APPLE) == "apple";
  }

  /** `@IsEnum(AuthProvider)`: one of the provider values. */
  predicate IsProvider(v: Value)
  {
    v.Str? && v.s in ProviderValues
  }

  /** `v === AuthProvider.X`. */
  predicate IsProviderOf(v: Value, p: Auth.AuthProvider)
  {
    v == Str(Auth.ProviderValue(p))
  }

  /** The login type is compared after its conversion, which turns no other value into a provider. */
  lemma ProviderAfterConversion(v: Value)
    ensures forall p: Auth.AuthProvider :: IsProviderOf(AsString(v), p) <==> IsProviderOf(v, p)
    ensures IsProvider(AsString(v)) <==> IsProvider(v)
  {
    AsStringOfWord(v, "phone");
    AsStringOfWord(v, "email");
    AsStringOfWord(v, "google");
    AsStringOfWord(v, "apple");
    ProviderValuesAreMembers();
  }

  // ---------------------------------------------------------------------
  // the phone pattern

  /** `/^\+?[1-9]\d{7,14}$/`: an optional '+', then 8 to 15 digits of which the first is not 0. */
  predicate IsE164(s: string)
  {
    var digits := if |s| > 0 && s[0] == '+' then s[1..] else s;
    8 <= |digits| <= 15 && AllDigits(digits) && digits[0] != '0'
  }

  /** `@Matches(/^\+?[1-9]\d{7,14}$/)` on a value. */
  predicate MatchesPhone(v: Value)
  {
    v.Str? && IsE164(v.s)
  }

  /** A matching phone has 8 to 16 characters, all digits but a leading '+', and no separator. */
  lemma E164Shape(s: string)
    requires IsE164(s)
    ensures 8 <= |s| <= 16
    ensures forall i :: 0 <= i < |s| ==> IsPhoneChar(s[i]) && !IsPhoneSeparator(s[i])
    ensures forall i :: 0 < i < |s| ==> IsDigit(s[i])
  {
    if s[0] == '+' {
      assert forall i :: 0 < i < |s| ==> s[i] == s[1..][i - 1];
    }
  }

  /** Every number of 8 to 15 digits is accepted, with or without a leading '+'. */
  lemma NumbersAreE164(n: nat, k: nat)
    requires 8 <= k <= 15 && Pow10(k - 1) <= n < Pow10(k)
    ensures IsE164(NatToString(n))
    ensures IsE164("+" + NatToString(n))
  {
    NatToStringLength(n, k);
    var s := NatToString(n);
    assert ("+" + s)[1..] == s;
  }

  /** Too short, too long, or starting with 0: the three ways a digit string fails. */
  lemma E164Rejects(s: string)
    requires AllDigits(s)
    ensures |s| < 8 ==> !IsE164(s)
    ensures |s| > 15 ==> !IsE164(s)
    ensures |s| > 0 && s[0] == '0' ==> !IsE164(s)
  {
  }

  /**
   * A phone that passes the DTO's transform and pattern reaches the auth
   * service unchanged by its own normalisation, which keeps digits and '+'.
   */
  lemma ValidatedPhoneIsNormal(raw: string)
    requires IsE164(StripPhone(raw))
    ensures Auth.NormalizePhone(StripPhone(raw)) == StripPhone(raw)
  {
    var s := StripPhone(raw);
    E164Shape(s);
    FilterKeepsAll(s, IsPhoneChar);
  }

  /** An e-mail address after the DTO's transform is left unchanged by the service's normalisation. */
  lemma TransformedEmailIsNormal(raw: string)
    ensures Auth.NormalizeEmail(EmailTransform(Str(raw)).s) == EmailTransform(Str(raw)).s
  {
    Auth.NormalizeEmailIdempotent(raw);
  }

  // ---------------------------------------------------------------------
  // custom validators

  /** IsEmailOrPhone: `!!(obj.email || obj.phone)`. */
  predicate EmailOrPhone(email: Value, phone: Value)
  {
    Truthy(email) || Truthy(phone)
  }

  /** On string or absent fields, IsEmailOrPhone passes exactly when one of them is a non-empty string. */
  lemma EmailOrPhoneOnStrings(email: Value, phone: Value)
    requires email.Str? || Absent(email)
    requires phone.Str? || Absent(phone)
    ensures EmailOrPhone(email, phone) <==> (email.Str? && email.s != "") || (phone.Str? && phone.s != "")
  {
  }

  /** Match: both values are strings and they are equal. */
  predicate Match(value: Value, related: Value)
  {
    value.Str? && related.Str? && value.s == related.s
  }

  /** IsTrue: `value === true`. */
  predicate IsTrue(v: Value)
  {
    v == Bool(true)
  }

  /** Match fails on any non-string side, even when the two values are equal; IsTrue accepts nothing truthy but `true`. */
  lemma StrictValidators(v: Value, w: Value)
    ensures !v.Str? ==> !Match(v, w) && !Match(w, v)
    ensures Match(v, w) <==> v.Str? && v == w
    ensures IsTrue(v) <==> v.Bool? && v.b
    ensures !IsTrue(Str("true")) && !IsTrue(Num(1))
  {
  }
}
