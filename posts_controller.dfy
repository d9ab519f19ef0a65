/**
 * The request shaping of src/modules/posts/posts.controller.ts: whether a
 * multipart body is a poll or a post, which uploaded files are option images
 * and which are post images, and how the text fields of the body are
 * coerced before they reach PostsService. `JSON.parse` is given as its
 * outcome.
 */
module PostsController {
  import opened Wrappers
  import opened Strings
  import opened Json
  import QuestionnaireController

  type UploadedFile = QuestionnaireController.UploadedFile

  /** A field of the multipart body, undefined when absent. */
  function Field(body: map<string, Value>, name: string): Value
  {
    if name in body then body[name] else Undefined
  }

  /** `!user?.id`: no authenticated user, or one without an id, is refused. */
  function RequireUser(userId: Option<string>): (r: Result<string>)
    ensures r.Ok? <==> userId.Some? && userId.value != ""
    ensures r.Ok? ==> r.value == userId.value
    ensures r.Err? ==> r == Fail(BadRequest, "User not found")
  {
    if userId.Some? && userId.value != "" then Ok(userId.value) else Fail(BadRequest, "User not found")
  }

  /** `body.question && optionsJson`. */
  predicate IsPoll(body: map<string, Value>)
  {
    Truthy(Field(body, "question")) && Truthy(Field(body, "options"))
  }

  /**
   * The poll options: a string is parsed as JSON (`parsed` is the outcome of
   * `JSON.parse`, None when it throws), anything else is taken as it is.
   */
  function PollOptions(optionsJson: Value, parsed: Option<Value>): (r: Result<Value>)
    requires Truthy(optionsJson)
    ensures optionsJson.Str? && parsed.None? ==> r == Fail(BadRequest, "Invalid JSON format for options")
    ensures optionsJson.Str? && parsed.Some? ==> r == Ok(parsed.value)
    ensures !optionsJson.Str? ==> r == Ok(optionsJson)
  {
    if optionsJson.Str? then
      if parsed.Some? then Ok(parsed.value) else Fail(BadRequest, "Invalid JSON format for options")
    else Ok(optionsJson)
  }

  // ---------------------------------------------------------------------
  // option_<index>_image

  const OptionPrefix: string := "option_"
  const ImageSuffix: string := "_image"

  /** The digits captured by `/^option_(\d+)_image$/`, if the field name matches. */
  function OptionImageDigits(fieldname: Option<string>): (d: Option<string>)
    ensures d.Some? ==> d.value != "" && AllDigits(d.value) && fieldname == Some(OptionPrefix + d.value + ImageSuffix)
  {
    if fieldname.Some? && |fieldname.value| > |OptionPrefix| + |ImageSuffix|
       && StartsWith(fieldname.value, OptionPrefix)
       && fieldname.value[|fieldname.value| - |ImageSuffix|..] == ImageSuffix
       && AllDigits(fieldname.value[|OptionPrefix|..|fieldname.value| - |ImageSuffix|])
    then
      var name := fieldname.value;
      var digits := name[|OptionPrefix|..|name| - |ImageSuffix|];
      assert name == name[..|OptionPrefix|] + digits + name[|name| - |ImageSuffix|..];
      Some(digits)
    else None
  }

  /** Every non-empty digit string is captured back from the field name built around it. */
  lemma OptionImageFieldRoundTrip(digits: string)
    requires digits != "" && AllDigits(digits)
    ensures OptionImageDigits(Some(OptionPrefix + digits + ImageSuffix)) == Some(digits)
  {
    var name := OptionPrefix + digits + ImageSuffix;
    assert name[..|OptionPrefix|] == OptionPrefix;
    assert name[|name| - |ImageSuffix|..] == ImageSuffix;
    assert name[|OptionPrefix|..|name| - |ImageSuffix|] == digits;
  }

  /** `parseInt(match[1], 10)` of the captured digits. */
  function OptionImageIndex(fieldname: Option<string>): (i: Option<nat>)
    ensures i.Some? <==> OptionImageDigits(fieldname).Some?
  {
    var d := OptionImageDigits(fieldname);
    if d.Some? then Some(ParseDigits(d.value)) else None
  }

  /** The field name `option_<n>_image` for option n is mapped back to n. */
  lemma OptionImageIndexOf(n: nat)
    ensures OptionImageIndex(Some(OptionPrefix + NatToString(n) + ImageSuffix)) == Some(n)
  {
    OptionImageFieldRoundTrip(NatToString(n));
    ParseNatToString(n);
  }

  /** `optionImages` after the `forEach` over `files`: a later file overwrites an earlier one of the same index. */
  function OptionImages(files: seq<UploadedFile>): (m: map<nat, UploadedFile>)
    ensures forall i :: i in m <==> exists f :: f in files && OptionImageIndex(f.fieldname) == Some(i)
  {
    if |files| == 0 then map[]
    else
      var init := files[..|files| - 1];
      var last := files[|files| - 1];
      var m := OptionImages(init);
      assert forall f :: f in files <==> f in init || f == last;
      var i := OptionImageIndex(last.fieldname);
      if i.Some? then m[i.value := last] else m
  }

  /** For every index, the file kept is the last one whose field name names that index. */
  lemma {:induction false} LastOptionImageWins(files: seq<UploadedFile>, k: int)
    requires 0 <= k < |files| && OptionImageIndex(files[k].fieldname).Some?
    requires forall j :: k < j < |files| ==> OptionImageIndex(files[j].fieldname) != OptionImageIndex(files[k].fieldname)
    ensures OptionImages(files)[OptionImageIndex(files[k].fieldname).value] == files[k]
  {
    if k < |files| - 1 {
      LastOptionImageWins(files[..|files| - 1], k);
    }
  }

  /** The `forEach` of createPostOrPoll filling `optionImages` in place. */
  method CollectOptionImages(files: seq<UploadedFile>) returns (m: map<nat, UploadedFile>)
    ensures m == OptionImages(files)
  {
    m := map[];
    var n := 0;
    while n < |files|
      invariant 0 <= n <= |files|
      invariant m == OptionImages(files[..n])
    {
      var index := OptionImageIndex(files[n].fieldname);
      if index.Some? {
        m := m[index.value := files[n]];
      }
      assert files[..n + 1][..n] == files[..n];
      n := n + 1;
    }
    assert files[..n] == files;
  }

  // ---------------------------------------------------------------------
  // post images

  /** `file.fieldname === 'images' || (!file.fieldname?.startsWith('option_') && !file.fieldname?.includes('_image'))`. */
  predicate IsPostImage(f: UploadedFile)
  {
    f.fieldname == Some("images")
    || f.fieldname.None?
    || (!StartsWith(f.fieldname.value, OptionPrefix) && !Contains(f.fieldname.value, ImageSuffix))
  }

  function PostImageList(files: seq<UploadedFile>): (r: seq<UploadedFile>)
    ensures |r| <= |files|
    ensures forall f :: f in r <==> f in files && IsPostImage(f)
  {
    if |files| == 0 then []
    else
      var rest := PostImageList(files[1..]);
      assert forall f :: f in files <==> f == files[0] || f in files[1..];
      if IsPostImage(files[0]) then [files[0]] + rest else rest
  }

  /** `filter` keeps the upload order: the images of two batches are those of the first, then those of the second. */
  lemma {:induction false} PostImageListConcat(a: seq<UploadedFile>, b: seq<UploadedFile>)
    ensures PostImageList(a + b) == PostImageList(a) + PostImageList(b)
  {
    if |a| > 0 {
      assert (a + b)[1..] == a[1..] + b;
      PostImageListConcat(a[1..], b);
    } else {
      assert a + b == b;
    }
  }

  /** A single upload is kept, once, exactly when it is a post image. */
  lemma PostImageListSingle(f: UploadedFile)
    ensures PostImageList([f]) == if IsPostImage(f) then [f] else []
  {
    assert [f][1..] == [];
  }

  /** The images handed to createPost: the post images, or undefined when there are none. */
  function PostImages(files: seq<UploadedFile>): (r: Option<seq<UploadedFile>>)
    ensures r.Some? ==> |r.value| > 0
    ensures r.None? <==> forall f :: f in files ==> !IsPostImage(f)
    ensures r.Some? ==> forall f :: f in r.value <==> f in files && IsPostImage(f)
  {
    var images := PostImageList(files);
    if |images| > 0 then
      assert images[0] in images;
      Some(images)
    else None
  }

  /** A file sent as an option image is never also taken as a post image. */
  lemma OptionImageIsNotPostImage(f: UploadedFile)
    requires OptionImageIndex(f.fieldname).Some?
    ensures !IsPostImage(f)
  {
    var digits := OptionImageDigits(f.fieldname).value;
    var name := f.fieldname.value;
    assert name[..|OptionPrefix|] == OptionPrefix;
    assert name != "images";
  }

  /** A file without a field name, or named after neither convention, is a post image. */
  lemma PlainFileIsPostImage(f: UploadedFile)
    requires f.fieldname.Some? ==> !StartsWith(f.fieldname.value, OptionPrefix) && !Contains(f.fieldname.value, ImageSuffix)
    ensures IsPostImage(f) && OptionImageIndex(f.fieldname).None?
  {
  }

  // ---------------------------------------------------------------------
  // field coercions

  /** `body.multipleSelection === 'true' || body.multipleSelection === true`. */
  function MultipleSelection(v: Value): (b: bool)
    ensures b ==> Truthy(v)
    ensures b <==> v == Str("true") || v == Bool(true)
  {
    v == Str("true") || v == Bool(true)
  }

  /** An optional '+' or '-' followed by at least one digit. */
  predicate IsIntegerText(s: string)
  {
    (|s| > 0 && AllDigits(s)) || (|s| > 1 && (s[0] == '+' || s[0] == '-') && AllDigits(s[1..]))
  }

  /** `Number(s)` of a string: the trimmed text as an optionally signed integer, 0 when blank. */
  function TextToInteger(s: string): (r: Option<int>)
    ensures AllDigits(Trim(s)) ==> r == Some(ParseDigits(Trim(s)))
  {
    var t := Trim(s);
    if AllDigits(t) then Some(ParseDigits(t))
    else if IsIntegerText(t) then
      var magnitude: int := ParseDigits(t[1..]);
      Some(if t[0] == '-' then -magnitude else magnitude)
    else None
  }

  /**
   * `Number(v)` where the answer is an integer: numbers, booleans, null,
   * strings holding an optionally signed decimal integer between whitespace,
   * and arrays through their comma-joined text; None for anything else
   * (NaN and non-integral numbers).
   */
  function ToInteger(v: Value): (r: Option<int>)
    ensures v.Num? ==> r == Some(v.n)
    ensures v.Bool? ==> r == Some(if v.b then 1 else 0)
    ensures v.Str? && AllDigits(Trim(v.s)) ==> r == Some(ParseDigits(Trim(v.s)))
    ensures v.Arr? ==> r == TextToInteger(ToText(v))
    ensures v.Undefined? || v.Obj? ==> r.None?
  {
    match v
    case Num(n) => Some(n)
    case Bool(b) => Some(if b then 1 else 0)
    case Null => Some(0)
    case Str(s) => TextToInteger(s)
    case Arr(_) => TextToInteger(ToText(v))
    case _ => None
  }

  /** The decimal text of a natural number converts back to that number. */
  lemma NatTextToInteger(m: nat)
    ensures TextToInteger(NatToString(m)) == Some(m)
  {
    ParseNatToString(m);
    DigitsTrimmed(NatToString(m));
  }

  /**
   * An array converts through its comma-joined text: the empty array is 0,
   * and a one-element array holding a number or a digit string is that number.
   */
  lemma ArrayToInteger(n: nat, digits: string)
    requires AllDigits(digits)
    ensures ToInteger(Arr([])) == Some(0)
    ensures ToInteger(Arr([Num(n)])) == Some(n)
    ensures ToInteger(Arr([Str(digits)])) == Some(ParseDigits(digits))
  {
    EmptyArrayToInteger();
    SingleNumberToInteger(n);
    SingleDigitsToInteger(digits);
  }

  lemma SingleNumberToInteger(n: nat)
    ensures ToInteger(Arr([Num(n)])) == Some(n)
  {
    var v := Arr([Num(n)]);
    assert ToInteger(v) == TextToInteger(ToText(v));
    SingleToText(Num(n));
    assert ToText(v) == NatToString(n);
    NatTextToInteger(n);
  }

  lemma SingleDigitsToInteger(digits: string)
    requires AllDigits(digits)
    ensures ToInteger(Arr([Str(digits)])) == Some(ParseDigits(digits))
  {
    var v := Arr([Str(digits)]);
    assert ToInteger(v) == TextToInteger(ToText(v));
    SingleToText(Str(digits));
    DigitsTrimmed(digits);
  }

  lemma EmptyArrayToInteger()
    ensures ToInteger(Arr([])) == Some(0)
  {
    assert ToText(Arr([])) == "";
    assert Trim("") == "";
  }

  /** A one-element array renders as its element. */
  lemma SingleToText(v: Value)
    ensures ToText(Arr([v])) == ToText(v)
  {
    var items := [v];
    assert seq(|items|, i requires 0 <= i < |items| => ToText(items[i])) == [ToText(v)];
  }

  /** `body.durationDays ? Number(body.durationDays) : undefined`. */
  function DurationDays(v: Value): (d: Option<int>)
    ensures !Truthy(v) ==> d.None?
    ensures Truthy(v) ==> d == ToInteger(v)
  {
    if Truthy(v) then ToInteger(v) else None
  }

  /** A duration sent as the text of a whole number of days arrives as that number. */
  lemma DurationDaysFromText(n: nat, pad: string)
    requires forall i :: 0 <= i < |pad| ==> IsWhitespace(pad[i])
    ensures DurationDays(Str(pad + NatToString(n) + pad)) == Some(n)
  {
    var s := NatToString(n);
    var text := pad + s + pad;
    assert Truthy(Str(text)) by {
      assert text[|pad|] == s[0];
    }
    TrimPadded(pad, s, pad);
    ParseNatToString(n);
  }

  // ---------------------------------------------------------------------
  // createPostOrPoll

  /** What createPostOrPoll hands to PostsService. */
  datatype Request =
    | PollRequest(userId: string, content: Value, question: Value, options: Value, multipleSelection: bool,
                  durationDays: Option<int>, category: Value, optionImages: map<nat, UploadedFile>)
    | PostRequest(userId: string, content: Value, category: Value, images: Option<seq<UploadedFile>>)

  /**
   * `createPostOrPoll`: the user check, then a poll when both question and
   * options are present, otherwise a post. `parsed` is the outcome of
   * `JSON.parse(options)`.
   */
  method CreatePostOrPoll(userId: Option<string>, body: map<string, Value>, files: seq<UploadedFile>,
                          parsed: Option<Value>) returns (r: Result<Request>)
    ensures RequireUser(userId).Err? ==> r == Fail(BadRequest, "User not found")
    ensures RequireUser(userId).Ok? && IsPoll(body) ==>
      var options := PollOptions(Field(body, "options"), parsed);
      if options.Err? then r == Err(options.error)
      else r == Ok(PollRequest(userId.value, Field(body, "content"), Field(body, "question"), options.value,
                               MultipleSelection(Field(body, "multipleSelection")),
                               DurationDays(Field(body, "durationDays")), Field(body, "category"),
                               OptionImages(files)))
    ensures RequireUser(userId).Ok? && !IsPoll(body) ==>
      r == Ok(PostRequest(userId.value, Field(body, "content"), Field(body, "category"), PostImages(files)))
  {
    var user := RequireUser(userId);
    if user.Err? {
      return Err(user.error);
    }
    if IsPoll(body) {
      var options := PollOptions(Field(body, "options"), parsed);
      if options.Err? {
        return Err(options.error);
      }
      var optionImages := CollectOptionImages(files);
      r := Ok(PollRequest(user.value, Field(body, "content"), Field(body, "question"), options.value,
                          MultipleSelection(Field(body, "multipleSelection")),
                          DurationDays(Field(body, "durationDays")), Field(body, "category"), optionImages));
    } else {
      r := Ok(PostRequest(user.value, Field(body, "content"), Field(body, "category"), PostImages(files)));
    }
  }

  /** A body with a question but no options, or options but no question, is created as a post. */
  lemma HalfPollIsPost(userId: string, body: map<string, Value>, files: seq<UploadedFile>)
    requires userId != ""
    requires !Truthy(Field(body, "question")) || !Truthy(Field(body, "options"))
    ensures !IsPoll(body) && RequireUser(Some(userId)) == Ok(userId)
  {
  }
}
