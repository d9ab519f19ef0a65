/**
 * The request-shaping helpers of
 * src/modules/questionnaire/questionnaire.controller.ts: which questionnaires
 * a user is shown, how a multipart `selectedOptions` field becomes a list,
 * and how uploaded files named `file_<questionId>` are attached to the
 * answers of a batch. Uploading to object storage is a parameter.
 */
module QuestionnaireController {
  import opened Wrappers
  import opened Strings
  import opened Json
  import opened Users
  import opened Questionnaires

  // ---------------------------------------------------------------------
  // getQuestionnairesForUser

  /** The audience test of the filter. */
  predicate ShownTo(qn: Questionnaire, user: User)
  {
    user.profileCompleted
    && ((qn.audience == ForUsers && !user.isAdvisor) || (qn.audience == ForAdvisors && user.isAdvisor))
  }

  /** `questionnaires.filter(...)`: the questionnaires the user is shown, in the given order. */
  function ForUser(qns: seq<Questionnaire>, user: User): (r: seq<Questionnaire>)
    ensures |r| <= |qns|
    ensures forall qn :: qn in r <==> qn in qns && ShownTo(qn, user)
  {
    if |qns| == 0 then []
    else
      var rest := ForUser(qns[1..], user);
      assert forall qn :: qn in qns <==> qn == qns[0] || qn in qns[1..];
      if ShownTo(qns[0], user) then [qns[0]] + rest else rest
  }

  /**
   * A user with an incomplete profile is shown nothing; otherwise an advisor
   * is shown exactly the ADVISOR questionnaires and anyone else exactly the
   * USER ones, never both kinds.
   */
  lemma {:induction false} ForUserByAudience(qns: seq<Questionnaire>, user: User)
    ensures !user.profileCompleted ==> ForUser(qns, user) == []
    ensures user.profileCompleted ==>
      forall qn :: qn in ForUser(qns, user) <==>
        qn in qns && qn.audience == (if user.isAdvisor then ForAdvisors else ForUsers)
  {
    if |qns| > 0 {
      ForUserByAudience(qns[1..], user);
    }
  }

  // ---------------------------------------------------------------------
  // submitAnswer: `selectedOptions` from a multipart body

  /** `s.split(',').map((item) => item.trim()).filter(Boolean)`. */
  function CommaList(s: string): (items: seq<string>)
    ensures forall x :: x in items ==> x != "" && IsTrimmed(x) && ',' !in x
  {
    NonEmptyTrimmed(Split(s, ','))
  }

  /** Each part trimmed, empty parts dropped. */
  function NonEmptyTrimmed(parts: seq<string>): (items: seq<string>)
    requires forall i :: 0 <= i < |parts| ==> ',' !in parts[i]
    ensures |items| <= |parts|
    ensures forall x :: x in items ==> x != "" && IsTrimmed(x) && ',' !in x
  {
    if |parts| == 0 then []
    else
      var t := Trim(parts[0]);
      assert forall i :: 0 <= i < |t| ==> t[i] in parts[0];
      var rest := NonEmptyTrimmed(parts[1..]);
      if t == "" then rest else [t] + rest
  }

  /** Joining a list of non-empty, trimmed, comma-free ids with ',' and reading it back gives the list. */
  lemma {:induction false} CommaListJoin(ids: seq<string>)
    requires |ids| > 0
    requires forall x :: x in ids ==> x != "" && IsTrimmed(x) && ',' !in x
    ensures CommaList(Join(ids, ",")) == ids
  {
    SplitJoin(ids);
    TrimmedKept(ids);
  }

  lemma {:induction false} SplitJoin(ids: seq<string>)
    requires |ids| > 0
    requires forall x :: x in ids ==> ',' !in x
    ensures Split(Join(ids, ","), ',') == ids
  {
    if |ids| == 1 {
      SplitWithout(ids[0], ',');
    } else {
      SplitJoin(ids[1..]);
      SplitAt(ids[0], Join(ids[1..], ","), ',');
      assert Join(ids, ",") == ids[0] + [','] + Join(ids[1..], ",");
      assert [ids[0]] + ids[1..] == ids;
    }
  }

  lemma {:induction false} TrimmedKept(ids: seq<string>)
    requires forall x :: x in ids ==> x != "" && IsTrimmed(x) && ',' !in x
    ensures NonEmptyTrimmed(ids) == ids
  {
    if |ids| > 0 {
      var rest := ids[1..];
      assert forall x :: x in rest ==> x in ids;
      TrimmedKept(rest);
      assert ids[0] in ids;
      TrimTrimmed(ids[0]);
      assert NonEmptyTrimmed(ids) == [ids[0]] + NonEmptyTrimmed(rest);
      assert [ids[0]] + rest == ids;
    }
  }

  /**
   * The normalisation of `body.selectedOptions`. `parsed` is the outcome of
   * `JSON.parse` on a string field: the value, or None when it throws.
   */
  function SelectedOptions(field: Value, parsed: Option<Value>): (r: Option<seq<Value>>)
    ensures !Truthy(field) ==> r.None?
    ensures field.Arr? ==> r == Some(field.items)
    ensures field.Str? && field.s != "" && parsed.Some? ==>
      r == Some(if parsed.value.Arr? then parsed.value.items else [field])
    ensures field.Str? && field.s != "" && parsed.None? ==>
      r == Some(if ',' in field.s then Strs(CommaList(field.s)) else [field])
    ensures r.Some? ==> field.Str? || field.Arr?
  {
    if !Truthy(field) then None
    else if field.Str? then
      if parsed.Some? then
        if parsed.value.Arr? then Some(parsed.value.items) else Some([field])
      else if ',' in field.s then Some(Strs(CommaList(field.s)))
      else Some([field])
    else if field.Arr? then Some(field.items)
    else None
  }

  /**
   * A comma-separated list that is not JSON, such as 'a, b,,c', yields its
   * trimmed non-empty parts; a single id that is not JSON is kept whole.
   */
  lemma CommaSeparatedOptions(ids: seq<string>, single: string)
    requires |ids| > 1
    requires forall x :: x in ids ==> x != "" && IsTrimmed(x) && ',' !in x
    requires single != "" && ',' !in single
    ensures SelectedOptions(Str(Join(ids, ",")), None) == Some(Strs(ids))
    ensures SelectedOptions(Str(single), None) == Some([Str(single)])
  {
    var joined := Join(ids, ",");
    CommaListJoin(ids);
    CommaInJoin(ids);
    assert SelectedOptions(Str(joined), None) == Some(Strs(CommaList(joined)));
  }

  lemma CommaInJoin(ids: seq<string>)
    requires |ids| > 1
    ensures ',' in Join(ids, ",")
  {
    var rest := Join(ids[1..], ",");
    assert Join(ids, ",") == ids[0] + [','] + rest;
    assert Join(ids, ",")[|ids[0]|] == ',';
  }

  // ---------------------------------------------------------------------
  // submitAnswers: files named `file_<questionId>`

  /** A multer file: its form field name (possibly missing) and original file name. */
  datatype UploadedFile = UploadedFile(fieldname: Option<string>, originalname: string)

  const FilePrefix: string := "file_"

  /** The question id captured by `/^file_(.+)$/`: at least one character and no line terminator. */
  function FileQuestionId(fieldname: Option<string>): (id: Option<string>)
    ensures id.Some? ==> fieldname == Some(FilePrefix + id.value) && id.value != ""
  {
    if fieldname.Some? && StartsWith(fieldname.value, FilePrefix) && |fieldname.value| > |FilePrefix|
       && forall i :: |FilePrefix| <= i < |fieldname.value| ==> !IsLineTerminator(fieldname.value[i])
    then
      assert fieldname.value == FilePrefix + fieldname.value[|FilePrefix|..];
      Some(fieldname.value[|FilePrefix|..])
    else None
  }

  /** Every non-empty single-line question id is recovered from its field name. */
  lemma FileFieldRoundTrip(questionId: string)
    requires questionId != "" && forall i :: 0 <= i < |questionId| ==> !IsLineTerminator(questionId[i])
    ensures FileQuestionId(Some(FilePrefix + questionId)) == Some(questionId)
  {
    var name := FilePrefix + questionId;
    assert name[..|FilePrefix|] == FilePrefix;
    assert name[|FilePrefix|..] == questionId;
  }

  /** The map `filesMap` after the first `n` files: each matching file overwrites its id's entry. */
  function FilesByQuestion(files: seq<UploadedFile>): (m: map<string, UploadedFile>)
    ensures forall id :: id in m <==> exists f :: f in files && FileQuestionId(f.fieldname) == Some(id)
  {
    if |files| == 0 then map[]
    else
      var init := files[..|files| - 1];
      var last := files[|files| - 1];
      var m := FilesByQuestion(init);
      assert forall f :: f in files <==> f in init || f == last;
      var id := FileQuestionId(last.fieldname);
      if id.Some? then m[id.value := last] else m
  }

  /** For every id, the file kept is the last file whose field name carries that id. */
  lemma {:induction false} LastFileWins(files: seq<UploadedFile>, i: int)
    requires 0 <= i < |files| && FileQuestionId(files[i].fieldname).Some?
    requires forall j :: i < j < |files| ==> FileQuestionId(files[j].fieldname) != FileQuestionId(files[i].fieldname)
    ensures FilesByQuestion(files)[FileQuestionId(files[i].fieldname).value] == files[i]
  {
    if i < |files| - 1 {
      var init := files[..|files| - 1];
      assert init[i] == files[i];
      LastFileWins(init, i);
    }
  }

  /** The `forEach` that fills `filesMap`. */
  method CollectFiles(files: seq<UploadedFile>) returns (m: map<string, UploadedFile>)
    ensures m == FilesByQuestion(files)
  {
    m := map[];
    var n := 0;
    while n < |files|
      invariant 0 <= n <= |files|
      invariant m == FilesByQuestion(files[..n])
    {
      var id := FileQuestionId(files[n].fieldname);
      if id.Some? {
        m := m[id.value := files[n]];
      }
      assert files[..n + 1][..n] == files[..n];
      n := n + 1;
    }
    assert files[..n] == files;
  }

  /** One answer after the attachment step; `upload` is the storage URL the upload answers. */
  function WithFile(a: AnswerInput, m: map<string, UploadedFile>, upload: UploadedFile -> string): (b: AnswerInput)
    ensures a.questionId !in m ==> b == a
    ensures a.questionId in m ==>
      b == a.(fileUrl := Some(upload(m[a.questionId])), fileName := Some(m[a.questionId].originalname))
    ensures b.questionId == a.questionId && b.textAnswer == a.textAnswer && b.selectedOptions == a.selectedOptions
  {
    if a.questionId in m then
      var f := m[a.questionId];
      a.(fileUrl := Some(upload(f)), fileName := Some(f.originalname))
    else a
  }

  /** The loop that uploads each matched file and writes its URL and name into the answer, in place. */
  method AttachFiles(answers: array<AnswerInput>, m: map<string, UploadedFile>, upload: UploadedFile -> string)
    modifies answers
    ensures forall i :: 0 <= i < answers.Length ==> answers[i] == WithFile(old(answers[i]), m, upload)
  {
    var k := 0;
    while k < answers.Length
      invariant 0 <= k <= answers.Length
      invariant forall i :: 0 <= i < k ==> answers[i] == WithFile(old(answers[i]), m, upload)
      invariant forall i :: k <= i < answers.Length ==> answers[i] == old(answers[i])
    {
      var a := answers[k];
      if a.questionId in m {
        var f := m[a.questionId];
        answers[k] := a.(fileUrl := Some(upload(f)), fileName := Some(f.originalname));
      }
      k := k + 1;
    }
  }

  /**
   * After attachment, an answer carries a file exactly when some uploaded
   * field is named after its question, and then the last such file; all
   * other answers are left as they were.
   */
  lemma AttachedFile(files: seq<UploadedFile>, a: AnswerInput, upload: UploadedFile -> string, i: int)
    requires 0 <= i < |files| && FileQuestionId(files[i].fieldname) == Some(a.questionId)
    requires forall j :: i < j < |files| ==> FileQuestionId(files[j].fieldname) != Some(a.questionId)
    ensures WithFile(a, FilesByQuestion(files), upload).fileName == Some(files[i].originalname)
    ensures WithFile(a, FilesByQuestion(files), upload).fileUrl == Some(upload(files[i]))
  {
    LastFileWins(files, i);
  }
}
