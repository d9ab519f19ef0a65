/**
 * The questionnaire engine, src/modules/questionnaire/questionnaire.service.ts:
 * questionnaires made of numbered steps of questions, a user's answers (at
 * most one per question), answer validation, step submission that can mark
 * the user's questionnaire as completed, and progress reporting.
 */
module Questionnaires {
  import opened Wrappers
  import opened Strings
  import opened Users
  import opened StableSort

  datatype QuestionType = TextQuestion | TextareaQuestion | SingleChoice | MultipleChoice | FileUpload

  predicate IsTextType(t: QuestionType)
  {
    t == TextQuestion || t == TextareaQuestion
  }

  predicate IsChoiceType(t: QuestionType)
  {
    t == SingleChoice || t == MultipleChoice
  }

  /** `QuestionnaireType`: who the questionnaire is for. */
  datatype Audience = ForUsers | ForAdvisors

  /** The `validation` JSON of a question; `pattern` is never checked by the service. */
  datatype Rules = Rules(minLength: Option<int>, maxLength: Option<int>)

  datatype QuestionOption = QuestionOption(id: string, labelText: string, displayOrder: int)

  datatype Question = Question(
    id: string,
    text: string,
    kind: QuestionType,
    isRequired: bool,
    displayOrder: int,
    stepNumber: int,
    validation: Option<Rules>,
    options: seq<QuestionOption>)

  datatype Questionnaire = Questionnaire(
    id: string,
    audience: Audience,
    isActive: bool,
    displayOrder: int,
    questions: seq<Question>)

  /** A row of `user_answers`. */
  datatype UserAnswer = UserAnswer(
    userId: string,
    questionId: string,
    textAnswer: Option<string>,
    selectedOptions: Option<seq<string>>,
    fileUrl: Option<string>,
    fileName: Option<string>)

  /** SubmitAnswerDto. */
  datatype AnswerInput = AnswerInput(
    questionId: string,
    textAnswer: Option<string>,
    selectedOptions: Option<seq<string>>,
    fileUrl: Option<string>,
    fileName: Option<string>)

  /** The unique index of `user_answers`: one row per (userId, questionId). */
  type AnswerKey = (string, string)

  const CompletedMessage: string := "Questionnaire already completed. Answers cannot be updated."

  // ---------------------------------------------------------------------
  // getQuestionnaireById: lookup and ordering

  /** Questions are ordered by step, then by display order. */
  function QuestionRank(q: Question): Rank
  {
    (q.stepNumber, q.displayOrder)
  }

  /** Options are ordered by display order alone. */
  function OptionRank(o: QuestionOption): Rank
  {
    (o.displayOrder, 0)
  }

  function ArrangeOptions(q: Question): Question
  {
    q.(options := Sort(q.options, OptionRank))
  }

  /** The questionnaire as getQuestionnaireById returns it. */
  function Arranged(qn: Questionnaire): Questionnaire
  {
    var sorted := Sort(qn.questions, QuestionRank);
    qn.(questions := seq(|sorted|, i requires 0 <= i < |sorted| => ArrangeOptions(sorted[i])))
  }

  /**
   * The arranged questionnaire is ordered by (stepNumber, displayOrder) with
   * each question's options ordered by displayOrder, and it holds the same
   * questions, each with a permutation of its own options.
   */
  lemma ArrangedIsOrdered(qn: Questionnaire)
    ensures var qs := Arranged(qn).questions;
      Sorted(qs, QuestionRank)
      && (forall i :: 0 <= i < |qs| ==> Sorted(qs[i].options, OptionRank))
      && |qs| == |qn.questions|
      && (forall q :: q in qn.questions ==> ArrangeOptions(q) in qs)
      && (forall q :: q in qs ==> exists p :: p in qn.questions && q == ArrangeOptions(p))
  {
    var sorted := Sort(qn.questions, QuestionRank);
    var qs := Arranged(qn).questions;
    SortSortsAndPermutes(qn.questions, QuestionRank);
    forall i | 0 <= i < |qs|
      ensures Sorted(qs[i].options, OptionRank)
    {
      SortSortsAndPermutes(sorted[i].options, OptionRank);
    }
    forall q | q in qn.questions
      ensures ArrangeOptions(q) in qs
    {
      assert q in multiset(sorted);
      var i :| 0 <= i < |sorted| && sorted[i] == q;
      assert qs[i] == ArrangeOptions(q);
    }
    forall q | q in qs
      ensures exists p :: p in qn.questions && q == ArrangeOptions(p)
    {
      var i :| 0 <= i < |qs| && qs[i] == q;
      assert sorted[i] in multiset(qn.questions);
    }
  }

  /** `findOne({ where: { id, isActive: true } })`. */
  function FindActive(qs: seq<Questionnaire>, id: string): (r: Option<Questionnaire>)
    ensures r.Some? ==> r.value in qs && r.value.id == id && r.value.isActive
    ensures r.None? <==> forall qn :: qn in qs ==> !(qn.id == id && qn.isActive)
  {
    if |qs| == 0 then None
    else if qs[0].id == id && qs[0].isActive then Some(qs[0])
    else FindActive(qs[1..], id)
  }

  /** The question with that id, with the questionnaire it belongs to, whatever that questionnaire's state. */
  function FindQuestion(qs: seq<Questionnaire>, id: string): (r: Option<(Question, Questionnaire)>)
    ensures r.Some? ==> r.value.1 in qs && r.value.0 in r.value.1.questions && r.value.0.id == id
    ensures r.None? <==> forall qn, q :: qn in qs && q in qn.questions ==> q.id != id
  {
    if |qs| == 0 then None
    else
      var q := FindIn(qs[0].questions, id);
      if q.Some? then Some((q.value, qs[0])) else FindQuestion(qs[1..], id)
  }

  function FindIn(questions: seq<Question>, id: string): (r: Option<Question>)
    ensures r.Some? ==> r.value in questions && r.value.id == id
    ensures r.None? <==> forall q :: q in questions ==> q.id != id
  {
    if |questions| == 0 then None
    else if questions[0].id == id then Some(questions[0])
    else FindIn(questions[1..], id)
  }

  // ---------------------------------------------------------------------
  // validateAnswer

  /** The selected ids that are not among the question's options, in order. */
  function InvalidOptionIds(selected: seq<string>, options: seq<QuestionOption>): (r: seq<string>)
    ensures forall id :: id in r <==> id in selected && forall o :: o in options ==> o.id != id
    ensures |r| <= |selected|
  {
    if |selected| == 0 then []
    else
      var rest := InvalidOptionIds(selected[1..], options);
      if exists o :: o in options && o.id == selected[0] then rest else [selected[0]] + rest
  }

  predicate IsOptionOf(id: string, q: Question)
  {
    exists o :: o in q.options && o.id == id
  }

  /** What a required question demands of an answer. */
  predicate AnswerGiven(q: Question, dto: AnswerInput)
  {
    if IsTextType(q.kind) then dto.textAnswer.Some? && Trim(dto.textAnswer.value) != ""
    else if IsChoiceType(q.kind) then
      dto.selectedOptions.Some? && |dto.selectedOptions.value| > 0
      && (q.kind == SingleChoice ==> |dto.selectedOptions.value| == 1)
      && forall id :: id in dto.selectedOptions.value ==> IsOptionOf(id, q)
    else Present(dto.fileUrl)
  }

  /** The length rules, applied to any non-empty text answer of a question that has rules. */
  predicate LengthRespected(q: Question, dto: AnswerInput)
  {
    Present(dto.textAnswer) && q.validation.Some? ==>
      var rules := q.validation.value;
      var n := |dto.textAnswer.value|;
      (rules.minLength.Some? && rules.minLength.value != 0 ==> n >= rules.minLength.value)
      && (rules.maxLength.Some? && rules.maxLength.value != 0 ==> n <= rules.maxLength.value)
  }

  function RequiredCheck(q: Question, dto: AnswerInput): (r: Result<()>)
    ensures r.Ok? <==> !q.isRequired || AnswerGiven(q, dto)
  {
    if !q.isRequired then Ok(())
    else if IsTextType(q.kind) then
      if dto.textAnswer.None? || Trim(dto.textAnswer.value) == "" then
        Fail(BadRequest, "Answer is required for question: " + q.text)
      else Ok(())
    else if IsChoiceType(q.kind) then
      if dto.selectedOptions.None? || |dto.selectedOptions.value| == 0 then
        Fail(BadRequest, "Please select at least one option for: " + q.text)
      else if q.kind == SingleChoice && |dto.selectedOptions.value| > 1 then
        Fail(BadRequest, "Only one option can be selected for: " + q.text)
      else
        var invalid := InvalidOptionIds(dto.selectedOptions.value, q.options);
        if |invalid| > 0 then
          assert invalid[0] in invalid;
          Fail(BadRequest, "Invalid option IDs: " + Join(invalid, ", "))
        else Ok(())
    else if !Present(dto.fileUrl) then Fail(BadRequest, "File upload is required for: " + q.text)
    else Ok(())
  }

  function LengthCheck(q: Question, dto: AnswerInput): (r: Result<()>)
    ensures r.Ok? <==> LengthRespected(q, dto)
  {
    if Present(dto.textAnswer) && q.validation.Some? then
      var rules := q.validation.value;
      var n := |dto.textAnswer.value|;
      if rules.minLength.Some? && rules.minLength.value != 0 && n < rules.minLength.value then
        Fail(BadRequest, "Answer must be at least " + IntToString(rules.minLength.value) + " characters")
      else if rules.maxLength.Some? && rules.maxLength.value != 0 && n > rules.maxLength.value then
        Fail(BadRequest, "Answer must not exceed " + IntToString(rules.maxLength.value) + " characters")
      else Ok(())
    else Ok(())
  }

  /**
   * `validateAnswer`: the required-answer rules first, then the length rules,
   * every failure a BadRequest.
   */
  function ValidateAnswer(q: Question, dto: AnswerInput): (r: Result<()>)
    ensures r.Err? ==> r.error.status == BadRequest
    ensures r.Ok? <==> (q.isRequired ==> AnswerGiven(q, dto)) && LengthRespected(q, dto)
    ensures q.isRequired && IsTextType(q.kind) && (dto.textAnswer.None? || Trim(dto.textAnswer.value) == "") ==>
      r == Fail(BadRequest, "Answer is required for question: " + q.text)
    ensures q.isRequired && IsChoiceType(q.kind) && (dto.selectedOptions.None? || |dto.selectedOptions.value| == 0) ==>
      r == Fail(BadRequest, "Please select at least one option for: " + q.text)
    ensures q.isRequired && q.kind == FileUpload && !Present(dto.fileUrl) ==>
      r == Fail(BadRequest, "File upload is required for: " + q.text)
    ensures !q.isRequired && !LengthRespected(q, dto) ==> r.Err?
  {
    var required := RequiredCheck(q, dto);
    if required.Err? then required else LengthCheck(q, dto)
  }

  /** An optional choice question accepts any selection, even ids of no option, as long as the text rules hold. */
  lemma OptionalChoiceUnchecked(q: Question, dto: AnswerInput)
    requires !q.isRequired && IsChoiceType(q.kind) && !Present(dto.textAnswer)
    ensures ValidateAnswer(q, dto) == Ok(())
  {
  }

  /** Whitespace alone does not answer a required text question. */
  lemma BlankTextRejected(q: Question, dto: AnswerInput)
    requires q.isRequired && IsTextType(q.kind)
    requires dto.textAnswer.Some? && forall i :: 0 <= i < |dto.textAnswer.value| ==> IsWhitespace(dto.textAnswer.value[i])
    ensures ValidateAnswer(q, dto) == Fail(BadRequest, "Answer is required for question: " + q.text)
  {
    TrimBlank(dto.textAnswer.value);
  }

  // ---------------------------------------------------------------------
  // submitAnswer

  /** The row that is saved: the stored one, or a new one, with only the field of the question's type written. */
  function Upsert(existing: Option<UserAnswer>, userId: string, q: Question, dto: AnswerInput): (a: UserAnswer)
    requires existing.Some? ==> existing.value.userId == userId && existing.value.questionId == dto.questionId
    ensures a.userId == userId && a.questionId == dto.questionId
    ensures a.textAnswer == if IsTextType(q.kind) then dto.textAnswer
                            else if existing.Some? then existing.value.textAnswer else None
    ensures a.selectedOptions == if IsChoiceType(q.kind) then dto.selectedOptions
                                 else if existing.Some? then existing.value.selectedOptions else None
    ensures (a.fileUrl, a.fileName) == if q.kind == FileUpload then (dto.fileUrl, dto.fileName)
                                       else if existing.Some? then (existing.value.fileUrl, existing.value.fileName)
                                       else (None, None)
  {
    var base := if existing.Some? then existing.value else UserAnswer(userId, dto.questionId, None, None, None, None);
    if IsTextType(q.kind) then base.(textAnswer := dto.textAnswer)
    else if IsChoiceType(q.kind) then base.(selectedOptions := dto.selectedOptions)
    else base.(fileUrl := dto.fileUrl, fileName := dto.fileName)
  }

  /** Every stored answer sits under its own (userId, questionId). */
  ghost predicate Keyed(answers: map<AnswerKey, UserAnswer>)
  {
    forall k :: k in answers ==> answers[k].userId == k.0 && answers[k].questionId == k.1
  }

  /** `submitAnswer`: the row it saves, or the error it throws, in source order. */
  function AnswerOutcome(qs: seq<Questionnaire>, rows: seq<User>, answers: map<AnswerKey, UserAnswer>,
                         userId: string, dto: AnswerInput): (r: Result<UserAnswer>)
    requires Keyed(answers)
    ensures FindQuestion(qs, dto.questionId).None? ==> r == Fail(NotFound, "Question not found")
    ensures r.Ok? <==>
      FindQuestion(qs, dto.questionId).Some? && FindQuestion(qs, dto.questionId).value.1.isActive
      && FindFirst(rows, ById(userId)).Some? && !FindFirst(rows, ById(userId)).value.questionnaireCompleted
      && ValidateAnswer(FindQuestion(qs, dto.questionId).value.0, dto).Ok?
    ensures (FindQuestion(qs, dto.questionId).Some? && FindFirst(rows, ById(userId)).Some?
             && FindFirst(rows, ById(userId)).value.questionnaireCompleted) ==> r.Err?
    ensures r.Ok? ==>
      r.value == Upsert(if (userId, dto.questionId) in answers then Some(answers[(userId, dto.questionId)]) else None,
                        userId, FindQuestion(qs, dto.questionId).value.0, dto)
  {
    var found := FindQuestion(qs, dto.questionId);
    if found.None? then Fail(NotFound, "Question not found")
    else
      var q := found.value.0;
      if !found.value.1.isActive then Fail(BadRequest, "Questionnaire is not active")
      else
        var user := FindFirst(rows, ById(userId));
        if user.None? then Fail(NotFound, "User not found")
        else if user.value.questionnaireCompleted then Fail(BadRequest, CompletedMessage)
        else
          var valid := ValidateAnswer(q, dto);
          if valid.Err? then Err(valid.error)
          else
            var key := (userId, dto.questionId);
            Ok(Upsert(if key in answers then Some(answers[key]) else None, userId, q, dto))
  }

  /** Re-submitting the same answer stores the same row again. */
  lemma ResubmitIsIdempotent(qs: seq<Questionnaire>, rows: seq<User>, answers: map<AnswerKey, UserAnswer>,
                             userId: string, dto: AnswerInput)
    requires Keyed(answers)
    requires AnswerOutcome(qs, rows, answers, userId, dto).Ok?
    ensures var a := AnswerOutcome(qs, rows, answers, userId, dto).value;
      Keyed(answers[(userId, dto.questionId) := a])
      && AnswerOutcome(qs, rows, answers[(userId, dto.questionId) := a], userId, dto) == Ok(a)
  {
  }

  // ---------------------------------------------------------------------
  // submitAnswers: one answer after the other, stopping at the first failure

  /** The state after a batch: the answers table, the rows saved, and the error that stopped it. */
  datatype Batch = Batch(answers: map<AnswerKey, UserAnswer>, saved: seq<UserAnswer>, error: Option<Error>)

  function SubmitAll(qs: seq<Questionnaire>, rows: seq<User>, answers: map<AnswerKey, UserAnswer>,
                     userId: string, dtos: seq<AnswerInput>): (b: Batch)
    requires Keyed(answers)
    ensures Keyed(b.answers)
    ensures |b.saved| <= |dtos|
    ensures b.error.None? ==> |b.saved| == |dtos|
    ensures b.error.Some? ==> |b.saved| < |dtos|
    ensures forall i :: 0 <= i < |b.saved| ==> b.saved[i].userId == userId && b.saved[i].questionId == dtos[i].questionId
    decreases |dtos|
  {
    if |dtos| == 0 then Batch(answers, [], None)
    else
      var r := AnswerOutcome(qs, rows, answers, userId, dtos[0]);
      if r.Err? then Batch(answers, [], Some(r.error))
      else
        var rest := SubmitAll(qs, rows, answers[(userId, dtos[0].questionId) := r.value], userId, dtos[1..]);
        Batch(rest.answers, [r.value] + rest.saved, rest.error)
  }

  /** `saved` followed by the rows of a batch. */
  function Prepend(saved: seq<UserAnswer>, b: Batch): (c: Batch)
    ensures c.answers == b.answers && c.error == b.error
    ensures |c.saved| == |saved| + |b.saved|
    ensures c.saved[..|saved|] == saved && c.saved[|saved|..] == b.saved
  {
    Batch(b.answers, saved + b.saved, b.error)
  }

  /** A batch starts with the first answer: its rejection stops the batch, its row is saved first. */
  lemma SubmitAllFirst(qs: seq<Questionnaire>, rows: seq<User>, answers: map<AnswerKey, UserAnswer>,
                       userId: string, dtos: seq<AnswerInput>)
    requires Keyed(answers) && |dtos| > 0
    ensures var r := AnswerOutcome(qs, rows, answers, userId, dtos[0]);
      SubmitAll(qs, rows, answers, userId, dtos)
      == if r.Err? then Batch(answers, [], Some(r.error))
         else var rest := SubmitAll(qs, rows, answers[(userId, dtos[0].questionId) := r.value], userId, dtos[1..]);
           Batch(rest.answers, [r.value] + rest.saved, rest.error)
  {
  }

  /** One turn of the loop of submitAnswers, against SubmitAll. */
  lemma BatchStep(qs: seq<Questionnaire>, rows: seq<User>, start: map<AnswerKey, UserAnswer>,
                  answers: map<AnswerKey, UserAnswer>, userId: string, dtos: seq<AnswerInput>,
                  saved: seq<UserAnswer>, i: int)
    requires Keyed(start) && Keyed(answers) && 0 <= i < |dtos|
    requires SubmitAll(qs, rows, start, userId, dtos) == Prepend(saved, SubmitAll(qs, rows, answers, userId, dtos[i..]))
    ensures var r := AnswerOutcome(qs, rows, answers, userId, dtos[i]);
      if r.Err? then SubmitAll(qs, rows, start, userId, dtos) == Batch(answers, saved, Some(r.error))
      else
        var next := answers[(userId, dtos[i].questionId) := r.value];
        Keyed(next)
        && SubmitAll(qs, rows, start, userId, dtos) == Prepend(saved + [r.value], SubmitAll(qs, rows, next, userId, dtos[i + 1..]))
  {
    var rest := dtos[i..];
    assert rest[0] == dtos[i] && rest[1..] == dtos[i + 1..];
    SubmitAllFirst(qs, rows, answers, userId, rest);
    var r := AnswerOutcome(qs, rows, answers, userId, dtos[i]);
    if r.Ok? {
      var next := answers[(userId, dtos[i].questionId) := r.value];
      var tail := SubmitAll(qs, rows, next, userId, dtos[i + 1..]);
      assert SubmitAll(qs, rows, answers, userId, rest) == Prepend([r.value], tail);
      assert saved + ([r.value] + tail.saved) == (saved + [r.value]) + tail.saved;
    }
  }

  /** The loop of submitAnswers has run through every answer. */
  lemma BatchEnd(qs: seq<Questionnaire>, rows: seq<User>, start: map<AnswerKey, UserAnswer>,
                 answers: map<AnswerKey, UserAnswer>, userId: string, dtos: seq<AnswerInput>, saved: seq<UserAnswer>)
    requires Keyed(start) && Keyed(answers)
    requires SubmitAll(qs, rows, start, userId, dtos) == Prepend(saved, SubmitAll(qs, rows, answers, userId, dtos[|dtos|..]))
    ensures SubmitAll(qs, rows, start, userId, dtos) == Batch(answers, saved, None)
  {
    assert dtos[|dtos|..] == [];
  }

  /**
   * A batch is not atomic: when a later answer is rejected, the earlier
   * accepted ones stay saved.
   */
  lemma BatchKeepsEarlierAnswers(qs: seq<Questionnaire>, rows: seq<User>, answers: map<AnswerKey, UserAnswer>,
                                 userId: string, first: AnswerInput, second: AnswerInput)
    requires Keyed(answers)
    requires AnswerOutcome(qs, rows, answers, userId, first).Ok?
    requires var a := AnswerOutcome(qs, rows, answers, userId, first).value;
      AnswerOutcome(qs, rows, answers[(userId, first.questionId) := a], userId, second).Err?
    ensures var b := SubmitAll(qs, rows, answers, userId, [first, second]);
      b.error.Some? && b.answers == answers[(userId, first.questionId) := AnswerOutcome(qs, rows, answers, userId, first).value]
  {
    assert [first, second][1..] == [second];
  }

  // ---------------------------------------------------------------------
  // submitStep

  /** `questions.filter(p)`. */
  function Where(qs: seq<Question>, p: Question -> bool): (r: seq<Question>)
    ensures forall q :: q in r <==> q in qs && p(q)
    ensures |r| <= |qs|
    ensures |r| == |qs| <==> forall q :: q in qs ==> p(q)
  {
    if |qs| == 0 then []
    else
      var rest := Where(qs[1..], p);
      assert forall q :: q in qs <==> q == qs[0] || q in qs[1..];
      if p(qs[0]) then [qs[0]] + rest else rest
  }

  /** `questions.map((q) => q.id)`. */
  function Ids(qs: seq<Question>): (ids: seq<string>)
    ensures |ids| == |qs|
    ensures forall id :: id in ids <==> exists q :: q in qs && q.id == id
  {
    if |qs| == 0 then []
    else
      var rest := Ids(qs[1..]);
      assert forall q :: q in qs <==> q == qs[0] || q in qs[1..];
      [qs[0].id] + rest
  }

  /** `Math.max(...questions.map((q) => q.stepNumber))` of a non-empty list. */
  function MaxStep(qs: seq<Question>): (m: int)
    requires |qs| > 0
    ensures exists q :: q in qs && q.stepNumber == m
    ensures forall q :: q in qs ==> q.stepNumber <= m
  {
    if |qs| == 1 then qs[0].stepNumber
    else
      var rest := MaxStep(qs[1..]);
      assert forall q :: q in qs <==> q == qs[0] || q in qs[1..];
      if qs[0].stepNumber > rest then qs[0].stepNumber else rest
  }

  /** The first submitted question id that is not among `ids`. */
  function FirstForeign(dtos: seq<AnswerInput>, ids: seq<string>): (r: Option<string>)
    ensures r.None? <==> forall a :: a in dtos ==> a.questionId in ids
    ensures r.Some? ==> r.value !in ids && exists a :: a in dtos && a.questionId == r.value
  {
    if |dtos| == 0 then None
    else if dtos[0].questionId !in ids then Some(dtos[0].questionId)
    else
      assert forall a :: a in dtos <==> a == dtos[0] || a in dtos[1..];
      FirstForeign(dtos[1..], ids)
  }

  /** The loop of submitStep that checks every answer against the step's question ids. */
  method FindForeign(dtos: seq<AnswerInput>, ids: seq<string>) returns (foreign: Option<string>)
    ensures foreign == FirstForeign(dtos, ids)
  {
    var i := 0;
    while i < |dtos|
      invariant 0 <= i <= |dtos|
      invariant FirstForeign(dtos, ids) == FirstForeign(dtos[i..], ids)
    {
      if dtos[i].questionId !in ids {
        return Some(dtos[i].questionId);
      }
      assert dtos[i..][1..] == dtos[i + 1..];
      i := i + 1;
    }
    return None;
  }

  /** The question ids of `qs` the user has an answer for: `getUserAnswers(userId, questionnaireId)`. */
  function AnsweredIds(answers: map<AnswerKey, UserAnswer>, userId: string, qs: seq<Question>): (ids: set<string>)
    ensures forall id :: id in ids <==> (userId, id) in answers && id in Ids(qs)
  {
    set k | k in answers && k.0 == userId && k.1 in Ids(qs) :: k.1
  }

  /** Every required question has an answer. */
  predicate AllRequiredIn(qs: seq<Question>, answered: set<string>)
  {
    forall q :: q in qs && q.isRequired ==> q.id in answered
  }

  datatype StepInput = StepInput(questionnaireId: string, stepNumber: int, answers: seq<AnswerInput>)

  datatype StepResult = StepResult(answers: seq<UserAnswer>, isLastStep: bool, questionnaireCompleted: bool)

  /** What `submitStep` leaves in the answers table and what it answers. */
  datatype StepRun = StepRun(answers: map<AnswerKey, UserAnswer>, result: Result<StepResult>)

  /**
   * The checks of `submitStep` that come before anything is saved: the
   * arranged questionnaire when they pass, the error otherwise.
   */
  function StepCheck(qs: seq<Questionnaire>, rows: seq<User>, userId: string, dto: StepInput): (r: Result<Questionnaire>)
    ensures r.Err? ==> r.error.status in {NotFound, BadRequest}
    ensures r.Ok? ==>
      FindActive(qs, dto.questionnaireId).Some? && r.value == Arranged(FindActive(qs, dto.questionnaireId).value)
      && (exists q :: q in r.value.questions && q.stepNumber == dto.stepNumber)
      && forall a :: a in dto.answers ==>
           exists q :: q in r.value.questions && q.stepNumber == dto.stepNumber && q.id == a.questionId
    ensures FindActive(qs, dto.questionnaireId).None? ==> r == Fail(NotFound, "Questionnaire not found")
  {
    var found := FindActive(qs, dto.questionnaireId);
    if found.None? then Fail(NotFound, "Questionnaire not found")
    else
      var qn := Arranged(found.value);
      var user := FindFirst(rows, ById(userId));
      if user.None? then Fail(NotFound, "User not found")
      else if user.value.questionnaireCompleted then Fail(BadRequest, CompletedMessage)
      else
        var step := Where(qn.questions, (q: Question) => q.stepNumber == dto.stepNumber);
        if |step| == 0 then
          Fail(BadRequest, "Step " + IntToString(dto.stepNumber) + " not found in this questionnaire")
        else
          var foreign := FirstForeign(dto.answers, Ids(step));
          if foreign.Some? then
            Fail(BadRequest, "Question " + foreign.value + " does not belong to step " + IntToString(dto.stepNumber))
          else
            assert step[0] in step;
            Ok(qn)
  }

  /** `submitStep`: the checks, the answers one by one, then the completion test on the last step. */
  function StepOutcome(qs: seq<Questionnaire>, rows: seq<User>, answers: map<AnswerKey, UserAnswer>,
                       userId: string, dto: StepInput): (s: StepRun)
    requires Keyed(answers)
    ensures Keyed(s.answers)
    ensures StepCheck(qs, rows, userId, dto).Err? ==> s == StepRun(answers, Err(StepCheck(qs, rows, userId, dto).error))
  {
    var checked := StepCheck(qs, rows, userId, dto);
    if checked.Err? then StepRun(answers, Err(checked.error))
    else
      var qn := checked.value;
      var b := SubmitAll(qs, rows, answers, userId, dto.answers);
      if b.error.Some? then StepRun(b.answers, Err(b.error.value))
      else
        var isLast := dto.stepNumber == MaxStep(qn.questions);
        var completed := isLast && AllRequiredIn(qn.questions, AnsweredIds(b.answers, userId, qn.questions));
        StepRun(b.answers, Ok(StepResult(b.saved, isLast, completed)))
  }

  /** The arranged questionnaire has the same (id, stepNumber, isRequired) triples as the stored one. */
  lemma ArrangedSameQuestions(qn: Questionnaire, id: string, n: int, required: bool)
    ensures (exists q :: q in Arranged(qn).questions && q.id == id && q.stepNumber == n && q.isRequired == required)
        <==> (exists q :: q in qn.questions && q.id == id && q.stepNumber == n && q.isRequired == required)
  {
    ArrangedIsOrdered(qn);
    if q :| q in qn.questions && q.id == id && q.stepNumber == n && q.isRequired == required {
      assert ArrangeOptions(q) in Arranged(qn).questions;
    }
  }

  /**
   * A step request naming a question of another step is rejected before any
   * answer is saved, even when the earlier answers are valid.
   */
  lemma ForeignAnswerSavesNothing(qs: seq<Questionnaire>, rows: seq<User>, answers: map<AnswerKey, UserAnswer>,
                                  userId: string, dto: StepInput, a: AnswerInput)
    requires Keyed(answers)
    requires FindActive(qs, dto.questionnaireId).Some?
    requires a in dto.answers
    requires forall q :: q in FindActive(qs, dto.questionnaireId).value.questions && q.id == a.questionId ==>
      q.stepNumber != dto.stepNumber
    ensures StepOutcome(qs, rows, answers, userId, dto).answers == answers
    ensures StepOutcome(qs, rows, answers, userId, dto).result.Err?
  {
    var checked := StepCheck(qs, rows, userId, dto);
    if checked.Ok? {
      var q :| q in checked.value.questions && q.stepNumber == dto.stepNumber && q.id == a.questionId;
      ArrangedSameQuestions(FindActive(qs, dto.questionnaireId).value, q.id, q.stepNumber, q.isRequired);
    }
  }

  /** With every required question of the stored questionnaire, the arranged one agrees on the completion test. */
  lemma ArrangedAllRequired(qn: Questionnaire, answers: map<AnswerKey, UserAnswer>, userId: string)
    ensures AllRequiredIn(Arranged(qn).questions, AnsweredIds(answers, userId, Arranged(qn).questions))
        <==> forall q :: q in qn.questions && q.isRequired ==> (userId, q.id) in answers
  {
    var qs := Arranged(qn).questions;
    ArrangedIsOrdered(qn);
    forall q | q in qn.questions
      ensures q.id in Ids(qs)
    {
      assert ArrangeOptions(q) in qs;
    }
  }

  /**
   * A submitted step reports isLastStep exactly when no question has a
   * higher step number, and marks the questionnaire completed exactly when
   * it is the last step and every required question of the questionnaire
   * then has an answer.
   */
  lemma StepCompletion(qs: seq<Questionnaire>, rows: seq<User>, answers: map<AnswerKey, UserAnswer>,
                       userId: string, dto: StepInput)
    requires Keyed(answers)
    requires StepOutcome(qs, rows, answers, userId, dto).result.Ok?
    ensures FindActive(qs, dto.questionnaireId).Some?
    ensures var qn := FindActive(qs, dto.questionnaireId).value;
      var s := StepOutcome(qs, rows, answers, userId, dto);
      (s.result.value.isLastStep <==> forall q :: q in qn.questions ==> q.stepNumber <= dto.stepNumber)
      && (s.result.value.questionnaireCompleted <==>
            s.result.value.isLastStep && forall q :: q in qn.questions && q.isRequired ==> (userId, q.id) in s.answers)
  {
    var stored := FindActive(qs, dto.questionnaireId).value;
    var qn := StepCheck(qs, rows, userId, dto).value;
    var s := StepOutcome(qs, rows, answers, userId, dto);
    ArrangedAllRequired(stored, s.answers, userId);
    ArrangedIsOrdered(stored);
    var m := MaxStep(qn.questions);
    if forall q :: q in stored.questions ==> q.stepNumber <= dto.stepNumber {
      var p :| p in qn.questions && p.stepNumber == m;
      var o :| o in stored.questions && p == ArrangeOptions(o);
    } else {
      var o :| o in stored.questions && o.stepNumber > dto.stepNumber;
      assert ArrangeOptions(o) in qn.questions;
    }
  }

  /** A completed questionnaire freezes every answer of that user, in every questionnaire. */
  lemma CompletionFreezesAnswers(qs: seq<Questionnaire>, rows: seq<User>, answers: map<AnswerKey, UserAnswer>,
                                 userId: string, dto: AnswerInput)
    requires Keyed(answers) && UniqueRows(rows)
    requires exists u :: u in rows && u.id == userId && u.questionnaireCompleted
    ensures AnswerOutcome(qs, rows, answers, userId, dto).Err?
  {
    var u :| u in rows && u.id == userId && u.questionnaireCompleted;
    FindOwnId(rows, u);
  }

  // ---------------------------------------------------------------------
  // getQuestionnaireProgress

  datatype StepStatus = StepStatus(
    stepNumber: int,
    isCompleted: bool,
    totalQuestions: nat,
    answeredQuestions: nat,
    requiredQuestions: nat,
    requiredAnswered: nat)

  datatype Progress = Progress(
    questionnaireId: string,
    totalQuestions: nat,
    answeredQuestions: nat,
    percent: int,
    isCompleted: bool,
    totalSteps: nat,
    currentStep: Option<int>,
    stepStatus: seq<StepStatus>)

  /** `Math.round(answered / total * 100)`, or 0 without questions, in integer arithmetic. */
  function RoundPercent(answered: nat, total: nat): (p: int)
    ensures total == 0 ==> p == 0
    ensures answered <= total ==> 0 <= p <= 100
    ensures total > 0 && answered == total ==> p == 100
  {
    if total > 0 then
      var p := (200 * answered + total) / (2 * total);
      RoundingBounds(answered, total, p);
      p
    else 0
  }

  lemma RoundingBounds(answered: nat, total: nat, p: int)
    requires total > 0 && p == (200 * answered + total) / (2 * total)
    ensures 2 * total * p <= 200 * answered + total < 2 * total * (p + 1)
    ensures answered <= total ==> 0 <= p <= 100
    ensures answered == total ==> p == 100
  {
    var n, d := 200 * answered + total, 2 * total;
    assert d * p <= n < d * (p + 1);
    if p < 0 {
      MulLess(d, 0, p + 1);
    }
    if answered <= total && p > 100 {
      MulLess(d, p, 101);
    }
    if answered == total && p < 100 {
      MulLess(d, 100, p + 1);
    }
  }

  /** The percentage is `answered / total * 100` rounded to the nearest integer, halves upwards. */
  lemma RoundPercentIsNearest(answered: nat, total: nat)
    requires total > 0
    ensures var p := RoundPercent(answered, total);
      2 * total * p <= 200 * answered + total < 2 * total * (p + 1)
  {
    RoundingBounds(answered, total, RoundPercent(answered, total));
  }

  /** `d * a < d * b` rules out `a >= b` for a positive `d`. */
  lemma MulLess(d: int, a: int, b: int)
    requires d > 0 && a >= b
    ensures d * a >= d * b
  {
  }

  predicate Increasing(s: seq<int>)
  {
    forall i, j :: 0 <= i < j < |s| ==> s[i] < s[j]
  }

  function AddStep(s: seq<int>, n: int): (r: seq<int>)
    requires Increasing(s)
    ensures Increasing(r)
    ensures forall m :: m in r <==> m in s || m == n
  {
    if |s| == 0 then [n]
    else if n < s[0] then [n] + s
    else if n == s[0] then s
    else
      var rest := AddStep(s[1..], n);
      assert forall m :: m in s <==> m == s[0] || m in s[1..];
      assert forall k :: 0 <= k < |rest| ==> rest[k] > s[0] by {
        forall k | 0 <= k < |rest|
          ensures rest[k] > s[0]
        {
          assert rest[k] in rest;
        }
      }
      [s[0]] + rest
  }

  /** `[...new Set(questions.map((q) => q.stepNumber))].sort((a, b) => a - b)`. */
  function StepNumbers(qs: seq<Question>): (r: seq<int>)
    ensures Increasing(r)
    ensures forall n :: n in r <==> exists q :: q in qs && q.stepNumber == n
  {
    if |qs| == 0 then []
    else
      var init := qs[..|qs| - 1];
      assert forall q :: q in qs <==> q in init || q == qs[|qs| - 1];
      AddStep(StepNumbers(init), qs[|qs| - 1].stepNumber)
  }

  /** The status of one step. */
  function StepStatusOf(qs: seq<Question>, answered: set<string>, n: int): (st: StepStatus)
    ensures st.stepNumber == n
  {
    var step := Where(qs, (q: Question) => q.stepNumber == n);
    var required := Where(step, (q: Question) => q.isRequired);
    var answeredInStep := Where(step, (q: Question) => q.id in answered);
    var requiredAnswered := Where(required, (q: Question) => q.id in answered);
    StepStatus(n,
      if |required| > 0 then |requiredAnswered| == |required| else |answeredInStep| == |step|,
      |step|, |answeredInStep|, |required|, |requiredAnswered|)
  }

  /**
   * A step is completed when all its required questions are answered, or,
   * when it has none, when all of its questions are answered.
   */
  lemma StepCompletedMeans(qs: seq<Question>, answered: set<string>, n: int)
    ensures StepStatusOf(qs, answered, n).isCompleted <==>
      if exists q :: q in qs && q.stepNumber == n && q.isRequired
      then forall q :: q in qs && q.stepNumber == n && q.isRequired ==> q.id in answered
      else forall q :: q in qs && q.stepNumber == n ==> q.id in answered
  {
    var step := Where(qs, (q: Question) => q.stepNumber == n);
    var required := Where(step, (q: Question) => q.isRequired);
    if exists q :: q in qs && q.stepNumber == n && q.isRequired {
      var q :| q in qs && q.stepNumber == n && q.isRequired;
      assert q in required;
    }
  }

  /** `stepNumbers.map(...)`: one status per step number, in the same order. */
  function Statuses(qs: seq<Question>, answered: set<string>, steps: seq<int>): (r: seq<StepStatus>)
    ensures |r| == |steps|
    ensures forall i :: 0 <= i < |steps| ==> r[i].stepNumber == steps[i]
  {
    if |steps| == 0 then [] else [StepStatusOf(qs, answered, steps[0])] + Statuses(qs, answered, steps[1..])
  }

  lemma {:induction false} StatusesAt(qs: seq<Question>, answered: set<string>, steps: seq<int>, i: int)
    requires 0 <= i < |steps|
    ensures Statuses(qs, answered, steps)[i] == StepStatusOf(qs, answered, steps[i])
  {
    if i > 0 {
      StatusesAt(qs, answered, steps[1..], i - 1);
    }
  }

  /** The step number of the first step that is not completed. */
  function FirstIncomplete(statuses: seq<StepStatus>): (r: Option<int>)
    ensures r.None? <==> forall i :: 0 <= i < |statuses| ==> statuses[i].isCompleted
    ensures r.Some? ==> exists i :: 0 <= i < |statuses| && !statuses[i].isCompleted && r.value == statuses[i].stepNumber
                                    && forall j :: 0 <= j < i ==> statuses[j].isCompleted
  {
    if |statuses| == 0 then None
    else if !statuses[0].isCompleted then Some(statuses[0].stepNumber)
    else
      var rest := FirstIncomplete(statuses[1..]);
      if rest.Some? then
        var i :| 0 <= i < |statuses[1..]| && !statuses[1..][i].isCompleted && rest.value == statuses[1..][i].stepNumber
                 && forall j :: 0 <= j < i ==> statuses[1..][j].isCompleted;
        assert statuses[i + 1] == statuses[1..][i];
        rest
      else rest
  }

  /** `stepStatus.find((s) => !s.isCompleted)?.stepNumber || stepNumbers[stepNumbers.length - 1]`. */
  function CurrentStep(statuses: seq<StepStatus>, steps: seq<int>): Option<int>
  {
    var first := FirstIncomplete(statuses);
    if first.Some? && first.value != 0 then first
    else if |steps| > 0 then Some(steps[|steps| - 1])
    else None
  }

  /**
   * The current step is the first step not completed; the last step when
   * all are completed; and, through `||`, also the last step when the first
   * incomplete step is numbered 0.
   */
  lemma {:induction false} CurrentStepRule(statuses: seq<StepStatus>, steps: seq<int>)
    requires |statuses| == |steps| > 0
    requires forall i :: 0 <= i < |steps| ==> statuses[i].stepNumber == steps[i]
    ensures (forall i :: 0 <= i < |statuses| ==> statuses[i].isCompleted) ==>
      CurrentStep(statuses, steps) == Some(steps[|steps| - 1])
    ensures forall i :: 0 <= i < |statuses| && !statuses[i].isCompleted && steps[i] != 0
                        && (forall j :: 0 <= j < i ==> statuses[j].isCompleted) ==>
      CurrentStep(statuses, steps) == Some(steps[i])
    ensures !statuses[0].isCompleted && steps[0] == 0 ==> CurrentStep(statuses, steps) == Some(steps[|steps| - 1])
  {
    forall i | 0 <= i < |statuses| && !statuses[i].isCompleted && steps[i] != 0
               && (forall j :: 0 <= j < i ==> statuses[j].isCompleted)
      ensures CurrentStep(statuses, steps) == Some(steps[i])
    {
      var first := FirstIncomplete(statuses);
      var k :| 0 <= k < |statuses| && !statuses[k].isCompleted && first.value == statuses[k].stepNumber
               && forall j :: 0 <= j < k ==> statuses[j].isCompleted;
      assert k == i;
    }
  }

  /** The report of getQuestionnaireProgress for the questions and the ids of the answered ones. */
  function ProgressOf(questionnaireId: string, qs: seq<Question>, answered: set<string>): (p: Progress)
    ensures p.totalSteps == |p.stepStatus|
    ensures p.isCompleted <==> forall q :: q in qs && q.isRequired ==> q.id in answered
    ensures p.totalQuestions == |qs| && p.answeredQuestions == |answered|
  {
    var steps := StepNumbers(qs);
    var statuses := Statuses(qs, answered, steps);
    Progress(questionnaireId, |qs|, |answered|, RoundPercent(|answered|, |qs|), AllRequiredIn(qs, answered),
             |steps|, CurrentStep(statuses, steps), statuses)
  }

  /** A report's step list and current step are those of its questions' step numbers. */
  lemma ProgressShape(questionnaireId: string, qs: seq<Question>, answered: set<string>)
    ensures ProgressOf(questionnaireId, qs, answered).stepStatus == Statuses(qs, answered, StepNumbers(qs))
    ensures ProgressOf(questionnaireId, qs, answered).currentStep
         == CurrentStep(Statuses(qs, answered, StepNumbers(qs)), StepNumbers(qs))
  {
  }

  /** Each step number of the questions appears once, in increasing order. */
  predicate StepsReported(qs: seq<Question>, ss: seq<StepStatus>)
  {
    (forall i, j :: 0 <= i < j < |ss| ==> ss[i].stepNumber < ss[j].stepNumber)
    && (forall i :: 0 <= i < |ss| ==> exists q :: q in qs && q.stepNumber == ss[i].stepNumber)
    && (forall q :: q in qs ==> exists i :: 0 <= i < |ss| && ss[i].stepNumber == q.stepNumber)
  }

  /** The steps are reported once each, in increasing order. */
  lemma ProgressSteps(questionnaireId: string, qs: seq<Question>, answered: set<string>)
    ensures StepsReported(qs, ProgressOf(questionnaireId, qs, answered).stepStatus)
  {
    ProgressShape(questionnaireId, qs, answered);
    StatusesSteps(qs, answered, StepNumbers(qs));
  }

  lemma StatusesSteps(qs: seq<Question>, answered: set<string>, steps: seq<int>)
    requires steps == StepNumbers(qs)
    ensures StepsReported(qs, Statuses(qs, answered, steps))
  {
    var ss := Statuses(qs, answered, steps);
    forall i | 0 <= i < |ss|
      ensures exists q :: q in qs && q.stepNumber == ss[i].stepNumber
    {
      assert steps[i] in steps;
    }
    forall q | q in qs
      ensures exists i :: 0 <= i < |ss| && ss[i].stepNumber == q.stepNumber
    {
      assert q.stepNumber in steps;
    }
  }

  /**
   * The current step is the first step not completed; the last step when all
   * are completed or when the first incomplete step is numbered 0.
   */
  predicate CurrentStepFollows(ss: seq<StepStatus>, current: Option<int>)
  {
    |ss| > 0
    && ((forall i :: 0 <= i < |ss| ==> ss[i].isCompleted) ==> current == Some(ss[|ss| - 1].stepNumber))
    && (forall i :: (0 <= i < |ss| && !ss[i].isCompleted && ss[i].stepNumber != 0
                     && (forall j :: 0 <= j < i ==> ss[j].isCompleted)) ==> current == Some(ss[i].stepNumber))
    && (!ss[0].isCompleted && ss[0].stepNumber == 0 ==> current == Some(ss[|ss| - 1].stepNumber))
  }

  /** The current step of a report follows CurrentStepRule over its own step list. */
  lemma ProgressCurrentStep(questionnaireId: string, qs: seq<Question>, answered: set<string>)
    requires |qs| > 0
    ensures var p := ProgressOf(questionnaireId, qs, answered);
      CurrentStepFollows(p.stepStatus, p.currentStep)
  {
    ProgressShape(questionnaireId, qs, answered);
    StatusesCurrentStep(qs, answered, StepNumbers(qs));
  }

  lemma StatusesCurrentStep(qs: seq<Question>, answered: set<string>, steps: seq<int>)
    requires |qs| > 0 && steps == StepNumbers(qs)
    ensures CurrentStepFollows(Statuses(qs, answered, steps), CurrentStep(Statuses(qs, answered, steps), steps))
  {
    assert qs[0].stepNumber in steps;
    CurrentStepRule(Statuses(qs, answered, steps), steps);
  }

  lemma {:induction false} IdsBound(qs: seq<Question>, ids: set<string>)
    requires forall id :: id in ids ==> id in Ids(qs)
    ensures |ids| <= |qs|
  {
    if |qs| > 0 {
      var rest := ids - {qs[0].id};
      forall id | id in rest
        ensures id in Ids(qs[1..])
      {
        assert Ids(qs) == [qs[0].id] + Ids(qs[1..]);
      }
      IdsBound(qs[1..], rest);
    }
  }

  /** The percentage of a user's progress lies between 0 and 100. */
  lemma ProgressPercentBounded(questionnaireId: string, qs: seq<Question>, answers: map<AnswerKey, UserAnswer>, userId: string)
    ensures var p := ProgressOf(questionnaireId, qs, AnsweredIds(answers, userId, qs));
      0 <= p.percent <= 100 && p.answeredQuestions <= p.totalQuestions
  {
    IdsBound(qs, AnsweredIds(answers, userId, qs));
  }

  // ---------------------------------------------------------------------
  // checkAllQuestionnairesCompleted

  /** An answer of the user, with the questionnaire its question belongs to. */
  datatype AnswerRef = AnswerRef(questionnaireId: string, questionId: string)

  /** Every required question of every listed questionnaire has an answer. */
  ghost predicate EveryQuestionnaireAnswered(active: seq<Questionnaire>, refs: seq<AnswerRef>)
  {
    forall qn, q :: qn in active && q in qn.questions && q.isRequired ==> AnswerRef(qn.id, q.id) in refs
  }

  /**
   * `checkAllQuestionnairesCompleted`, from the active questionnaires and the
   * user's answers that the two queries return.
   */
  method CheckAllQuestionnairesCompleted(active: seq<Questionnaire>, refs: seq<AnswerRef>) returns (done: bool)
    ensures done <==> EveryQuestionnaireAnswered(active, refs)
  {
    var groups: map<string, set<string>> := map[];
    var i := 0;
    while i < |refs|
      invariant 0 <= i <= |refs|
      invariant forall qid, id :: qid in groups && id in groups[qid] <==> AnswerRef(qid, id) in refs[..i]
    {
      var r := refs[i];
      if r.questionnaireId !in groups {
        groups := groups[r.questionnaireId := {}];
      }
      groups := groups[r.questionnaireId := groups[r.questionnaireId] + {r.questionId}];
      assert refs[..i + 1] == refs[..i] + [r];
      i := i + 1;
    }
    assert refs[..i] == refs;
    var k := 0;
    while k < |active|
      invariant 0 <= k <= |active|
      invariant forall qn, q :: qn in active[..k] && q in qn.questions && q.isRequired ==> AnswerRef(qn.id, q.id) in refs
    {
      var qn := active[k];
      var answered := if qn.id in groups then groups[qn.id] else {};
      var required := Where(qn.questions, (q: Question) => q.isRequired);
      var j := 0;
      while j < |required|
        invariant 0 <= j <= |required|
        invariant forall q :: q in required[..j] ==> AnswerRef(qn.id, q.id) in refs
      {
        if required[j].id !in answered {
          assert qn in active && required[j] in qn.questions;
          return false;
        }
        assert required[..j + 1] == required[..j] + [required[j]];
        j := j + 1;
      }
      assert required[..j] == required;
      assert active[..k + 1] == active[..k] + [qn];
      k := k + 1;
    }
    assert active[..k] == active;
    return true;
  }

  // ---------------------------------------------------------------------
  // The service over its tables

  /**
   * QuestionnaireService with the tables it works on: the questionnaires
   * (with their questions and options), which it only reads, the
   * `user_answers` rows keyed by (userId, questionId), and the users table.
   */
  class QuestionnaireService {
    const questionnaires: seq<Questionnaire>
    var answers: map<AnswerKey, UserAnswer>
    const users: UserStore

    ghost predicate Valid()
      reads this, users
    {
      users.Valid() && Keyed(answers)
    }

    constructor(questionnaires: seq<Questionnaire>, users: UserStore)
      requires users.Valid()
      ensures this.questionnaires == questionnaires && this.users == users && answers == map[]
      ensures Valid()
    {
      this.questionnaires := questionnaires;
      this.users := users;
      answers := map[];
    }

    /**
     * `getQuestionnaireById`: the active questionnaire with its questions
     * sorted in place by (stepNumber, displayOrder) and each question's
     * options sorted in place by displayOrder.
     */
    method GetQuestionnaireById(id: string) returns (r: Result<Questionnaire>)
      ensures FindActive(questionnaires, id).None? ==> r == Fail(NotFound, "Questionnaire not found")
      ensures FindActive(questionnaires, id).Some? ==> r == Ok(Arranged(FindActive(questionnaires, id).value))
    {
      var found := FindActive(questionnaires, id);
      if found.None? {
        return Fail(NotFound, "Questionnaire not found");
      }
      var qn := found.value;
      var a := new Question[|qn.questions|](i requires 0 <= i < |qn.questions| => qn.questions[i]);
      assert a[..] == qn.questions;
      SortInPlace(a, QuestionRank);
      ghost var sorted := a[..];
      SortEachOptions(a);
      assert a[..] == Arranged(qn).questions by {
        assert forall i :: 0 <= i < a.Length ==> a[i] == ArrangeOptions(sorted[i]);
      }
      r := Ok(qn.(questions := a[..]));
    }

    /** `questions.forEach((q) => q.options.sort(...))`. */
    static method SortEachOptions(a: array<Question>)
      modifies a
      ensures a[..] == seq(a.Length, i requires 0 <= i < a.Length => ArrangeOptions(old(a[i])))
    {
      var k := 0;
      while k < a.Length
        invariant 0 <= k <= a.Length
        invariant forall j :: 0 <= j < k ==> a[j] == ArrangeOptions(old(a[j]))
        invariant forall j :: k <= j < a.Length ==> a[j] == old(a[j])
      {
        a[k] := SortOptions(a[k]);
        k := k + 1;
      }
    }

    /** One question's options, copied into an array and sorted in place. */
    static method SortOptions(q: Question) returns (sorted: Question)
      ensures sorted == ArrangeOptions(q)
    {
      var opts := new QuestionOption[|q.options|](i requires 0 <= i < |q.options| => q.options[i]);
      assert opts[..] == q.options;
      SortInPlace(opts, OptionRank);
      sorted := q.(options := opts[..]);
    }

    /** `submitAnswer`: the checks in source order, then the row is created or updated. */
    method SubmitAnswer(userId: string, dto: AnswerInput) returns (r: Result<UserAnswer>)
      requires Valid()
      modifies this
      ensures Valid()
      ensures r == AnswerOutcome(questionnaires, users.rows, old(answers), userId, dto)
      ensures answers == if r.Ok? then old(answers)[(userId, dto.questionId) := r.value] else old(answers)
    {
      var found := FindQuestion(questionnaires, dto.questionId);
      if found.None? {
        return Fail(NotFound, "Question not found");
      }
      var (q, qn) := found.value;
      if !qn.isActive {
        return Fail(BadRequest, "Questionnaire is not active");
      }
      var user := users.FindById(userId);
      if user.None? {
        return Fail(NotFound, "User not found");
      }
      if user.value.questionnaireCompleted {
        return Fail(BadRequest, CompletedMessage);
      }
      var valid := ValidateAnswer(q, dto);
      if valid.Err? {
        return Err(valid.error);
      }
      var key := (userId, dto.questionId);
      var existing := if key in answers then Some(answers[key]) else None;
      var row := Upsert(existing, userId, q, dto);
      answers := answers[key := row];
      r := Ok(row);
    }

    /** `submitAnswers`: the answers one after the other, up to the first rejection. */
    method SubmitAnswers(userId: string, dtos: seq<AnswerInput>) returns (r: Result<seq<UserAnswer>>)
      requires Valid()
      modifies this
      ensures Valid()
      ensures var b := SubmitAll(questionnaires, users.rows, old(answers), userId, dtos);
        answers == b.answers && r == if b.error.Some? then Err(b.error.value) else Ok(b.saved)
    {
      ghost var R := users.rows;
      ghost var start := answers;
      var saved: seq<UserAnswer> := [];
      var i := 0;
      while i < |dtos|
        invariant 0 <= i <= |dtos|
        invariant Valid() && users.rows == R
        invariant SubmitAll(questionnaires, R, start, userId, dtos)
               == Prepend(saved, SubmitAll(questionnaires, R, answers, userId, dtos[i..]))
      {
        BatchStep(questionnaires, R, start, answers, userId, dtos, saved, i);
        var one := SubmitAnswer(userId, dtos[i]);
        if one.Err? {
          return Err(one.error);
        }
        saved := saved + [one.value];
        i := i + 1;
      }
      BatchEnd(questionnaires, R, start, answers, userId, dtos, saved);
      r := Ok(saved);
    }

    /**
     * `submitStep`: the step's checks, its answers, and on the last step the
     * completion test that marks the user's questionnaire as completed.
     */
    method SubmitStep(userId: string, dto: StepInput) returns (r: Result<StepResult>)
      requires Valid()
      modifies this, users
      ensures Valid()
      ensures var s := StepOutcome(questionnaires, old(users.rows), old(answers), userId, dto);
        r == s.result && answers == s.answers
      ensures users.rows == if r.Ok? && r.value.questionnaireCompleted
                            then UpdateRows(old(users.rows), userId, MarkQuestionnaireCompleted)
                            else old(users.rows)
    {
      var got := GetQuestionnaireById(dto.questionnaireId);
      if got.Err? {
        return Err(got.error);
      }
      var qn := got.value;
      var user := users.FindById(userId);
      if user.None? {
        return Fail(NotFound, "User not found");
      }
      if user.value.questionnaireCompleted {
        return Fail(BadRequest, CompletedMessage);
      }
      var step := Where(qn.questions, (q: Question) => q.stepNumber == dto.stepNumber);
      if |step| == 0 {
        return Fail(BadRequest, "Step " + IntToString(dto.stepNumber) + " not found in this questionnaire");
      }
      var foreign := FindForeign(dto.answers, Ids(step));
      if foreign.Some? {
        return Fail(BadRequest, "Question " + foreign.value + " does not belong to step " + IntToString(dto.stepNumber));
      }
      assert step[0] in qn.questions;
      var saved := SubmitAnswers(userId, dto.answers);
      if saved.Err? {
        return Err(saved.error);
      }
      var isLast := dto.stepNumber == MaxStep(qn.questions);
      var completed := false;
      if isLast {
        var answered := AnsweredIds(answers, userId, qn.questions);
        if AllRequiredIn(qn.questions, answered) {
          users.Update(userId, MarkQuestionnaireCompleted);
          completed := true;
        }
      }
      r := Ok(StepResult(saved.value, isLast, completed));
    }

    /** `getQuestionnaireProgress`: the report over the user's answers to the questionnaire's questions. */
    method GetQuestionnaireProgress(userId: string, questionnaireId: string) returns (r: Result<Progress>)
      ensures FindActive(questionnaires, questionnaireId).None? ==> r == Fail(NotFound, "Questionnaire not found")
      ensures FindActive(questionnaires, questionnaireId).Some? ==>
        var qs := Arranged(FindActive(questionnaires, questionnaireId).value).questions;
        r == Ok(ProgressOf(questionnaireId, qs, AnsweredIds(answers, userId, qs)))
    {
      var got := GetQuestionnaireById(questionnaireId);
      if got.Err? {
        return Err(got.error);
      }
      var qs := got.value.questions;
      r := Ok(ProgressOf(questionnaireId, qs, AnsweredIds(answers, userId, qs)));
    }
  }
}
