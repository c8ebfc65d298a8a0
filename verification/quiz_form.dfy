/** The quiz editor of the lesson-management page: its form state, the
    validation that decides whether the quiz is handed on, and the per-field
    clearing of validation messages while the instructor edits. */
module QuizForm {
  import opened Common
  import opened Domain

  /** The messages of one question, keyed as the page shows them: the text's
      message and the options' messages by option index. A missing field is
      a key the object does not have. */
  datatype QuestionErrors = QuestionErrors(question: Option<string>, options: Option<map<nat, string>>)

  /** The form's `errors` object; `questions` is the sparse array of
      per-question messages, as a map from question index. */
  datatype Errors = Errors(description: Option<string>, questions: Option<map<nat, QuestionErrors>>)

  datatype Form = Form(description: string, questions: seq<Question>, errors: Errors)

  /** What the form hands to its `onSubmit`. */
  datatype QuizData = QuizData(description: string, questions: seq<Question>)

  datatype Submission = Submission(form: Form, data: Option<QuizData>)

  /** One edit of a question, by field. */
  datatype Edit = QuestionText(text: string) | OptionList(options: seq<string>) | AnswerIndex(answer: int)

  const NoErrors := Errors(None, None)

  /** The question the form starts with and adds: no text, four empty
      options, the first one marked right. */
  const BlankQuestion := Question("", ["", "", "", ""], 0)

  /** The form for a new quiz, or for editing `initialData`. Any list of
      questions is truthy, so an edited quiz keeps its own list even when it
      is empty. */
  function Init(initialData: Option<Quiz>): (f: Form)
    ensures f.errors == NoErrors
    ensures initialData.None? ==> f.description == "" && f.questions == [BlankQuestion]
    ensures initialData.Some? ==>
      f.description == initialData.value.description && f.questions == initialData.value.questions
  {
    match initialData
    case None => Form("", [BlankQuestion], NoErrors)
    case Some(q) => Form(q.description, q.questions, NoErrors)
  }

  // ---------------------------------------------------------------- validation

  /** The messages carry 1-based positions. */
  function QuestionMessage(k: nat): string {
    "Question " + NatToString(k + 1) + " is required"
  }

  function OptionMessage(k: nat): string {
    "Option " + NatToString(k + 1) + " is required"
  }

  /** A field fails when it is empty after trimming (`!s.trim()`, which is
      `IsBlank` by `TrimEmptyIffBlank`). */
  predicate HasBlank(q: Question) {
    IsBlank(q.question) || exists j :: 0 <= j < |q.options| && IsBlank(q.options[j])
  }

  /** The option messages of one question: exactly its blank options. */
  function OptionErrors(options: seq<string>): (m: map<nat, string>)
    ensures forall k: nat :: k in m <==> k < |options| && IsBlank(options[k])
    ensures forall k :: k in m ==> m[k] == OptionMessage(k)
    decreases |options|
  {
    if options == [] then map[]
    else
      var last := |options| - 1;
      var m := OptionErrors(options[..last]);
      if IsBlank(options[last]) then m[last := OptionMessage(last)] else m
  }

  /** The messages of question `k`, or none when it has no blank field. */
  function QuestionErrorsOf(q: Question, k: nat): (r: Option<QuestionErrors>)
    ensures r.Some? <==> HasBlank(q)
    ensures r.Some? ==> (r.value.question.Some? <==> IsBlank(q.question))
    ensures r.Some? && r.value.question.Some? ==> r.value.question.value == QuestionMessage(k)
    ensures r.Some? ==>
      (r.value.options.Some? <==> exists j :: 0 <= j < |q.options| && IsBlank(q.options[j]))
    ensures r.Some? && r.value.options.Some? ==> r.value.options.value == OptionErrors(q.options)
    ensures r.Some? ==> EntryWellFormed(r.value)
  {
    var opts := OptionErrors(q.options);
    var question := if IsBlank(q.question) then Some(QuestionMessage(k)) else None;
    var options := if opts != map[] then Some(opts) else None;
    if question.None? && options.None? then None else Some(QuestionErrors(question, options))
  }

  /** The per-question messages: an entry for exactly the questions with a
      blank field. */
  function QuestionErrorMap(qs: seq<Question>): (m: map<nat, QuestionErrors>)
    ensures forall k: nat :: k in m <==> k < |qs| && HasBlank(qs[k])
    ensures forall k: nat :: k in m ==> m[k] == QuestionErrorsOf(qs[k], k).value
    decreases |qs|
  {
    if qs == [] then map[]
    else
      var last := |qs| - 1;
      var m := QuestionErrorMap(qs[..last]);
      match QuestionErrorsOf(qs[last], last)
      case None => m
      case Some(e) => m[last := e]
  }

  /** `validateForm`'s error object: a description message when the
      description is blank, and the per-question messages when any question
      has a blank field. */
  function Validate(description: string, questions: seq<Question>): (e: Errors)
    ensures e.description.Some? <==> IsBlank(description)
    ensures e.description.Some? ==> e.description.value == "Quiz description is required"
    ensures e.questions.Some? <==> exists k :: 0 <= k < |questions| && HasBlank(questions[k])
    ensures e.questions.Some? ==> e.questions.value == QuestionErrorMap(questions)
    ensures WellFormed(e)
  {
    var m := QuestionErrorMap(questions);
    Errors(
      if IsBlank(description) then Some("Quiz description is required") else None,
      if m != map[] then Some(m) else None)
  }

  /** `Object.keys(newErrors).length === 0` */
  predicate Passes(e: Errors) {
    e.description.None? && e.questions.None?
  }

  /** The independent statement of a complete quiz: the description, every
      question text and every option are non-empty once trimmed. */
  predicate Complete(description: string, questions: seq<Question>) {
    Trim(description) != "" &&
    forall k :: 0 <= k < |questions| ==>
      Trim(questions[k].question) != "" &&
      forall j :: 0 <= j < |questions[k].options| ==> Trim(questions[k].options[j]) != ""
  }

  /** `handleSubmit`: the errors are replaced by a fresh validation, and the
      quiz goes to `onSubmit` exactly when it is complete. */
  function Submit(f: Form): (r: Submission)
    ensures r.form.description == f.description && r.form.questions == f.questions
    ensures r.form.errors == Validate(f.description, f.questions)
    ensures r.data.Some? <==> Complete(f.description, f.questions)
    ensures r.data.Some? ==> r.data.value == QuizData(f.description, f.questions)
  {
    PassesIffComplete(f.description, f.questions);
    var e := Validate(f.description, f.questions);
    Submission(f.(errors := e), if Passes(e) then Some(QuizData(f.description, f.questions)) else None)
  }

  // ---------------------------------------------------------------- editing

  /** `handleAddQuestion` */
  function AddQuestion(f: Form): (r: Form)
    ensures |r.questions| == |f.questions| + 1 && r.questions[..|f.questions|] == f.questions
    ensures var q := r.questions[|f.questions|];
      q.question == "" && q.correctAnswer == 0 && |q.options| == 4 &&
      forall j :: 0 <= j < 4 ==> q.options[j] == ""
    ensures r.description == f.description && r.errors == f.errors
  {
    f.(questions := f.questions + [BlankQuestion])
  }

  /** Typing in the description field drops its message. */
  function ChangeDescription(f: Form, text: string): (r: Form)
    ensures r.description == text && r.errors.description.None?
    ensures r.questions == f.questions && r.errors.questions == f.errors.questions
  {
    f.(description := text, errors := if f.errors.description.Some? then f.errors.(description := None) else f.errors)
  }

  /** The message of question `k`'s text, if shown. */
  function QuestionError(e: Errors, k: nat): Option<string> {
    if e.questions.Some? && k in e.questions.value then e.questions.value[k].question else None
  }

  /** The option messages of question `k`, if shown. */
  function OptionsError(e: Errors, k: nat): Option<map<nat, string>> {
    if e.questions.Some? && k in e.questions.value then e.questions.value[k].options else None
  }

  /** An entry holds at least one message, and an options object at least
      one option. */
  predicate EntryWellFormed(q: QuestionErrors) {
    (q.question.Some? || q.options.Some?) && (q.options.Some? ==> q.options.value != map[])
  }

  /** The error object holds no empty parts: `questions` is absent rather
      than empty, and so is every entry. */
  predicate WellFormed(e: Errors) {
    e.questions.Some? ==>
      e.questions.value != map[] && forall k :: k in e.questions.value ==> EntryWellFormed(e.questions.value[k])
  }

  /** The error clearing of `handleQuestionChange`: the edited field's
      message goes, an entry left without messages goes, and `questions`
      goes once it has no entries. Nothing else changes. */
  function ClearFieldError(e: Errors, index: nat, edit: Edit): (r: Errors)
    ensures r.description == e.description
    ensures forall k: nat :: k != index ==> QuestionError(r, k) == QuestionError(e, k) && OptionsError(r, k) == OptionsError(e, k)
    ensures edit.QuestionText? ==> QuestionError(r, index).None? && OptionsError(r, index) == OptionsError(e, index)
    ensures edit.OptionList? ==> OptionsError(r, index).None? && QuestionError(r, index) == QuestionError(e, index)
    ensures edit.AnswerIndex? && WellFormed(e) ==> r == e
    ensures WellFormed(e) ==> WellFormed(r)
  {
    match e.questions
    case None => e
    case Some(m) =>
      if index !in m then e
      else
        var entry := m[index];
        var cleared := match edit
          case QuestionText(_) => entry.(question := None)
          case OptionList(_) => entry.(options := None)
          case AnswerIndex(_) => entry;
        var m' := if cleared.question.None? && cleared.options.None? then m - {index} else m[index := cleared];
        assert forall k :: k != index ==> (k in m' <==> k in m) && (k in m ==> m'[k] == m[k]);
        assert index in m' <==> cleared.question.Some? || cleared.options.Some?;
        assert index in m' ==> m'[index] == cleared;
        assert cleared == entry && (entry.question.Some? || entry.options.Some?) ==> m' == m && index in m';
        e.(questions := if m' == map[] then None else Some(m'))
  }

  /** `handleQuestionChange(index, field, value)`: the page passes the index
      of a question it shows. */
  function ChangeQuestion(f: Form, index: nat, edit: Edit): (r: Form)
    requires index < |f.questions|
    ensures |r.questions| == |f.questions|
    ensures forall k :: 0 <= k < |f.questions| && k != index ==> r.questions[k] == f.questions[k]
    ensures edit.QuestionText? ==> r.questions[index] == f.questions[index].(question := edit.text)
    ensures edit.OptionList? ==> r.questions[index] == f.questions[index].(options := edit.options)
    ensures edit.AnswerIndex? ==> r.questions[index] == f.questions[index].(correctAnswer := edit.answer)
    ensures r.description == f.description && r.errors == ClearFieldError(f.errors, index, edit)
  {
    var q := f.questions[index];
    var q' := match edit
      case QuestionText(t) => q.(question := t)
      case OptionList(o) => q.(options := o)
      case AnswerIndex(a) => q.(correctAnswer := a);
    f.(questions := f.questions[index := q'], errors := ClearFieldError(f.errors, index, edit))
  }

  /** One step of the editor: a new question, the description typed, or an
      edit of a question. */
  datatype Step = AddBlank | Describe(text: string) | EditQuestion(index: nat, edit: Edit)

  /** The editor after a run of steps. The page only offers edits of the
      questions it shows, so an index past the end is no edit and changes
      nothing. The editor never loses a question, and a run without
      question edits leaves the questions it started with as they were. */
  function Run(f: Form, steps: seq<Step>): (r: Form)
    ensures |f.questions| <= |r.questions|
    ensures (forall k :: 0 <= k < |steps| ==> !steps[k].EditQuestion?) ==> r.questions[..|f.questions|] == f.questions
    decreases |steps|
  {
    if steps == [] then f
    else
      var g := match steps[0]
        case AddBlank => AddQuestion(f)
        case Describe(t) => ChangeDescription(f, t)
        case EditQuestion(i, e) => if i < |f.questions| then ChangeQuestion(f, i, e) else f;
      var r := Run(g, steps[1..]);
      assert (forall k :: 0 <= k < |steps| ==> !steps[k].EditQuestion?) ==>
        (forall k :: 0 <= k < |steps[1..]| ==> !steps[1..][k].EditQuestion?) && g.questions[..|f.questions|] == f.questions &&
        r.questions[..|f.questions|] == r.questions[..|g.questions|][..|f.questions|];
      r
  }

  // ---------------------------------------------------------------- properties

  /** The form's check agrees with the independent statement, both ways. */
  lemma PassesIffComplete(description: string, questions: seq<Question>)
    ensures Passes(Validate(description, questions)) <==> Complete(description, questions)
  {
    TrimEmptyIffBlank(description);
    forall k | 0 <= k < |questions|
      ensures Trim(questions[k].question) == "" <==> IsBlank(questions[k].question)
    {
      TrimEmptyIffBlank(questions[k].question);
    }
    forall k, j | 0 <= k < |questions| && 0 <= j < |questions[k].options|
      ensures Trim(questions[k].options[j]) == "" <==> IsBlank(questions[k].options[j])
    {
      TrimEmptyIffBlank(questions[k].options[j]);
    }
  }

  /** A blank option is reported under its question with its 1-based
      position. */
  lemma BlankOptionReported(description: string, questions: seq<Question>, k: nat, j: nat)
    requires k < |questions| && j < |questions[k].options| && IsBlank(questions[k].options[j])
    ensures var e := Validate(description, questions);
      OptionsError(e, k).Some? && j in OptionsError(e, k).value &&
      OptionsError(e, k).value[j] == "Option " + NatToString(j + 1) + " is required"
  {
    assert HasBlank(questions[k]);
  }

  /** A new form is never handed on, and neither is any form right after a
      question is added. */
  lemma BlankQuestionBlocksSubmit(f: Form)
    ensures Submit(Init(None)).data.None?
    ensures Submit(AddQuestion(f)).data.None?
  {
    assert Trim("") == "";
    var r := AddQuestion(f);
    assert r.questions[|f.questions|].question == "";
  }

  /** Reopening a complete quiz and submitting it unchanged hands on that
      quiz's own description and questions. */
  lemma UnchangedQuizResubmits(q: Quiz)
    requires Complete(q.description, q.questions)
    ensures Submit(Init(Some(q))).data == Some(QuizData(q.description, q.questions))
  {
  }

  /** A validation's messages stay well formed through any edit, so the
      page never keeps an entry without a message. */
  lemma EditsKeepErrorsWellFormed(f: Form, index: nat, edit: Edit)
    requires index < |f.questions|
    ensures WellFormed(ChangeQuestion(Submit(f).form, index, edit).errors)
  {
  }
}
