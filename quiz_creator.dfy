/**
 * Quiz authoring: a form holds the question being written (the draft), which
 * is validated and then appended to the quiz's question list, or written over
 * the question being edited. The rules on the draft keep its option list
 * between two and six entries and keep the index of the correct answer
 * pointing at the same option when another option is removed.
 *
 * The pure functions below are the handlers' rules; the class
 * `QuizCreatorView` holds the form's state and applies them. Identifiers that
 * `nanoid` would generate are parameters.
 */
module QuizCreator {
  import opened JsSupport

  datatype QuestionType = MultipleChoice | TrueFalse

  datatype Question = Question(id: string, text: string, qtype: QuestionType, options: seq<string>,
                               correctAnswer: int, timeLimit: int)

  /**
   * The question being written. The time limit comes from `parseInt` on the
   * number input, so it may be `NaN`, written `None` here.
   */
  datatype Draft = Draft(text: string, qtype: QuestionType, options: seq<string>, correctAnswer: int,
                         timeLimit: Option<int>)

  const MinOptions: nat := 2
  const MaxOptions: nat := 6
  const DefaultTimeLimit: int := 30

  /** The form's contents for a new question. */
  const EmptyDraft: Draft := Draft("", MultipleChoice, ["", ""], 0, Some(DefaultTimeLimit))

  const NoTextMessage: string := "Please provide a question"
  const TooFewOptionsMessage: string := "Please provide at least 2 options for multiple choice questions"
  const BadAnswerMessage: string := "Please select a valid correct answer"
  const NoTitleMessage: string := "Quiz title is required"
  const NoQuestionsMessage: string := "At least one question is required"

  predicate OptionCountInRange(options: seq<string>)
  {
    MinOptions <= |options| <= MaxOptions
  }

  // ---------------------------------------------------------------------------
  // Editing the draft's options
  // ---------------------------------------------------------------------------

  /** `addOption`: one more empty option, unless there are six already. */
  function AddOption(d: Draft): (r: Draft)
    ensures |d.options| < MaxOptions ==> r == d.(options := d.options + [""])
    ensures |d.options| >= MaxOptions ==> r == d
    ensures |d.options| <= MaxOptions ==> |r.options| <= MaxOptions
    ensures OptionCountInRange(d.options) ==> OptionCountInRange(r.options)
  {
    if |d.options| < MaxOptions then d.(options := d.options + [""]) else d
  }

  /**
   * `removeOption`: with more than two options, the option at `index` is
   * spliced out; a correct answer at that index falls back to 0 and one above
   * it moves down by one.
   */
  function RemoveOption(d: Draft, index: nat): (r: Draft)
    ensures |d.options| <= MinOptions ==> r == d
    ensures |d.options| > MinOptions ==>
              && r.options == RemoveAt(d.options, index)
              && r.text == d.text && r.qtype == d.qtype && r.timeLimit == d.timeLimit
              && (d.correctAnswer == index ==> r.correctAnswer == 0)
              && (d.correctAnswer > index ==> r.correctAnswer == d.correctAnswer - 1)
              && (d.correctAnswer < index ==> r.correctAnswer == d.correctAnswer)
    ensures OptionCountInRange(d.options) ==> OptionCountInRange(r.options)
  {
    if |d.options| > MinOptions then
      var correct := if d.correctAnswer == index then 0
                     else if d.correctAnswer != 0 && d.correctAnswer > index then d.correctAnswer - 1
                     else d.correctAnswer;
      d.(options := RemoveAt(d.options, index), correctAnswer := correct)
    else d
  }

  /**
   * Removing an option keeps a valid correct answer valid, and when the
   * correct option is not the one removed the index still names that same
   * option.
   */
  lemma RemoveOptionKeepsAnswer(d: Draft, index: nat)
    requires |d.options| > MinOptions && index < |d.options|
    requires 0 <= d.correctAnswer < |d.options|
    ensures var r := RemoveOption(d, index);
            && 0 <= r.correctAnswer < |r.options|
            && (d.correctAnswer != index ==> r.options[r.correctAnswer] == d.options[d.correctAnswer])
  {
  }

  /** `handleOptionChange`: the option at `index` takes the typed value. */
  function ChangeOption(d: Draft, index: nat, value: string): (r: Draft)
    requires index < |d.options|
    ensures r.options == d.options[index := value]
    ensures r.text == d.text && r.qtype == d.qtype && r.correctAnswer == d.correctAnswer && r.timeLimit == d.timeLimit
  {
    d.(options := d.options[index := value])
  }

  /**
   * `handleQuestionTypeChange`: true/false uses the fixed options `True` and
   * `False`; switching to multiple choice clears a two-option list and keeps a
   * longer one; either way the correct answer becomes the first option.
   */
  function ChangeQuestionType(d: Draft, t: QuestionType): (r: Draft)
    ensures r.qtype == t && r.correctAnswer == 0 && r.text == d.text && r.timeLimit == d.timeLimit
    ensures t == TrueFalse ==> r.options == ["True", "False"]
    ensures t == MultipleChoice && |d.options| == 2 ==> r.options == ["", ""]
    ensures t == MultipleChoice && |d.options| != 2 ==> r.options == d.options
    ensures OptionCountInRange(d.options) ==> OptionCountInRange(r.options)
  {
    match t
    case TrueFalse => d.(qtype := t, options := ["True", "False"], correctAnswer := 0)
    case MultipleChoice => d.(qtype := t, options := if |d.options| == 2 then ["", ""] else d.options, correctAnswer := 0)
  }

  // ---------------------------------------------------------------------------
  // Validation and saving
  // ---------------------------------------------------------------------------

  /** The draft's properties that `validateQuestion` demands. */
  predicate Acceptable(d: Draft)
  {
    && d.text != ""
    && (d.qtype == MultipleChoice ==> |d.options| >= MinOptions)
    && 0 <= d.correctAnswer < |d.options|
  }

  /**
   * `validateQuestion`: the message it alerts, or `None` when the draft may be
   * saved. The checks run in order: the text, then the option count of a
   * multiple-choice question, then the correct-answer index.
   */
  function ValidateQuestion(d: Draft): (r: Option<string>)
    ensures r.None? <==> Acceptable(d)
    ensures d.text == "" ==> r == Some(NoTextMessage)
    ensures d.text != "" && d.qtype == MultipleChoice && |d.options| < MinOptions ==> r == Some(TooFewOptionsMessage)
    ensures (d.text != "" && (d.qtype == MultipleChoice ==> |d.options| >= MinOptions)
             && !(0 <= d.correctAnswer < |d.options|)) ==> r == Some(BadAnswerMessage)
  {
    if d.text == "" then Some(NoTextMessage)
    else if d.qtype == MultipleChoice && |d.options| < MinOptions then Some(TooFewOptionsMessage)
    else if d.correctAnswer < 0 || d.correctAnswer >= |d.options| then Some(BadAnswerMessage)
    else None
  }

  /** `timeLimit || 30`: a zero or `NaN` time limit falls back to 30 seconds. */
  function TimeLimitOrDefault(t: Option<int>): (r: int)
    ensures r != 0
    ensures t.None? || t.value == 0 ==> r == DefaultTimeLimit
    ensures t.Some? && t.value != 0 ==> r == t.value
  {
    if t.None? || t.value == 0 then DefaultTimeLimit else t.value
  }

  /** The question `addQuestion` builds from the draft, under a fresh id. */
  function BuildQuestion(d: Draft, id: string): (q: Question)
    ensures q.id == id && q.text == d.text && q.qtype == d.qtype
    ensures q.options == d.options && q.correctAnswer == d.correctAnswer
    ensures q.timeLimit != 0
    ensures d.timeLimit.Some? && d.timeLimit.value != 0 ==> q.timeLimit == d.timeLimit.value
  {
    Question(id, d.text, d.qtype, d.options, d.correctAnswer, TimeLimitOrDefault(d.timeLimit))
  }

  /** What every saved question satisfies. */
  predicate WellFormed(q: Question)
  {
    && q.text != ""
    && OptionCountInRange(q.options)
    && 0 <= q.correctAnswer < |q.options|
    && q.timeLimit != 0
  }

  /** A draft that passes validation and has an option count in range becomes a well-formed question. */
  lemma BuildQuestionWellFormed(d: Draft, id: string)
    requires ValidateQuestion(d).None? && OptionCountInRange(d.options)
    ensures WellFormed(BuildQuestion(d, id))
    ensures BuildQuestion(d, id).id == id && BuildQuestion(d, id).options == d.options
  {
  }

  /**
   * `addQuestion`'s list update: while editing, the question written over the
   * edited slot; otherwise appended at the end.
   */
  function SaveQuestion(questions: seq<Question>, editing: Option<nat>, q: Question): (r: seq<Question>)
    requires editing.Some? ==> editing.value < |questions|
    ensures editing.Some? ==> |r| == |questions| && r[editing.value] == q
                              && forall k :: 0 <= k < |r| && k != editing.value ==> r[k] == questions[k]
    ensures editing.None? ==> r == questions + [q]
  {
    match editing
    case Some(e) => questions[e := q]
    case None => questions + [q]
  }

  /** Saving keeps every question well formed. */
  lemma SaveQuestionKeepsWellFormed(questions: seq<Question>, editing: Option<nat>, q: Question)
    requires editing.Some? ==> editing.value < |questions|
    requires forall k :: 0 <= k < |questions| ==> WellFormed(questions[k])
    requires WellFormed(q)
    ensures var r := SaveQuestion(questions, editing, q);
            forall k :: 0 <= k < |r| ==> WellFormed(r[k])
  {
  }

  // ---------------------------------------------------------------------------
  // Removing a question while another one is being edited
  // ---------------------------------------------------------------------------

  /**
   * `removeQuestion` as written: only a removal of the edited question itself
   * touches `editing` (it is cleared); removing an earlier question leaves the
   * index where it was, so it then names the question after the edited one.
   */
  function EditingAfterRemovalAsWritten(editing: Option<nat>, index: nat): (r: Option<nat>)
    ensures editing == Some(index) ==> r.None?
    ensures editing != Some(index) ==> r == editing
  {
    if editing == Some(index) then None else editing
  }

  /**
   * The intended update: removing the edited question clears `editing`;
   * removing an earlier question moves the index down with the question it
   * named.
   */
  function EditingAfterRemoval(editing: Option<nat>, index: nat): (r: Option<nat>)
    ensures editing == Some(index) ==> r.None?
    ensures editing.None? ==> r.None?
    ensures editing.Some? && editing.value < index ==> r == editing
    ensures editing.Some? && editing.value > index ==> r == Some(editing.value - 1)
  {
    match editing
    case None => None
    case Some(e) => if e == index then None else if e > index then Some(e - 1) else Some(e)
  }

  /**
   * With the intended update, after any removal `editing` is still a valid
   * index and still names the question that was being edited.
   */
  lemma RemovalKeepsEditTarget(questions: seq<Question>, editing: Option<nat>, index: nat)
    requires editing.Some? ==> editing.value < |questions|
    ensures var after := RemoveAt(questions, index);
            var e := EditingAfterRemoval(editing, index);
            && (e.Some? ==> e.value < |after| && after[e.value] == questions[editing.value])
            && (e.None? && editing.Some? ==> editing.value == index)
  {
  }

  /** `updatedQuestions[i] = q` on a copy when `i` is at most the length: an overwrite, or an append at the end. */
  function AssignAt(questions: seq<Question>, i: nat, q: Question): (r: seq<Question>)
    requires i <= |questions|
    ensures i < |questions| ==> r == questions[i := q]
    ensures i == |questions| ==> r == questions + [q]
  {
    if i < |questions| then questions[i := q] else questions + [q]
  }

  /**
   * The stale index as written: with three questions, editing the third and
   * removing the first leaves `editing` at 2, past the two remaining ones, so
   * the update that follows appends a new question and the edited one stays.
   * The intended update writes over the edited question instead.
   */
  lemma StaleEditingExample(q0: Question, q1: Question, q2: Question, updated: Question)
    ensures var after := RemoveAt([q0, q1, q2], 0);
            var stale := EditingAfterRemovalAsWritten(Some(2), 0);
            && after == [q1, q2]
            && stale == Some(2)
            && AssignAt(after, stale.value, updated) == [q1, q2, updated]
            && EditingAfterRemoval(Some(2), 0) == Some(1)
            && SaveQuestion(after, EditingAfterRemoval(Some(2), 0), updated) == [q1, updated]
  {
    RemoveFirstOfThree(q0, q1, q2);
    AssignPastTwo(q1, q2, updated);
    SaveIntoSecond(q1, q2, updated);
  }

  lemma RemoveFirstOfThree(q0: Question, q1: Question, q2: Question)
    ensures RemoveAt([q0, q1, q2], 0) == [q1, q2]
  {
    assert [q0, q1, q2][1..] == [q1, q2];
  }

  lemma AssignPastTwo(q1: Question, q2: Question, updated: Question)
    ensures AssignAt([q1, q2], 2, updated) == [q1, q2, updated]
  {
  }

  lemma SaveIntoSecond(q1: Question, q2: Question, updated: Question)
    ensures SaveQuestion([q1, q2], Some(1), updated) == [q1, updated]
  {
  }

  /**
   * `validateQuiz`: the error it sets, or `None` when the quiz may be created.
   * A title that is empty or only whitespace is refused first, then an empty
   * question list.
   */
  function ValidateQuiz(title: string, questions: seq<Question>): (r: Option<string>)
    ensures r.None? <==> !Blank(title) && |questions| > 0
    ensures Blank(title) ==> r == Some(NoTitleMessage)
    ensures !Blank(title) && |questions| == 0 ==> r == Some(NoQuestionsMessage)
  {
    if title == "" || Blank(title) then Some(NoTitleMessage)
    else if |questions| == 0 then Some(NoQuestionsMessage)
    else None
  }

  // ---------------------------------------------------------------------------
  // The form's state
  // ---------------------------------------------------------------------------

  class QuizCreatorView {
    var quizTitle: string
    var questions: seq<Question>
    var draft: Draft
    var editing: Option<nat>
    var error: string

    /**
     * The draft's option count stays between two and six, every saved question
     * is well formed, and `editing` names a saved question.
     */
    ghost predicate Valid()
      reads this
    {
      && OptionCountInRange(draft.options)
      && (forall k :: 0 <= k < |questions| ==> WellFormed(questions[k]))
      && (editing.Some? ==> editing.value < |questions|)
    }

    constructor ()
      ensures Valid()
      ensures quizTitle == "" && questions == [] && draft == EmptyDraft && editing.None? && error == ""
    {
      quizTitle := "";
      questions := [];
      draft := EmptyDraft;
      editing := None;
      error := "";
    }

    /** The quiz title input. */
    method SetQuizTitle(title: string)
      modifies this`quizTitle
      ensures quizTitle == title
    {
      quizTitle := title;
    }

    /** The question text input. */
    method SetQuestionText(text: string)
      requires Valid()
      modifies this`draft
      ensures Valid() && draft == old(draft).(text := text)
    {
      draft := draft.(text := text);
    }

    /** The time limit input, `parseInt` of its text (`None` for `NaN`). */
    method SetTimeLimit(parsed: Option<int>)
      requires Valid()
      modifies this`draft
      ensures Valid() && draft == old(draft).(timeLimit := parsed)
    {
      draft := draft.(timeLimit := parsed);
    }

    /** The radio button beside option `index`. */
    method SetCorrectAnswer(index: nat)
      requires Valid()
      modifies this`draft
      ensures Valid() && draft == old(draft).(correctAnswer := index)
    {
      draft := draft.(correctAnswer := index);
    }

    method HandleAddOption()
      requires Valid()
      modifies this`draft
      ensures Valid() && draft == AddOption(old(draft))
    {
      draft := AddOption(draft);
    }

    method HandleRemoveOption(index: nat)
      requires Valid()
      modifies this`draft
      ensures Valid() && draft == RemoveOption(old(draft), index)
    {
      draft := RemoveOption(draft, index);
    }

    method HandleOptionChange(index: nat, value: string)
      requires Valid() && index < |draft.options|
      modifies this`draft
      ensures Valid() && draft == ChangeOption(old(draft), index, value)
    {
      draft := ChangeOption(draft, index, value);
    }

    method HandleQuestionTypeChange(t: QuestionType)
      requires Valid()
      modifies this`draft
      ensures Valid() && draft == ChangeQuestionType(old(draft), t)
    {
      draft := ChangeQuestionType(draft, t);
    }

    /**
     * `addQuestion`: a draft that fails validation changes nothing (the
     * message is only alerted); otherwise the built question is saved,
     * editing ends, the form resets and the error clears.
     */
    method AddQuestion(nanoid: string) returns (alerted: Option<string>)
      requires Valid()
      modifies this`questions, this`draft, this`editing, this`error
      ensures Valid()
      ensures alerted == ValidateQuestion(old(draft))
      ensures alerted.Some? ==> questions == old(questions) && draft == old(draft) && editing == old(editing)
                                && error == old(error)
      ensures alerted.None? ==>
                && questions == SaveQuestion(old(questions), old(editing), BuildQuestion(old(draft), nanoid))
                && draft == EmptyDraft && editing.None? && error == ""
    {
      alerted := ValidateQuestion(draft);
      if alerted.Some? {
        return;
      }
      var q := BuildQuestion(draft, nanoid);
      BuildQuestionWellFormed(draft, nanoid);
      SaveQuestionKeepsWellFormed(questions, editing, q);
      questions := SaveQuestion(questions, editing, q);
      editing := None;
      draft := EmptyDraft;
      error := "";
    }

    /** `editQuestion`: loads a saved question into the form and marks it as edited. */
    method EditQuestion(index: nat)
      requires Valid() && index < |questions|
      modifies this`draft, this`editing
      ensures Valid()
      ensures var q := old(questions)[index];
              draft == Draft(q.text, q.qtype, q.options, q.correctAnswer, Some(q.timeLimit))
      ensures editing == Some(index)
    {
      var q := questions[index];
      draft := Draft(q.text, q.qtype, q.options, q.correctAnswer, Some(q.timeLimit));
      editing := Some(index);
    }

    /**
     * `removeQuestion`: the question at `index` leaves the list; removing the
     * edited question ends editing and resets the form, and (unlike the
     * component as written) removing an earlier one moves `editing` down.
     */
    method RemoveQuestion(index: nat)
      requires Valid()
      modifies this`questions, this`draft, this`editing
      ensures Valid()
      ensures questions == RemoveAt(old(questions), index)
      ensures editing == EditingAfterRemoval(old(editing), index)
      ensures old(editing) == Some(index) ==> draft == EmptyDraft
      ensures old(editing) != Some(index) ==> draft == old(draft)
    {
      RemovalKeepsEditTarget(questions, editing, index);
      questions := RemoveAt(questions, index);
      if editing == Some(index) {
        draft := EmptyDraft;
      }
      editing := EditingAfterRemoval(editing, index);
    }

    /** The form's Clear button: a fresh draft, no editing, no error. */
    method ClearForm()
      requires Valid()
      modifies this`draft, this`editing, this`error
      ensures Valid() && draft == EmptyDraft && editing.None? && error == ""
    {
      draft := EmptyDraft;
      editing := None;
      error := "";
    }

    /** `validateQuiz`: sets the error message when the quiz cannot be created. */
    method ValidateQuizForm() returns (ok: bool)
      modifies this`error
      ensures ok <==> ValidateQuiz(quizTitle, questions).None?
      ensures !ok ==> error == ValidateQuiz(quizTitle, questions).value
      ensures ok ==> error == old(error)
    {
      var r := ValidateQuiz(quizTitle, questions);
      if r.Some? {
        error := r.value;
        return false;
      }
      return true;
    }
  }
}
