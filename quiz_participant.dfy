/**
 * Taking a quiz: the participant enters a name and starts; each question runs
 * a countdown from its time limit; choosing an option and pressing Next, or
 * letting the countdown reach zero, records an answer and moves on; after the
 * last question the score is counted and one participant record is saved.
 *
 * The timer's scheduling (`setInterval`) is outside the model: `Tick` is one
 * firing of it. The stored list of participants for the quiz is a field, and
 * the record's id (`nanoid`) is a parameter.
 */
module QuizParticipant {
  import opened JsSupport

  datatype Question = Question(id: string, text: string, options: seq<string>, correctAnswer: int, timeLimit: int)

  /** One answer as the component collects it; `-1` stands for no answer. */
  datatype Answer = Answer(questionId: string, selectedOption: int, timeSpent: int)

  /** One answer in the saved participant record. */
  datatype SavedAnswer = SavedAnswer(questionId: string, answer: int, timeTaken: int)

  datatype Participant = Participant(id: string, name: string, answers: seq<SavedAnswer>, score: int, quizId: string)

  const NoAnswer: int := -1
  const NoNameMessage: string := "Please enter your name to start the quiz"

  // ---------------------------------------------------------------------------
  // Starting and the countdown
  // ---------------------------------------------------------------------------

  /** `handleStartQuiz`'s check: the error for a missing or blank name, or `None` to start. */
  function ValidateName(name: string): (r: Option<string>)
    ensures r.None? <==> !Blank(name)
    ensures r.Some? ==> r.value == NoNameMessage
  {
    if name == "" || Blank(name) then Some(NoNameMessage) else None
  }

  /**
   * One second of the countdown: the time left and whether it ran out. At one
   * second or less the count stops at zero and the timeout fires; otherwise it
   * goes down by one.
   */
  function Tick(timeLeft: int): (r: (int, bool))
    ensures r.1 <==> timeLeft <= 1
    ensures r.1 ==> r.0 == 0
    ensures !r.1 ==> r.0 == timeLeft - 1 && r.0 >= 1
  {
    if timeLeft <= 1 then (0, true) else (timeLeft - 1, false)
  }

  /** Up to `n` ticks from `timeLeft`, stopping at the one that fires the timeout. */
  function Ticks(timeLeft: int, n: nat): (int, bool)
  {
    if n == 0 then (timeLeft, false)
    else if Tick(timeLeft).1 then Tick(timeLeft)
    else Ticks(Tick(timeLeft).0, n - 1)
  }

  /**
   * A countdown started at a time limit `t` of at least one second shows
   * `t - n` after `n < t` ticks without firing, and fires exactly at tick `t`.
   */
  lemma {:induction false} CountdownFiresAtLimit(t: int, n: nat)
    requires t >= 1 && n <= t
    ensures n < t ==> Ticks(t, n) == (t - n, false)
    ensures n == t ==> Ticks(t, n) == (0, true)
  {
    if n > 0 && t > 1 {
      CountdownFiresAtLimit(t - 1, n - 1);
    }
  }

  /** The answer a timeout records: no option, and the whole time limit spent. */
  function TimeoutAnswer(q: Question): (a: Answer)
    ensures a.questionId == q.id && a.selectedOption == NoAnswer && a.timeSpent == q.timeLimit
  {
    Answer(q.id, NoAnswer, q.timeLimit)
  }

  /** The answer Next records: the chosen option, and the time used so far. */
  function ChosenAnswer(q: Question, selected: int, timeLeft: int): (a: Answer)
    ensures a.questionId == q.id && a.selectedOption == selected && a.timeSpent + timeLeft == q.timeLimit
  {
    Answer(q.id, selected, q.timeLimit - timeLeft)
  }

  // ---------------------------------------------------------------------------
  // Scoring
  // ---------------------------------------------------------------------------

  /** `questions.find(q => q.id === id)`: the first question with that id. */
  function FindQuestion(questions: seq<Question>, id: string): (r: Option<Question>)
    ensures r.None? <==> forall k :: 0 <= k < |questions| ==> questions[k].id != id
    ensures r.Some? ==> exists k :: 0 <= k < |questions| && questions[k] == r.value
                                    && questions[k].id == id
                                    && forall j :: 0 <= j < k ==> questions[j].id != id
  {
    if questions == [] then None
    else if questions[0].id == id then Some(questions[0])
    else
      var r := FindQuestion(questions[1..], id);
      if r.Some? then
        var k :| 0 <= k < |questions[1..]| && questions[1..][k] == r.value && questions[1..][k].id == id
                 && forall j :: 0 <= j < k ==> questions[1..][j].id != id;
        assert questions[k + 1] == r.value;
        assert forall j :: 0 <= j < k + 1 ==> questions[j].id != id by {
          forall j | 0 <= j < k + 1 ensures questions[j].id != id {
            if j > 0 { assert questions[j] == questions[1..][j - 1]; }
          }
        }
        r
      else r
  }

  /** Whether an answer earns a point: its question exists and the chosen option is the correct one. */
  function Earns(questions: seq<Question>, a: Answer): (b: bool)
    ensures b <==> exists k :: 0 <= k < |questions| && questions[k].id == a.questionId
                              && (forall j :: 0 <= j < k ==> questions[j].id != a.questionId)
                              && a.selectedOption == questions[k].correctAnswer
  {
    var q := FindQuestion(questions, a.questionId);
    q.Some? && a.selectedOption == q.value.correctAnswer
  }

  /** The number of answers that earn a point. */
  function Score(questions: seq<Question>, answers: seq<Answer>): (n: nat)
    ensures n <= |answers|
  {
    if answers == [] then 0
    else Score(questions, answers[..|answers| - 1]) + (if Earns(questions, answers[|answers| - 1]) then 1 else 0)
  }

  /** `finishQuiz`'s `forEach` over the answers, counting those that earn a point. */
  method CountScore(questions: seq<Question>, answers: seq<Answer>) returns (total: nat)
    ensures total == Score(questions, answers)
  {
    total := 0;
    for i := 0 to |answers|
      invariant total == Score(questions, answers[..i])
    {
      assert answers[..i + 1][..i] == answers[..i];
      var q := FindQuestion(questions, answers[i].questionId);
      if q.Some? && answers[i].selectedOption == q.value.correctAnswer {
        total := total + 1;
      }
    }
    assert answers[..|answers|] == answers;
  }

  /** The score of two runs of answers is the sum of their scores. */
  lemma {:induction false} ScoreAppend(questions: seq<Question>, a: seq<Answer>, b: seq<Answer>)
    ensures Score(questions, a + b) == Score(questions, a) + Score(questions, b)
  {
    if b == [] {
      assert a + b == a;
    } else {
      var b' := b[..|b| - 1];
      assert (a + b)[..|a + b| - 1] == a + b';
      assert (a + b)[|a + b| - 1] == b[|b| - 1];
      ScoreAppend(questions, a, b');
    }
  }

  /** Correct answers are never negative option indices. */
  predicate ValidQuestions(questions: seq<Question>)
  {
    forall k :: 0 <= k < |questions| ==> questions[k].correctAnswer >= 0
  }

  /** A timeout's "no answer" never earns a point, so recording it leaves the score as it was. */
  lemma NoAnswerNeverScores(questions: seq<Question>, answers: seq<Answer>, q: Question)
    requires ValidQuestions(questions)
    ensures !Earns(questions, TimeoutAnswer(q))
    ensures Score(questions, answers + [TimeoutAnswer(q)]) == Score(questions, answers)
  {
    var a := TimeoutAnswer(q);
    var r := FindQuestion(questions, a.questionId);
    if r.Some? {
      var k :| 0 <= k < |questions| && questions[k] == r.value;
      assert r.value.correctAnswer >= 0;
    }
    assert (answers + [a])[..|answers + [a]| - 1] == answers;
  }

  /** The score is the number of answers exactly when every answer earns a point. */
  lemma {:induction false} FullScoreIffAllCorrect(questions: seq<Question>, answers: seq<Answer>)
    ensures Score(questions, answers) == |answers| <==> forall k :: 0 <= k < |answers| ==> Earns(questions, answers[k])
  {
    if answers != [] {
      var init := answers[..|answers| - 1];
      FullScoreIffAllCorrect(questions, init);
      assert forall k :: 0 <= k < |init| ==> init[k] == answers[k];
    }
  }

  /** The saved record's copy of the answers, field by field. */
  function SaveAnswers(answers: seq<Answer>): (r: seq<SavedAnswer>)
    ensures |r| == |answers|
    ensures forall k :: 0 <= k < |r| ==> r[k] == SavedAnswer(answers[k].questionId, answers[k].selectedOption, answers[k].timeSpent)
  {
    if answers == [] then []
    else [SavedAnswer(answers[0].questionId, answers[0].selectedOption, answers[0].timeSpent)] + SaveAnswers(answers[1..])
  }

  /** The participant record `finishQuiz` saves for a set of answers. */
  function MakeParticipant(id: string, name: string, quizId: string, questions: seq<Question>, answers: seq<Answer>): (p: Participant)
    ensures p.id == id && p.name == name && p.quizId == quizId
    ensures 0 <= p.score <= |p.answers| == |answers|
    ensures p.score == Score(questions, answers)
  {
    Participant(id, name, SaveAnswers(answers), Score(questions, answers), quizId)
  }

  // ---------------------------------------------------------------------------
  // The answers the score is counted from
  // ---------------------------------------------------------------------------

  /**
   * `finishQuiz` as written: it runs in the same event as the `setAnswers`
   * that records the final answer, so it reads the answers from before that
   * update and the final answer is neither scored nor saved.
   */
  function FinishedAnswersAsWritten(before: seq<Answer>, last: Answer): (r: seq<Answer>)
    ensures r == before && |r| < |before + [last]|
  {
    before
  }

  /** The intended answers to score: every recorded answer, the final one included. */
  function FinishedAnswers(before: seq<Answer>, last: Answer): (r: seq<Answer>)
    ensures |r| == |before| + 1 && r[..|before|] == before && r[|before|] == last
  {
    before + [last]
  }

  /** With the final answer counted, the score grows by exactly the point that answer earns. */
  lemma FinishedScoreCountsLast(questions: seq<Question>, before: seq<Answer>, last: Answer)
    ensures Score(questions, FinishedAnswers(before, last))
            == Score(questions, before) + (if Earns(questions, last) then 1 else 0)
  {
    assert FinishedAnswers(before, last)[..|before|] == before;
  }

  /**
   * A one-question quiz answered correctly: as written, the score is 0 and the
   * record holds no answers; counting the final answer gives the intended 1.
   */
  lemma StaleScoreExample(q: Question)
    requires q.timeLimit >= 1
    ensures var last := ChosenAnswer(q, q.correctAnswer, 0);
            && Score([q], FinishedAnswersAsWritten([], last)) == 0
            && |MakeParticipant("p", "ann", "quiz", [q], FinishedAnswersAsWritten([], last)).answers| == 0
            && Score([q], FinishedAnswers([], last)) == 1
  {
    var last := ChosenAnswer(q, q.correctAnswer, 0);
    assert FindQuestion([q], last.questionId) == Some(q);
    FinishedScoreCountsLast([q], [], last);
  }

  // ---------------------------------------------------------------------------
  // The component's state
  // ---------------------------------------------------------------------------

  class QuizSession {
    const questions: seq<Question>
    const quizId: string
    var name: string
    var isStarted: bool
    var isCompleted: bool
    var currentIndex: nat
    var selectedOption: Option<int>
    var timeLeft: int
    var answers: seq<Answer>
    var score: int
    var error: string
    /** The participants stored for this quiz. */
    var participants: seq<Participant>

    /**
     * The answers so far are one per question before the current one, in
     * order; after finishing there is one per question.
     */
    ghost predicate Valid()
      reads this
    {
      && (isCompleted ==> isStarted)
      && (!isStarted ==> currentIndex == 0)
      && currentIndex <= |questions|
      && (|questions| > 0 ==> currentIndex < |questions|)
      && |answers| == (if isCompleted then |questions| else currentIndex)
      && (forall k :: 0 <= k < |answers| ==> answers[k].questionId == questions[k].id)
    }

    /** The loaded quiz, before the participant has started. */
    constructor (quizId: string, questions: seq<Question>, stored: seq<Participant>)
      ensures Valid()
      ensures this.questions == questions && this.quizId == quizId && participants == stored
      ensures name == "" && !isStarted && !isCompleted && currentIndex == 0 && selectedOption.None?
      ensures timeLeft == 0 && answers == [] && score == 0 && error == ""
    {
      this.questions := questions;
      this.quizId := quizId;
      participants := stored;
      name := "";
      isStarted := false;
      isCompleted := false;
      currentIndex := 0;
      selectedOption := None;
      timeLeft := 0;
      answers := [];
      score := 0;
      error := "";
    }

    method SetName(n: string)
      modifies this`name
      ensures name == n
    {
      name := n;
    }

    /**
     * `handleStartQuiz`: a blank name sets the error and does not start;
     * otherwise the quiz starts, the error clears, and the timer effect sets
     * the countdown to the first question's time limit.
     */
    method HandleStartQuiz()
      requires Valid() && !isStarted
      modifies this`isStarted, this`error, this`timeLeft
      ensures Valid()
      ensures ValidateName(name).Some? ==> !isStarted && error == NoNameMessage && timeLeft == old(timeLeft)
      ensures ValidateName(name).None? ==> isStarted && error == ""
      ensures ValidateName(name).None? && |questions| > 0 ==> timeLeft == questions[0].timeLimit
      ensures ValidateName(name).None? && |questions| == 0 ==> timeLeft == old(timeLeft)
    {
      var e := ValidateName(name);
      if e.Some? {
        error := e.value;
        return;
      }
      isStarted := true;
      error := "";
      if |questions| > 0 {
        timeLeft := questions[currentIndex].timeLimit;
      }
    }

    method HandleSelectOption(option: nat)
      modifies this`selectedOption
      ensures selectedOption == Some(option)
    {
      selectedOption := Some(option);
    }

    /**
     * After an answer to the current question is recorded: move to the next
     * question, clear the selection and restart the countdown; or, at the last
     * question, finish with every answer counted.
     */
    method Advance(recordId: string)
      requires isStarted && !isCompleted
      requires currentIndex < |questions| && |answers| == currentIndex + 1
      requires forall k :: 0 <= k < |answers| ==> answers[k].questionId == questions[k].id
      modifies this`currentIndex, this`selectedOption, this`timeLeft, this`score, this`isCompleted, this`participants
      ensures Valid()
      ensures old(currentIndex) < |questions| - 1 ==>
                && currentIndex == old(currentIndex) + 1 && selectedOption.None?
                && timeLeft == questions[currentIndex].timeLimit
                && !isCompleted && score == old(score) && participants == old(participants)
      ensures old(currentIndex) == |questions| - 1 ==>
                && currentIndex == old(currentIndex) && selectedOption == old(selectedOption)
                && timeLeft == old(timeLeft) && isCompleted
                && score == Score(questions, answers)
                && participants == old(participants) + [MakeParticipant(recordId, name, quizId, questions, answers)]
    {
      if currentIndex < |questions| - 1 {
        currentIndex := currentIndex + 1;
        selectedOption := None;
        timeLeft := questions[currentIndex].timeLimit;
      } else {
        Finish(recordId);
      }
    }

    /** `finishQuiz`: counts the score and appends exactly one participant record. */
    method Finish(recordId: string)
      requires isStarted && !isCompleted && |answers| == |questions|
      requires forall k :: 0 <= k < |answers| ==> answers[k].questionId == questions[k].id
      requires currentIndex <= |questions| && (|questions| > 0 ==> currentIndex < |questions|)
      modifies this`score, this`isCompleted, this`participants
      ensures Valid()
      ensures isCompleted && score == Score(questions, answers)
      ensures participants == old(participants) + [MakeParticipant(recordId, name, quizId, questions, answers)]
    {
      var total := CountScore(questions, answers);
      var record := MakeParticipant(recordId, name, quizId, questions, answers);
      participants := participants + [record];
      score := total;
      isCompleted := true;
    }

    /** `handleTimeout`: records "no answer" with the whole time limit spent, then advances. */
    method HandleTimeout(recordId: string)
      requires Valid() && isStarted && !isCompleted && currentIndex < |questions|
      modifies this`answers, this`currentIndex, this`selectedOption, this`timeLeft, this`score, this`isCompleted,
               this`participants
      ensures Valid()
      ensures answers == old(answers) + [TimeoutAnswer(questions[old(currentIndex)])]
      ensures old(currentIndex) < |questions| - 1 ==>
                && currentIndex == old(currentIndex) + 1 && selectedOption.None?
                && timeLeft == questions[currentIndex].timeLimit
                && !isCompleted && score == old(score) && participants == old(participants)
      ensures old(currentIndex) == |questions| - 1 ==>
                && currentIndex == old(currentIndex) && selectedOption == old(selectedOption)
                && timeLeft == old(timeLeft) && isCompleted
                && score == Score(questions, answers)
                && participants == old(participants) + [MakeParticipant(recordId, name, quizId, questions, answers)]
    {
      answers := answers + [TimeoutAnswer(questions[currentIndex])];
      Advance(recordId);
    }

    /** One firing of the countdown; when it runs out, the timeout is handled. */
    method HandleTick(recordId: string)
      requires Valid() && isStarted && !isCompleted && currentIndex < |questions|
      modifies this`answers, this`currentIndex, this`selectedOption, this`timeLeft, this`score, this`isCompleted,
               this`participants
      ensures Valid()
      ensures !Tick(old(timeLeft)).1 ==>
                && timeLeft == Tick(old(timeLeft)).0 && answers == old(answers) && currentIndex == old(currentIndex)
                && selectedOption == old(selectedOption) && !isCompleted
                && score == old(score) && participants == old(participants)
      ensures Tick(old(timeLeft)).1 ==> answers == old(answers) + [TimeoutAnswer(questions[old(currentIndex)])]
      ensures Tick(old(timeLeft)).1 && old(currentIndex) < |questions| - 1 ==>
                && currentIndex == old(currentIndex) + 1 && selectedOption.None?
                && timeLeft == questions[currentIndex].timeLimit
                && !isCompleted && score == old(score) && participants == old(participants)
      ensures Tick(old(timeLeft)).1 && old(currentIndex) == |questions| - 1 ==>
                && currentIndex == old(currentIndex) && selectedOption == old(selectedOption)
                && timeLeft == 0 && isCompleted
                && score == Score(questions, answers)
                && participants == old(participants) + [MakeParticipant(recordId, name, quizId, questions, answers)]
    {
      var t := Tick(timeLeft);
      timeLeft := t.0;
      if t.1 {
        HandleTimeout(recordId);
      }
    }

    /**
     * `handleNextQuestion`: with nothing selected it changes nothing;
     * otherwise it records the chosen option and the time used, then advances.
     */
    method HandleNextQuestion(recordId: string)
      requires Valid() && isStarted && !isCompleted
      requires selectedOption.Some? ==> currentIndex < |questions|
      modifies this`answers, this`currentIndex, this`selectedOption, this`timeLeft, this`score, this`isCompleted,
               this`participants
      ensures Valid()
      ensures old(selectedOption).None? ==>
                && answers == old(answers) && currentIndex == old(currentIndex) && isCompleted == old(isCompleted)
                && selectedOption == old(selectedOption) && timeLeft == old(timeLeft)
                && score == old(score) && participants == old(participants)
      ensures old(selectedOption).Some? ==>
                answers == old(answers) + [ChosenAnswer(questions[old(currentIndex)], old(selectedOption).value, old(timeLeft))]
      ensures old(selectedOption).Some? && old(currentIndex) < |questions| - 1 ==>
                && currentIndex == old(currentIndex) + 1 && selectedOption.None?
                && timeLeft == questions[currentIndex].timeLimit
                && !isCompleted && score == old(score) && participants == old(participants)
      ensures old(selectedOption).Some? && old(currentIndex) == |questions| - 1 ==>
                && currentIndex == old(currentIndex) && selectedOption == old(selectedOption)
                && timeLeft == old(timeLeft) && isCompleted
                && score == Score(questions, answers)
                && participants == old(participants) + [MakeParticipant(recordId, name, quizId, questions, answers)]
    {
      if selectedOption.None? {
        return;
      }
      answers := answers + [ChosenAnswer(questions[currentIndex], selectedOption.value, timeLeft)];
      Advance(recordId);
    }
  }
}
