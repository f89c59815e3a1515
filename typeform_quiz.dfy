/** The one-question-per-screen quiz: a welcome screen, then one question at a time,
    then a completion screen with the score. Each handler runs to completion; the
    200 ms animation delay before the index moves is not modelled. */
module TypeformQuiz {
  import opened Wrappers
  import opened Sequences
  import opened QuizModel

  datatype Screen = WelcomeScreen | QuestionScreen | CompletedScreen

  class TypeformQuizSession {
    /** `allQuestions`, flattened from the quiz's pages once. */
    const questions: seq<Question>
    var currentQuestionIndex: nat
    var answers: Answers
    var isCompleted: bool
    var score: nat
    var showWelcome: bool

    /** The index stays on a question (on 0 when there is none), and the score is a
        percentage. */
    ghost predicate Valid()
      reads this
    {
      (if |questions| == 0 then currentQuestionIndex == 0 else currentQuestionIndex < |questions|) &&
      score <= 100
    }

    /** A new session: welcome screen, first question, no answers, not completed. */
    constructor (quiz: Quiz)
      ensures questions == AllQuestions(quiz.pages)
      ensures currentQuestionIndex == 0 && answers == map[] && !isCompleted && score == 0 && showWelcome
      ensures Valid()
    {
      questions := AllQuestions(quiz.pages);
      currentQuestionIndex := 0;
      answers := map[];
      isCompleted := false;
      score := 0;
      showWelcome := true;
    }

    /** Which screen renders: the welcome screen wins over the completion screen. */
    function CurrentScreen(): (screen: Screen)
      reads this
      ensures screen == WelcomeScreen <==> showWelcome
      ensures screen == CompletedScreen <==> !showWelcome && isCompleted
      ensures screen == QuestionScreen <==> !showWelcome && !isCompleted
    {
      if showWelcome then WelcomeScreen
      else if isCompleted then CompletedScreen
      else QuestionScreen
    }

    /** `currentQuestion`, undefined past the end of the questions. */
    function CurrentQuestion(): Option<Question>
      reads this
    {
      if currentQuestionIndex < |questions| then Some(questions[currentQuestionIndex]) else None
    }

    /** `canProceed`: false without a current question; for a required question,
        true exactly when it has a non-empty answer; otherwise true. */
    predicate CanProceed()
      reads this
      ensures CanProceed() ==> currentQuestionIndex < |questions|
      ensures currentQuestionIndex < |questions| && !questions[currentQuestionIndex].isRequired ==> CanProceed()
      ensures currentQuestionIndex < |questions| && questions[currentQuestionIndex].isRequired ==>
        (CanProceed() <==> questions[currentQuestionIndex].name in answers &&
                           answers[questions[currentQuestionIndex].name] != "")
    {
      CurrentQuestion().Some? && Satisfied(CurrentQuestion().value, answers)
    }

    /** The start button of the welcome screen, the only way off it. */
    method Start()
      requires Valid()
      modifies this
      ensures Valid() && !showWelcome
      ensures currentQuestionIndex == old(currentQuestionIndex) && answers == old(answers)
      ensures isCompleted == old(isCompleted) && score == old(score)
    {
      showWelcome := false;
    }

    /** `handleAnswerChange`: sets the answer to `questionName`, nothing else. */
    method HandleAnswerChange(questionName: string, value: string)
      requires Valid()
      modifies this
      ensures Valid()
      ensures answers == old(answers)[questionName := value]
      ensures questionName in answers && answers[questionName] == value
      ensures forall k :: k != questionName ==> (k in answers <==> k in old(answers))
      ensures forall k :: k != questionName && k in answers ==> answers[k] == old(answers)[k]
      ensures currentQuestionIndex == old(currentQuestionIndex) && isCompleted == old(isCompleted)
      ensures score == old(score) && showWelcome == old(showWelcome)
    {
      answers := answers[questionName := value];
    }

    /** `handleNext`: before the last question, move on by one and do not score; on
        the last question, score, complete and return what goes to `onComplete`. */
    method HandleNext() returns (completion: Option<map<string, ResultValue>>)
      requires Valid()
      modifies this
      ensures Valid()
      ensures old(currentQuestionIndex) < |questions| - 1 ==>
        currentQuestionIndex == old(currentQuestionIndex) + 1 &&
        isCompleted == old(isCompleted) && score == old(score) && completion == None
      ensures old(currentQuestionIndex) >= |questions| - 1 ==>
        currentQuestionIndex == old(currentQuestionIndex) &&
        isCompleted && score == Score(questions, answers) &&
        completion == Some(CompletionResults(answers, score))
      ensures answers == old(answers) && showWelcome == old(showWelcome)
    {
      if currentQuestionIndex < |questions| - 1 {
        currentQuestionIndex := currentQuestionIndex + 1;
        completion := None;
      } else {
        var finalScore := CalculateScore(questions, answers);
        score := finalScore;
        isCompleted := true;
        completion := Some(CompletionResults(answers, finalScore));
      }
    }

    /** `handlePrevious`: back by one, except on the first question. */
    method HandlePrevious()
      requires Valid()
      modifies this
      ensures Valid()
      ensures currentQuestionIndex == if old(currentQuestionIndex) > 0 then old(currentQuestionIndex) - 1 else 0
      ensures answers == old(answers) && isCompleted == old(isCompleted)
      ensures score == old(score) && showWelcome == old(showWelcome)
    {
      if currentQuestionIndex > 0 {
        currentQuestionIndex := currentQuestionIndex - 1;
      }
    }

    /** The "next"/"finish" button: it exists only on the question screen and is
        disabled while `canProceed` is false. A quiz without questions can therefore
        never be finished, and a completed quiz is never scored again. */
    method PressNext() returns (completion: Option<map<string, ResultValue>>)
      requires Valid()
      modifies this
      ensures Valid()
      ensures !(old(CurrentScreen()) == QuestionScreen && old(CanProceed())) ==>
        currentQuestionIndex == old(currentQuestionIndex) && answers == old(answers) &&
        isCompleted == old(isCompleted) && score == old(score) && showWelcome == old(showWelcome) &&
        completion == None
      ensures old(CurrentScreen() == QuestionScreen && CanProceed()) && old(currentQuestionIndex) < |questions| - 1 ==>
        currentQuestionIndex == old(currentQuestionIndex) + 1 &&
        isCompleted == old(isCompleted) && score == old(score) && completion == None
      ensures old(CurrentScreen() == QuestionScreen && CanProceed()) && old(currentQuestionIndex) >= |questions| - 1 ==>
        isCompleted && score == Score(questions, answers) &&
        completion == Some(CompletionResults(answers, score))
      ensures answers == old(answers) && showWelcome == old(showWelcome)
      ensures |questions| == 0 ==> isCompleted == old(isCompleted) && completion == None
      ensures old(isCompleted) ==> isCompleted && score == old(score) && completion == None
    {
      if CurrentScreen() == QuestionScreen && CanProceed() {
        completion := HandleNext();
      } else {
        completion := None;
      }
    }
  }

  /** A three-question quiz, one of them free text, answered right throughout:
      score 100, a pass, and three answers plus the score handed on. */
  method EndToEnd() {
    var free := Question("comment", "opinion", "Opinion", None, false, [], Undefined);
    var a := Question("radiogroup", "q1", "A", None, true, [Choice("x", "x"), Choice("y", "y")], Key("x"));
    var b := Question("radiogroup", "q2", "B", None, true, [Choice("x", "x"), Choice("y", "y")], Key("y"));
    var quiz := Quiz("exam", "Examen", "", [Page("page1", Some([a, free, b]))], None, None);
    var session := new TypeformQuizSession(quiz);
    assert session.questions == [a, free, b];
    var r := session.PressNext();
    assert r == None && session.currentQuestionIndex == 0;
    session.Start();
    r := session.PressNext();
    assert r == None && session.currentQuestionIndex == 0;
    session.HandleAnswerChange("q1", "x");
    r := session.PressNext();
    assert session.currentQuestionIndex == 1;
    session.HandleAnswerChange("opinion", "Muy útil");
    r := session.PressNext();
    assert session.currentQuestionIndex == 2;
    session.HandleAnswerChange("q2", "y");
    var answers := session.answers;
    assert answers == map["q1" := "x", "opinion" := "Muy útil", "q2" := "y"];
    var qs := session.questions;
    assert IsCorrect(qs[0], answers) && !IsScored(qs[1]) && IsCorrect(qs[2], answers);
    assert ScoredCount(qs) > 0 by {
      assert qs[..1] == [a] && [a][..0] == [];
      assert CountIf(IsScored, [a]) == 1;
    }
    AllCorrectScoresHundred(qs, answers);
    r := session.PressNext();
    assert session.isCompleted && session.score == 100 && Passed(session.score);
    assert r.Some? && r.value.Keys == {"q1", "opinion", "q2", "score"};
  }
}
