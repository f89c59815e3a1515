/** What the two quiz components (the one-question-per-screen quiz and the paged quiz)
    share: the quiz they are given, the answers they collect, the scoring rule and
    the verdict shown on the completion screen. */
module QuizModel {
  import opened Wrappers
  import opened Sequences

  /** An option of a multiple-choice question. The components declare `choices` as
      strings, but the exam transformation hands them the backend's option objects
      unchanged, so that is what a choice is here. */
  datatype Choice = Choice(valor: string, texto: string)

  /** A question's `correctAnswer` as it can arrive from the backend's JSON: absent,
      `null`, or a string. The components test it only against `undefined`, so a `null`
      key is scored and no answer ever equals it. */
  datatype AnswerKey = Undefined | Null | Key(value: string)

  /** One question element as the components read it. `correctAnswer` is absent for
      questions that are not graded (free-text questions, for instance); an absent
      `isRequired` reads as false. */
  datatype Question = Question(
    kind: string,
    name: string,
    title: string,
    description: Option<string>,
    isRequired: bool,
    choices: seq<Choice>,
    correctAnswer: AnswerKey)

  /** A page of the quiz; a page without `elements` contributes no question. */
  datatype Page = Page(name: string, elements: Option<seq<Question>>)

  /** The quiz the components receive. The pass threshold the exam transformation
      also attaches is not read by them (both hard-code 70). */
  datatype Quiz = Quiz(
    id: string,
    title: string,
    description: string,
    pages: seq<Page>,
    maxAttempts: Option<int>,
    durationMinutes: Option<int>)

  /** `quiz.pages.flatMap(page => page.elements || [])`. */
  function AllQuestions(pages: seq<Page>): (r: seq<Question>)
    ensures pages == [] ==> r == []
    ensures |pages| == 1 ==> r == pages[0].elements.GetOr([])
  {
    if pages == [] then []
    else pages[0].elements.GetOr([]) + AllQuestions(pages[1..])
  }

  /** The questions of several pages are those of each page in turn, in page order. */
  lemma {:induction false} AllQuestionsAppend(p: seq<Page>, q: seq<Page>)
    ensures AllQuestions(p + q) == AllQuestions(p) + AllQuestions(q)
    decreases |p|
  {
    if p != [] {
      assert (p + q)[1..] == p[1..] + q;
      AllQuestionsAppend(p[1..], q);
    } else {
      assert p + q == q;
    }
  }

  /** Answers keyed by question name; a name that is not a key is "undefined". */
  type Answers = map<string, string>

  /** The answer to `name` is neither undefined nor the empty string. */
  predicate Answered(answers: Answers, name: string) {
    name in answers && answers[name] != ""
  }

  /** The gate both components apply to one question before "next" is enabled. */
  predicate Satisfied(q: Question, answers: Answers) {
    q.isRequired ==> Answered(answers, q.name)
  }

  // ---------------------------------------------------------------------------
  // Scoring

  /** The question takes part in the score: its `correctAnswer` is not undefined
      (a `null` one is scored). */
  predicate IsScored(q: Question) {
    !q.correctAnswer.Undefined?
  }

  /** `answers[q.name] === q.correctAnswer`, for a scored question: an undefined
      answer never equals a defined correct answer, and a string never equals `null`. */
  predicate IsCorrect(q: Question, answers: Answers) {
    q.correctAnswer.Key? && q.name in answers && answers[q.name] == q.correctAnswer.value
  }

  function ScoredCount(questions: seq<Question>): nat {
    CountIf(IsScored, questions)
  }

  function CorrectCount(questions: seq<Question>, answers: Answers): nat {
    CountIf((q: Question) => IsCorrect(q, answers), questions)
  }

  /** A correct answer is only ever counted for a scored question. */
  lemma {:induction false} CorrectAtMostScored(questions: seq<Question>, answers: Answers)
    ensures CorrectCount(questions, answers) <= ScoredCount(questions)
    decreases |questions|
  {
    if questions != [] {
      var init := questions[..|questions| - 1];
      CorrectAtMostScored(init, answers);
    }
  }

  /** `total > 0 ? Math.round(correct / total * 100) : 0`, in exact integer arithmetic:
      the nearest integer to 100 * correct / total, halves rounded up. */
  function RoundedPercent(correct: nat, total: nat): (r: nat)
    requires correct <= total
    ensures total == 0 ==> r == 0
    ensures total > 0 ==> 2 * total * r <= 200 * correct + total < 2 * total * (r + 1)
    ensures r <= 100
    ensures total > 0 && correct == total ==> r == 100
  {
    if total == 0 then 0
    else
      RoundingDivision(correct, total);
      (200 * correct + total) / (2 * total)
  }

  lemma RoundingDivision(correct: nat, total: nat)
    requires 0 < total && correct <= total
    ensures var q := (200 * correct + total) / (2 * total);
      2 * total * q <= 200 * correct + total < 2 * total * (q + 1) &&
      q <= 100 && (correct == total ==> q == 100)
  {
    var x, d := 200 * correct + total, 2 * total;
    var q := x / d;
    assert d * q <= x < d * q + d;
    assert x < d * 101;
    MulCancelLess(d, q, 101);
    if correct == total {
      assert d * 99 < d * q;
      MulCancelLess(d, 99, q);
    }
  }

  lemma MulCancelLess(d: nat, a: nat, b: nat)
    requires d > 0 && d * a < d * b
    ensures a < b
  {
    if a >= b {
      MulMonotone(d, b, a);
      assert false;
    }
  }

  /** The score the components compute at completion (`calculateScore`). */
  function Score(questions: seq<Question>, answers: Answers): (r: nat)
    ensures r <= 100
  {
    CorrectAtMostScored(questions, answers);
    RoundedPercent(CorrectCount(questions, answers), ScoredCount(questions))
  }

  /** `calculateScore`: one pass over the questions with two counters. */
  method CalculateScore(questions: seq<Question>, answers: Answers) returns (score: nat)
    ensures score == Score(questions, answers)
  {
    var correct, total := 0, 0;
    var i := 0;
    while i < |questions|
      invariant 0 <= i <= |questions|
      invariant total == ScoredCount(questions[..i])
      invariant correct == CorrectCount(questions[..i], answers)
    {
      var q := questions[i];
      CountsStep(questions, i, answers);
      if !q.correctAnswer.Undefined? {
        total := total + 1;
        if q.correctAnswer.Key? && q.name in answers && answers[q.name] == q.correctAnswer.value {
          correct := correct + 1;
        }
      }
      i := i + 1;
    }
    assert questions[..i] == questions;
    CorrectAtMostScored(questions, answers);
    score := if total > 0 then (200 * correct + total) / (2 * total) else 0;
  }

  /** Extending the prefix by one question adds that question's share to each count. */
  lemma CountsStep(questions: seq<Question>, i: nat, answers: Answers)
    requires i < |questions|
    ensures ScoredCount(questions[..i + 1]) ==
      ScoredCount(questions[..i]) + if IsScored(questions[i]) then 1 else 0
    ensures CorrectCount(questions[..i + 1], answers) ==
      CorrectCount(questions[..i], answers) + if IsCorrect(questions[i], answers) then 1 else 0
  {
    assert questions[..i + 1][..i] == questions[..i];
  }

  /** With no scored question the score is 0, whatever the answers. */
  lemma NothingScoredScoresZero(questions: seq<Question>, answers: Answers)
    requires forall i :: 0 <= i < |questions| ==> questions[i].correctAnswer.Undefined?
    ensures Score(questions, answers) == 0
  {
    NoneScored(questions);
  }

  lemma {:induction false} NoneScored(questions: seq<Question>)
    requires forall i :: 0 <= i < |questions| ==> questions[i].correctAnswer.Undefined?
    ensures ScoredCount(questions) == 0
    decreases |questions|
  {
    if questions != [] {
      NoneScored(questions[..|questions| - 1]);
    }
  }

  /** Every scored question answered correctly gives 100. */
  lemma {:induction false} AllCorrectScoresHundred(questions: seq<Question>, answers: Answers)
    requires ScoredCount(questions) > 0
    requires forall i :: 0 <= i < |questions| && IsScored(questions[i]) ==> IsCorrect(questions[i], answers)
    ensures Score(questions, answers) == 100
  {
    AllCorrectCounts(questions, answers);
  }

  lemma {:induction false} AllCorrectCounts(questions: seq<Question>, answers: Answers)
    requires forall i :: 0 <= i < |questions| && IsScored(questions[i]) ==> IsCorrect(questions[i], answers)
    ensures CorrectCount(questions, answers) == ScoredCount(questions)
    decreases |questions|
  {
    if questions != [] {
      AllCorrectCounts(questions[..|questions| - 1], answers);
    }
  }

  /** The score does not depend on the order of the questions, so shuffling the
      questions never changes it. */
  lemma ScoreIgnoresOrder(questions: seq<Question>, shuffled: seq<Question>, answers: Answers)
    requires multiset(questions) == multiset(shuffled)
    ensures Score(questions, answers) == Score(shuffled, answers)
  {
    CountIfPermutation(IsScored, questions, shuffled);
    CountIfPermutation((q: Question) => IsCorrect(q, answers), questions, shuffled);
  }

  /** Only the answers to scored questions matter: changing the answer to a question
      that no scored question shares its name with leaves the score unchanged. */
  lemma {:induction false} UnscoredAnswerIrrelevant(questions: seq<Question>, answers: Answers, name: string, value: string)
    requires forall i :: 0 <= i < |questions| && IsScored(questions[i]) ==> questions[i].name != name
    ensures CorrectCount(questions, answers[name := value]) == CorrectCount(questions, answers)
    decreases |questions|
  {
    if questions != [] {
      UnscoredAnswerIrrelevant(questions[..|questions| - 1], answers, name, value);
    }
  }

  /** A question whose `correctAnswer` is `null` counts towards the total and never
      towards the correct answers, wherever it stands in the quiz. */
  lemma NullKeyCountsAgainst(before: seq<Question>, q: Question, after: seq<Question>, answers: Answers)
    requires q.correctAnswer.Null?
    ensures ScoredCount(before + [q] + after) == ScoredCount(before + after) + 1
    ensures CorrectCount(before + [q] + after, answers) == CorrectCount(before + after, answers)
  {
    var correct := (x: Question) => IsCorrect(x, answers);
    CountIfAppend(IsScored, before + [q], after);
    CountIfAppend(IsScored, before, [q]);
    CountIfAppend(IsScored, before, after);
    CountIfAppend(correct, before + [q], after);
    CountIfAppend(correct, before, [q]);
    CountIfAppend(correct, before, after);
    assert [q][..0] == [];
  }

  /** One graded question answered right beside one with a `null` key scores 50. */
  lemma NullKeyHalvesScore(q: Question, graded: Question, answers: Answers)
    requires q.correctAnswer.Null?
    requires graded.correctAnswer.Key? && graded.name in answers && answers[graded.name] == graded.correctAnswer.value
    ensures Score([q, graded], answers) == 50
  {
    NullKeyCountsAgainst([], q, [graded], answers);
    assert [] + [q] + [graded] == [q, graded] && [] + [graded] == [graded];
    assert [graded][..0] == [];
    assert ScoredCount([graded]) == 1 && CorrectCount([graded], answers) == 1;
  }

  // ---------------------------------------------------------------------------
  // Verdict

  /** The pass mark, hard-coded in both components. */
  const PassMark: nat := 70

  predicate Passed(score: int) {
    score >= PassMark
  }

  /** The rounded score passes exactly when at least 69.5% of the scored questions
      were answered correctly. */
  lemma PassedIff(correct: nat, total: nat)
    requires correct <= total && total > 0
    ensures Passed(RoundedPercent(correct, total)) <==> 200 * correct >= 139 * total
  {
    var r := RoundedPercent(correct, total);
    if r >= 70 {
      MulMonotone(2 * total, 70, r);
    } else {
      MulMonotone(2 * total, r + 1, 70);
    }
  }

  lemma MulMonotone(a: nat, b: nat, c: nat)
    requires b <= c
    ensures a * b <= a * c
  {
  }

  /** Seven right out of ten scored questions passes; six does not. */
  lemma PassMarkBoundary()
    ensures RoundedPercent(7, 10) == 70 && Passed(70)
    ensures RoundedPercent(6, 10) == 60 && !Passed(60)
  {
  }

  /** The three tiers of the completion screen's title, message and icon. */
  datatype Tier = Excellent | WellDone | KeepTrying

  function ScoreTier(score: int): (t: Tier)
    ensures t == Excellent <==> score >= 90
    ensures t == KeepTrying <==> !Passed(score)
  {
    if score >= 90 then Excellent
    else if score >= 70 then WellDone
    else KeepTrying
  }

  /** `getScoreMessage`: the title and message shown for a tier. */
  function TierMessage(t: Tier): (m: (string, string))
    ensures m.0 == "¡Excelente!" <==> t == Excellent
    ensures m.0 == "¡Bien hecho!" <==> t == WellDone
    ensures m.0 == "Sigue intentando" <==> t == KeepTrying
  {
    match t
    case Excellent => ("¡Excelente!", "Dominas completamente el tema")
    case WellDone => ("¡Bien hecho!", "Has aprobado satisfactoriamente")
    case KeepTrying => ("Sigue intentando", "Necesitas repasar algunos conceptos")
  }

  /** `getScoreIcon`. */
  datatype Icon = Trophy | Target | Zap

  function TierIcon(t: Tier): (icon: Icon)
    ensures icon == Trophy <==> t == Excellent
    ensures icon == Zap <==> t == KeepTrying
  {
    match t
    case Excellent => Trophy
    case WellDone => Target
    case KeepTrying => Zap
  }

  /** The message, the icon and the pass banner never disagree: a passing score gets
      an encouraging message and a non-failure icon, a failing one gets the others. */
  lemma VerdictsAgree(score: int)
    ensures Passed(score) <==> TierMessage(ScoreTier(score)).0 != "Sigue intentando"
    ensures Passed(score) <==> TierIcon(ScoreTier(score)) != Zap
  {
  }

  // ---------------------------------------------------------------------------
  // What is handed to `onComplete`

  datatype ResultValue = Text(text: string) | Number(n: int)

  /** `{ ...answers, score: finalScore }`: every answer, and the score under the key
      "score", which overrides an answer to a question named "score". */
  function CompletionResults(answers: Answers, score: nat): (r: map<string, ResultValue>)
    ensures r.Keys == answers.Keys + {"score"}
    ensures r["score"] == Number(score)
    ensures forall k :: k in answers && k != "score" ==> r[k] == Text(answers[k])
  {
    (map k | k in answers :: Text(answers[k]))["score" := Number(score)]
  }

  // ---------------------------------------------------------------------------
  // The "correct answers" figure on the one-question-per-screen completion screen

  /** As written: `Math.round((score / 100) * totalQuestions)`, derived from the score
      and the number of ALL questions, graded or not. */
  function ShownCorrectAsWritten(score: nat, totalQuestions: nat): (r: nat)
    ensures 200 * r <= 2 * score * totalQuestions + 100 < 200 * (r + 1)
    ensures score == 100 ==> r == totalQuestions
  {
    (2 * score * totalQuestions + 100) / 200
  }

  /** The evident intent: the number of questions answered correctly. It never
      exceeds the number of graded questions and the score is its rounded share. */
  function ShownCorrect(questions: seq<Question>, answers: Answers): (r: nat)
    ensures r <= ScoredCount(questions) <= |questions|
    ensures Score(questions, answers) == RoundedPercent(r, ScoredCount(questions))
  {
    CorrectAtMostScored(questions, answers);
    CorrectCount(questions, answers)
  }

  /** A quiz with one free-text question and two graded ones, both answered right,
      shows three correct answers although only two were graded. */
  lemma ShownCorrectOvercounts()
    ensures
      var free := Question("comment", "q1", "Opinion", None, false, [], Undefined);
      var a := Question("radiogroup", "q2", "A", None, true, [Choice("x", "x"), Choice("y", "y")], Key("x"));
      var b := Question("radiogroup", "q3", "B", None, true, [Choice("x", "x"), Choice("y", "y")], Key("y"));
      var qs := [free, a, b];
      var answers := map["q1" := "texto", "q2" := "x", "q3" := "y"];
      Score(qs, answers) == 100 &&
      ShownCorrectAsWritten(Score(qs, answers), |qs|) == 3 &&
      ShownCorrect(qs, answers) == 2
  {
    var free := Question("comment", "q1", "Opinion", None, false, [], Undefined);
    var a := Question("radiogroup", "q2", "A", None, true, [Choice("x", "x"), Choice("y", "y")], Key("x"));
    var b := Question("radiogroup", "q3", "B", None, true, [Choice("x", "x"), Choice("y", "y")], Key("y"));
    var qs := [free, a, b];
    var answers := map["q1" := "texto", "q2" := "x", "q3" := "y"];
    assert qs[..2] == [free, a] && [free, a][..1] == [free] && [free][..0] == [];
    var correct := (q: Question) => IsCorrect(q, answers);
    assert CountIf(IsScored, [free]) == 0 && CountIf(correct, [free]) == 0;
    assert CountIf(IsScored, [free, a]) == 1 && CountIf(correct, [free, a]) == 1;
    assert ScoredCount(qs) == 2;
    assert CorrectCount(qs, answers) == 2;
  }
}
