/** The paged quiz: the flattened questions are cut into as many equal slices as the
    quiz has pages, one slice per screen, and "next" is gated on every required
    question of the slice on screen. */
module SimpleQuiz {
  import opened Wrappers
  import opened QuizModel

  function Min(a: int, b: int): int {
    if a <= b then a else b
  }

  /** `Math.ceil(questionCount / pageCount)`: the least size whose `pageCount` slices
      hold every question. With no pages the division gives NaN, which `slice`
      reads as 0, so the size is 0. */
  function PageSize(questionCount: nat, pageCount: nat): (size: nat)
    ensures pageCount == 0 ==> size == 0
    ensures pageCount > 0 ==> questionCount <= size * pageCount
    ensures pageCount > 0 && size > 0 ==> (size - 1) * pageCount < questionCount
  {
    if pageCount == 0 then 0
    else
      CeilDivision(questionCount, pageCount);
      (questionCount + pageCount - 1) / pageCount
  }

  lemma CeilDivision(n: nat, p: nat)
    requires p > 0
    ensures var q := (n + p - 1) / p; n <= q * p && (q > 0 ==> (q - 1) * p < n)
  {
    var x := n + p - 1;
    var q := x / p;
    assert q * p <= x < q * p + p;
    if q > 0 {
      assert (q - 1) * p == q * p - p;
    }
  }

  /** `all.slice(page * size, (page + 1) * size)`, which clamps both ends to the
      length. */
  function PageSlice<T>(all: seq<T>, size: nat, page: nat): (r: seq<T>)
    ensures |r| <= size
  {
    var lo := Min(page * size, |all|);
    var hi := Min((page + 1) * size, |all|);
    assert page * size <= (page + 1) * size;
    all[lo..hi]
  }

  /** The slices of pages `0 .. count - 1`, one after the other. */
  function ConcatPages<T>(all: seq<T>, size: nat, count: nat): seq<T> {
    if count == 0 then [] else ConcatPages(all, size, count - 1) + PageSlice(all, size, count - 1)
  }

  lemma {:induction false} ConcatPagesPrefix<T>(all: seq<T>, size: nat, count: nat)
    ensures ConcatPages(all, size, count) == all[..Min(count * size, |all|)]
  {
    if count > 0 {
      ConcatPagesPrefix(all, size, count - 1);
      assert (count - 1) * size + size == count * size;
      var a, b := Min((count - 1) * size, |all|), Min(count * size, |all|);
      assert all[..a] + all[a..b] == all[..b];
    }
  }

  /** The pages together show every question exactly once, in order: their slices
      concatenate back to the whole list. */
  lemma PagesPartitionQuestions<T>(all: seq<T>, pageCount: nat)
    requires pageCount > 0
    ensures ConcatPages(all, PageSize(|all|, pageCount), pageCount) == all
  {
    var size := PageSize(|all|, pageCount);
    ConcatPagesPrefix(all, size, pageCount);
    assert size * pageCount == pageCount * size;
  }

  /** `questions.every(q => !q.isRequired || answered)`. */
  function AllSatisfied(qs: seq<Question>, answers: Answers): (r: bool)
    ensures r <==> forall i :: 0 <= i < |qs| ==> Satisfied(qs[i], answers)
  {
    if qs == [] then true
    else Satisfied(qs[0], answers) && AllSatisfied(qs[1..], answers)
  }

  /** Passing the gate on every page means every required question of the quiz has
      a non-empty answer. */
  lemma GatesCoverAllQuestions(all: seq<Question>, pageCount: nat, answers: Answers)
    requires pageCount > 0
    requires forall p :: 0 <= p < pageCount ==> AllSatisfied(PageSlice(all, PageSize(|all|, pageCount), p), answers)
    ensures forall i :: 0 <= i < |all| ==> Satisfied(all[i], answers)
  {
    var size := PageSize(|all|, pageCount);
    PagesPartitionQuestions(all, pageCount);
    GatesCoverPrefix(all, size, pageCount, answers);
  }

  lemma {:induction false} GatesCoverPrefix(all: seq<Question>, size: nat, count: nat, answers: Answers)
    requires forall p :: 0 <= p < count ==> AllSatisfied(PageSlice(all, size, p), answers)
    ensures AllSatisfied(ConcatPages(all, size, count), answers)
  {
    if count > 0 {
      GatesCoverPrefix(all, size, count - 1, answers);
      var front, page := ConcatPages(all, size, count - 1), PageSlice(all, size, count - 1);
      assert forall i :: 0 <= i < |front + page| ==>
        (front + page)[i] == if i < |front| then front[i] else page[i - |front|];
    }
  }

  class SimpleQuizSession {
    /** `quiz.pages.length`. */
    const pageCount: nat
    /** `allQuestions`, flattened from the quiz's pages once. */
    const questions: seq<Question>
    var currentPage: nat
    var answers: Answers
    var isCompleted: bool
    var score: nat

    ghost predicate Valid()
      reads this
    {
      (if pageCount == 0 then currentPage == 0 else currentPage < pageCount) && score <= 100
    }

    constructor (quiz: Quiz)
      ensures pageCount == |quiz.pages| && questions == AllQuestions(quiz.pages)
      ensures currentPage == 0 && answers == map[] && !isCompleted && score == 0
      ensures Valid()
    {
      pageCount := |quiz.pages|;
      questions := AllQuestions(quiz.pages);
      currentPage := 0;
      answers := map[];
      isCompleted := false;
      score := 0;
    }

    /** `questionsPerPage`. */
    function QuestionsPerPage(): (size: nat)
      reads this
      ensures pageCount > 0 ==> |questions| <= size * pageCount
      ensures pageCount > 0 && size > 0 ==> (size - 1) * pageCount < |questions|
      ensures pageCount == 0 ==> size == 0
    {
      PageSize(|questions|, pageCount)
    }

    /** `currentQuestions`: the slice of the page on screen. */
    function CurrentQuestions(): (page: seq<Question>)
      reads this
      ensures |page| <= QuestionsPerPage()
      ensures forall k :: 0 <= k < |page| ==>
        currentPage * QuestionsPerPage() + k < |questions| &&
        page[k] == questions[currentPage * QuestionsPerPage() + k]
    {
      PageSlice(questions, QuestionsPerPage(), currentPage)
    }

    /** `canProceed`: every required question on the page has a non-empty answer. */
    predicate CanProceed()
      reads this
      ensures CanProceed() <==> forall k :: 0 <= k < |CurrentQuestions()| && CurrentQuestions()[k].isRequired ==>
        Answered(answers, CurrentQuestions()[k].name)
    {
      AllSatisfied(CurrentQuestions(), answers)
    }

    /** `handleAnswerChange`: sets the answer to `questionName`, nothing else. */
    method HandleAnswerChange(questionName: string, value: string)
      requires Valid()
      modifies this
      ensures Valid()
      ensures answers == old(answers)[questionName := value]
      ensures currentPage == old(currentPage) && isCompleted == old(isCompleted) && score == old(score)
    {
      answers := answers[questionName := value];
    }

    /** `handleNext`: to the next page, or, on the last page, score and complete. */
    method HandleNext() returns (completion: Option<map<string, ResultValue>>)
      requires Valid()
      modifies this
      ensures Valid()
      ensures old(currentPage) < pageCount - 1 ==>
        currentPage == old(currentPage) + 1 && isCompleted == old(isCompleted) &&
        score == old(score) && completion == None
      ensures old(currentPage) >= pageCount - 1 ==>
        currentPage == old(currentPage) && isCompleted &&
        score == Score(questions, answers) && completion == Some(CompletionResults(answers, score))
      ensures answers == old(answers)
    {
      if currentPage < pageCount - 1 {
        currentPage := currentPage + 1;
        completion := None;
      } else {
        var finalScore := CalculateScore(questions, answers);
        score := finalScore;
        isCompleted := true;
        completion := Some(CompletionResults(answers, finalScore));
      }
    }

    /** `handlePrevious`: back one page, except on the first. */
    method HandlePrevious()
      requires Valid()
      modifies this
      ensures Valid()
      ensures currentPage == if old(currentPage) > 0 then old(currentPage) - 1 else 0
      ensures answers == old(answers) && isCompleted == old(isCompleted) && score == old(score)
    {
      if currentPage > 0 {
        currentPage := currentPage - 1;
      }
    }

    /** The "next"/"finish" button: shown until the quiz is completed, disabled while
        `canProceed` is false. */
    method PressNext() returns (completion: Option<map<string, ResultValue>>)
      requires Valid()
      modifies this
      ensures Valid()
      ensures !old(!isCompleted && CanProceed()) ==>
        currentPage == old(currentPage) && isCompleted == old(isCompleted) &&
        score == old(score) && completion == None
      ensures old(!isCompleted && CanProceed()) && old(currentPage) < pageCount - 1 ==>
        currentPage == old(currentPage) + 1 && !isCompleted && completion == None
      ensures old(!isCompleted && CanProceed()) && old(currentPage) >= pageCount - 1 ==>
        isCompleted && score == Score(questions, answers) &&
        completion == Some(CompletionResults(answers, score))
      ensures answers == old(answers)
    {
      if !isCompleted && CanProceed() {
        completion := HandleNext();
      } else {
        completion := None;
      }
    }

    /** The completion screen's pass message. */
    predicate ShowsPassMessage()
      reads this
      ensures ShowsPassMessage() <==> isCompleted && score >= 70
    {
      isCompleted && Passed(score)
    }
  }
}
