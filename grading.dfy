/**
 * The grading engine of app/api/quiz/submit/route.ts: every question of the
 * quiz, in ascending `order`, is compared with the submitted indices at the
 * same position; the verdicts and the count of correct answers are stored
 * as a new attempt.
 */
module Grading {
  import opened Wrappers
  import opened Json
  import opened Sorting
  import opened QuizData

  /**
   * `answers[index] || []`: the submitted indices for a question, where an
   * entry that is absent (missing, null, or beyond the end) counts as no
   * selection.
   */
  function AnswerAt(answers: seq<Option<seq<int>>>, index: nat): seq<int>
  {
    if index < |answers| && answers[index].Some? then answers[index].value else []
  }

  /**
   * `a.every((val, idx) => val === b[idx])`: each element of `a` equals the
   * element of `b` at the same position (a position past the end of `b`
   * holds undefined, which equals nothing).
   */
  function EveryMatches(a: seq<int>, b: seq<int>): bool
  {
    if a == [] then true
    else b != [] && a[0] == b[0] && EveryMatches(a[1..], b[1..])
  }

  /** For sequences of equal length, matching element by element is equality. */
  lemma {:induction false} EveryMatchesIsEquality(a: seq<int>, b: seq<int>)
    requires |a| == |b|
    ensures EveryMatches(a, b) <==> a == b
  {
    if a != [] {
      EveryMatchesIsEquality(a[1..], b[1..]);
      assert a == [a[0]] + a[1..] && b == [b[0]] + b[1..];
    }
  }

  /**
   * The comparison: sorted copies of both index lists must have the same
   * length and agree element by element.
   */
  function IsCorrect(correctAnswers: seq<int>, userAnswers: seq<int>): bool
  {
    var sortedCorrect := SortBy(correctAnswers, Ascending);
    var sortedUser := SortBy(userAnswers, Ascending);
    |sortedCorrect| == |sortedUser| && EveryMatches(sortedCorrect, sortedUser)
  }

  /** A question is graded correct exactly when the submission holds the same indices, each as often, as the stored answer. */
  lemma IsCorrectIffSameMultiset(correctAnswers: seq<int>, userAnswers: seq<int>)
    ensures IsCorrect(correctAnswers, userAnswers) <==> multiset(userAnswers) == multiset(correctAnswers)
  {
    var sortedCorrect := SortBy(correctAnswers, Ascending);
    var sortedUser := SortBy(userAnswers, Ascending);
    SortBySorts(correctAnswers, Ascending);
    SortBySorts(userAnswers, Ascending);
    if |sortedCorrect| == |sortedUser| {
      EveryMatchesIsEquality(sortedCorrect, sortedUser);
    }
    if multiset(userAnswers) == multiset(correctAnswers) {
      SortedPermutationsEqual(sortedCorrect, sortedUser);
    }
  }

  /** Reordering a submission never changes its grade. */
  lemma GradeIgnoresOrder(correctAnswers: seq<int>, userAnswers: seq<int>, reordered: seq<int>)
    requires multiset(reordered) == multiset(userAnswers)
    ensures IsCorrect(correctAnswers, reordered) == IsCorrect(correctAnswers, userAnswers)
  {
    IsCorrectIffSameMultiset(correctAnswers, userAnswers);
    IsCorrectIffSameMultiset(correctAnswers, reordered);
  }

  /** No partial credit: a strictly smaller or strictly larger selection is wrong. */
  lemma NoPartialCredit(correctAnswers: seq<int>, userAnswers: seq<int>)
    requires multiset(userAnswers) < multiset(correctAnswers) || multiset(correctAnswers) < multiset(userAnswers)
    ensures !IsCorrect(correctAnswers, userAnswers)
  {
    IsCorrectIffSameMultiset(correctAnswers, userAnswers);
  }

  /** Duplicates count: [0, 0] does not match [0]. */
  lemma DuplicatesMatter()
    ensures !IsCorrect([0], [0, 0])
  {
    IsCorrectIffSameMultiset([0], [0, 0]);
    assert multiset([0, 0])[0] == 2;
  }

  /** One question's verdict: the question echoed back with the submission, the stored answer (both unsorted) and the grade. */
  function Judge(question: QuestionRow, userAnswers: seq<int>): Verdict
  {
    var correctAnswers := Parse(question.correctAnswers);
    Verdict(question.id, question.questionText, question.questionType, Parse(question.options),
            userAnswers, correctAnswers, IsCorrect(correctAnswers, userAnswers))
  }

  /** A verdict echoes the question, the submission and the stored answer unsorted, and is correct exactly when the two hold the same indices equally often. */
  lemma JudgeIsExact(question: QuestionRow, userAnswers: seq<int>)
    ensures var v := Judge(question, userAnswers);
      && v.questionId == question.id && v.questionText == question.questionText
      && v.questionType == question.questionType && v.options == Parse(question.options)
      && v.userAnswers == userAnswers && v.correctAnswers == Parse(question.correctAnswers)
      && (v.isCorrect <==> multiset(userAnswers) == multiset(Parse(question.correctAnswers)))
  {
    IsCorrectIffSameMultiset(Parse(question.correctAnswers), userAnswers);
  }

  /** The verdict list for questions in the given order, one per question. */
  function Verdicts(questions: seq<QuestionRow>, answers: seq<Option<seq<int>>>): (vs: seq<Verdict>)
    ensures |vs| == |questions|
  {
    seq(|questions|, i requires 0 <= i < |questions| => Judge(questions[i], AnswerAt(answers, i)))
  }

  /** There is exactly one verdict per question, and the verdict at position i judges question i against answer entry i. */
  lemma VerdictsPerQuestion(questions: seq<QuestionRow>, answers: seq<Option<seq<int>>>)
    ensures forall i :: 0 <= i < |questions| ==>
      Verdicts(questions, answers)[i] == Judge(questions[i], AnswerAt(answers, i))
  {
  }

  /** The number of verdicts marked correct. */
  function CountCorrect(vs: seq<Verdict>): (n: nat)
    ensures n <= |vs|
  {
    if vs == [] then 0
    else CountCorrect(vs[..|vs| - 1]) + (if vs[|vs| - 1].isCorrect then 1 else 0)
  }

  /** The score is the full count exactly when every verdict is correct, and zero exactly when none is. */
  lemma {:induction false} CountCorrectExtremes(vs: seq<Verdict>)
    ensures CountCorrect(vs) == |vs| <==> forall i :: 0 <= i < |vs| ==> vs[i].isCorrect
    ensures CountCorrect(vs) == 0 <==> forall i :: 0 <= i < |vs| ==> !vs[i].isCorrect
  {
    if vs != [] {
      var init := vs[..|vs| - 1];
      CountCorrectExtremes(init);
      assert forall i :: 0 <= i < |init| ==> init[i] == vs[i];
    }
  }

  /** Appending one verdict adds one to the count exactly when that verdict is correct. */
  lemma CountCorrectAppend(vs: seq<Verdict>, v: Verdict)
    ensures CountCorrect(vs + [v]) == CountCorrect(vs) + (if v.isCorrect then 1 else 0)
  {
    assert (vs + [v])[..|vs|] == vs;
  }

  /**
   * The grading loop: one verdict per question, in the order given, with a
   * running count of correct ones.
   */
  method Grade(questions: seq<QuestionRow>, answers: seq<Option<seq<int>>>)
    returns (detailedAnswers: seq<Verdict>, correctCount: nat)
    ensures detailedAnswers == Verdicts(questions, answers)
    ensures correctCount == CountCorrect(detailedAnswers)
    ensures correctCount <= |questions|
  {
    correctCount := 0;
    detailedAnswers := [];
    var index := 0;
    while index < |questions|
      invariant 0 <= index <= |questions|
      invariant detailedAnswers == Verdicts(questions[..index], answers)
      invariant correctCount == CountCorrect(detailedAnswers)
    {
      var question := questions[index];
      var correctAnswers := Parse(question.correctAnswers);
      var userAnswers := AnswerAt(answers, index);
      var isCorrect := IsCorrect(correctAnswers, userAnswers);
      if isCorrect {
        correctCount := correctCount + 1;
      }
      var verdict := Verdict(question.id, question.questionText, question.questionType,
                             Parse(question.options), userAnswers, correctAnswers, isCorrect);
      assert verdict == Judge(question, userAnswers);
      CountCorrectAppend(detailedAnswers, verdict);
      assert questions[..index + 1][..index] == questions[..index];
      assert Verdicts(questions[..index + 1], answers) == Verdicts(questions[..index], answers) + [verdict];
      detailedAnswers := detailedAnswers + [verdict];
      index := index + 1;
    }
    assert questions[..index] == questions;
  }

  /** An absent answer is graded as the empty selection: correct only when the stored answer is empty; it still has its verdict. */
  lemma MissingAnswerGradedEmpty(questions: seq<QuestionRow>, answers: seq<Option<seq<int>>>, i: nat)
    requires i < |questions|
    requires i >= |answers| || answers[i].None?
    ensures |Verdicts(questions, answers)| == |questions|
    ensures Verdicts(questions, answers)[i].userAnswers == []
    ensures Verdicts(questions, answers)[i].isCorrect <==> Parse(questions[i].correctAnswers) == []
  {
    VerdictsPerQuestion(questions, answers);
    JudgeIsExact(questions[i], []);
    var c := Parse(questions[i].correctAnswers);
    assert |multiset(c)| == |c|;
  }

  /** Answer entries beyond the last question are never looked at. */
  lemma ExtraAnswersIgnored(questions: seq<QuestionRow>, answers: seq<Option<seq<int>>>, extra: seq<Option<seq<int>>>)
    requires |questions| <= |answers|
    ensures Verdicts(questions, answers + extra) == Verdicts(questions, answers)
  {
    VerdictsPerQuestion(questions, answers);
    VerdictsPerQuestion(questions, answers + extra);
    forall i | 0 <= i < |questions|
      ensures AnswerAt(answers + extra, i) == AnswerAt(answers, i)
    {
      assert (answers + extra)[i] == answers[i];
    }
  }

  datatype SubmitResult = SubmitResult(attemptId: string, score: nat, total: nat)

  /**
   * POST /api/quiz/submit: 404 for an unknown quiz, with nothing stored;
   * otherwise the quiz's questions are graded in ascending `order`, one
   * attempt is stored and its id, score and total are returned.
   * `attemptId` is the key the store generates.
   */
  method Submit(store: QuizStore, quizId: string, answers: seq<Option<seq<int>>>, attemptId: string)
    returns (r: Reply<SubmitResult>)
    requires attemptId !in store.attempts
    modifies store
    ensures store.quizzes == old(store.quizzes)
    ensures quizId !in store.quizzes ==>
      r == Error(404, QuizNotFoundMessage) && store.attempts == old(store.attempts)
    ensures quizId in store.quizzes ==>
      var questions := OrderedRows(store.quizzes[quizId]);
      var verdicts := Verdicts(questions, answers);
      var score := CountCorrect(verdicts);
      && r == Ok(SubmitResult(attemptId, score, |questions|))
      && store.attempts == old(store.attempts)[attemptId := Attempt(quizId, score, |questions|, Stringify(verdicts))]
  {
    if quizId !in store.quizzes {
      return Error(404, QuizNotFoundMessage);
    }
    var quiz := store.quizzes[quizId];
    var questions := OrderedRows(quiz);
    var detailedAnswers, correctCount := Grade(questions, answers);
    var attempt := Attempt(quizId, correctCount, |questions|, Stringify(detailedAnswers));
    store.CreateAttempt(attemptId, attempt);
    assert store.quizzes[quizId] == quiz;
    assert detailedAnswers == Verdicts(OrderedRows(store.quizzes[quizId]), answers);
    assert correctCount == CountCorrect(Verdicts(OrderedRows(store.quizzes[quizId]), answers));
    assert store.attempts == old(store.attempts)[attemptId := attempt];
    r := Ok(SubmitResult(attemptId, correctCount, |questions|));
  }
}
