/**
 * The quiz editor of app/admin/create/page.tsx: the component state (title,
 * description, question list), the operations its buttons and inputs call,
 * and the validation that runs before a quiz is sent for saving.
 */
module QuizEditor {
  import opened Wrappers
  import opened JsString
  import opened QuizData

  /** The question `addQuestion` appends: single choice, two empty options, no correct answer. */
  const BlankQuestion: QuestionData := QuestionData("", Single, ["", ""], [])

  /** The fixed options of a true/false question. */
  const TrueFalseOptions: seq<string> := ["Igaz", "Hamis"]

  /** `arr.filter((_, i) => i !== index)`: the sequence without the element at `index`. */
  function WithoutIndex<T>(s: seq<T>, index: int): (r: seq<T>)
    ensures 0 <= index < |s| ==> r == s[..index] + s[index + 1..]
    ensures !(0 <= index < |s|) ==> r == s
  {
    if s == [] then []
    else (if index == 0 then [] else [s[0]]) + WithoutIndex(s[1..], index - 1)
  }

  /** `arr.filter(i => i !== v)`: the sequence without any occurrence of `v`. */
  function WithoutValue(s: seq<int>, v: int): (r: seq<int>)
    ensures multiset(r) == multiset(s)[v := 0]
  {
    if s == [] then []
    else
      var rest := WithoutValue(s[1..], v);
      assert s == [s[0]] + s[1..];
      (if s[0] == v then [] else [s[0]]) + rest
  }

  /** Dropping a value that is not there changes nothing. */
  lemma {:induction false} WithoutAbsentValue(s: seq<int>, v: int)
    requires v !in s
    ensures WithoutValue(s, v) == s
  {
    if s != [] {
      WithoutAbsentValue(s[1..], v);
    }
  }

  /** `.map(i => (i > o ? i - 1 : i))`: indices after a removed option move down by one. */
  function ShiftedDown(s: seq<int>, o: int): (r: seq<int>)
    ensures |r| == |s|
  {
    seq(|s|, k requires 0 <= k < |s| => if s[k] > o then s[k] - 1 else s[k])
  }

  /** Where option `k` ends up once option `o` is removed. */
  function NewIndex(k: int, o: int): int
  {
    if k > o then k - 1 else k
  }

  /** The correct answers after option `o` is removed. */
  function AnswersWithoutOption(answers: seq<int>, o: int): seq<int>
  {
    ShiftedDown(WithoutValue(answers, o), o)
  }

  /** A question with option `o` removed and its correct answers re-indexed. */
  function WithoutOption(q: QuestionData, o: int): QuestionData
  {
    q.(options := WithoutIndex(q.options, o), correctAnswers := AnswersWithoutOption(q.correctAnswers, o))
  }

  /**
   * Removing option `o`: every other option keeps its correctness under its
   * new index, and option `o`'s index no longer counts as correct unless the
   * option that moved into it was correct.
   */
  lemma RemoveOptionTracksOptions(q: QuestionData, o: int)
    requires 0 <= o < |q.options|
    ensures var r := WithoutOption(q, o);
      && |r.options| == |q.options| - 1
      && forall k :: 0 <= k < |q.options| && k != o ==>
           && r.options[NewIndex(k, o)] == q.options[k]
           && (NewIndex(k, o) in r.correctAnswers <==> k in q.correctAnswers)
  {
    var kept := WithoutValue(q.correctAnswers, o);
    var r := WithoutOption(q, o);
    assert r.correctAnswers == ShiftedDown(kept, o);
    assert r.options == q.options[..o] + q.options[o + 1..];
    forall k | 0 <= k < |q.options| && k != o
      ensures r.options[NewIndex(k, o)] == q.options[k]
      ensures NewIndex(k, o) in r.correctAnswers <==> k in q.correctAnswers
    {
      if k in q.correctAnswers {
        assert multiset(kept)[k] == multiset(q.correctAnswers)[k] > 0;
        var m :| 0 <= m < |kept| && kept[m] == k;
        assert r.correctAnswers[m] == NewIndex(k, o);
      }
      if NewIndex(k, o) in r.correctAnswers {
        var m :| 0 <= m < |kept| && r.correctAnswers[m] == NewIndex(k, o);
        assert multiset(kept)[kept[m]] > 0;
        assert kept[m] != o;
        assert kept[m] == k;
        assert multiset(q.correctAnswers)[k] > 0;
      }
    }
  }

  /** Correct indices that were within the options stay within the options after a removal. */
  lemma RemoveOptionKeepsRange(q: QuestionData, o: int)
    requires 0 <= o < |q.options|
    requires forall x :: x in q.correctAnswers ==> 0 <= x < |q.options|
    ensures forall x :: x in WithoutOption(q, o).correctAnswers ==> 0 <= x < |q.options| - 1
  {
    var kept := WithoutValue(q.correctAnswers, o);
    var r := WithoutOption(q, o).correctAnswers;
    forall x | x in r
      ensures 0 <= x < |q.options| - 1
    {
      var m :| 0 <= m < |r| && r[m] == x;
      assert multiset(kept)[kept[m]] > 0;
      assert kept[m] != o && kept[m] in multiset(q.correctAnswers);
      assert r == ShiftedDown(kept, o);
      assert x == NewIndex(kept[m], o);
      assert kept[m] in q.correctAnswers;
    }
  }

  /**
   * `toggleCorrectAnswer`: a question that is not multiple choice gets exactly
   * `[o]`; a multiple-choice one drops `o` if it is there and appends it otherwise.
   */
  function Toggled(q: QuestionData, o: int): (answers: seq<int>)
    ensures q.questionType != Multiple ==> answers == [o]
    ensures q.questionType == Multiple ==> (o in answers <==> o !in q.correctAnswers)
    ensures q.questionType == Multiple ==>
      forall x :: x != o ==> multiset(answers)[x] == multiset(q.correctAnswers)[x]
  {
    if q.questionType != Multiple then [o]
    else if o in q.correctAnswers then
      var dropped := WithoutValue(q.correctAnswers, o);
      assert o !in multiset(dropped);
      dropped
    else
      assert multiset(q.correctAnswers + [o]) == multiset(q.correctAnswers) + multiset{o};
      q.correctAnswers + [o]
  }

  /** Toggling an unmarked option of a multiple-choice question twice restores its answers. */
  lemma ToggleTwiceRestores(q: QuestionData, o: int)
    requires q.questionType == Multiple
    requires o !in q.correctAnswers
    ensures Toggled(q.(correctAnswers := Toggled(q, o)), o) == q.correctAnswers
  {
    WithoutAbsentValue(q.correctAnswers, o);
    WithoutValueOfAppended(q.correctAnswers, o);
  }

  /** Appending `v` and dropping every `v` is dropping every `v`. */
  lemma {:induction false} WithoutValueOfAppended(s: seq<int>, v: int)
    ensures WithoutValue(s + [v], v) == WithoutValue(s, v)
  {
    if s == [] {
      assert [] + [v] == [v];
    } else {
      assert (s + [v])[1..] == s[1..] + [v];
      WithoutValueOfAppended(s[1..], v);
    }
  }

  /** `changeQuestionType`: a true/false question gets the fixed options and no correct answer. */
  function WithType(q: QuestionData, t: QuestionType): (r: QuestionData)
    ensures r.questionType == t && r.questionText == q.questionText
    ensures t == TrueFalse ==> r.options == TrueFalseOptions && r.correctAnswers == []
    ensures t != TrueFalse ==> r.options == q.options && r.correctAnswers == q.correctAnswers
  {
    var typed := q.(questionType := t);
    if t == TrueFalse then typed.(options := TrueFalseOptions, correctAnswers := []) else typed
  }

  /** The field and value of an `updateQuestion` call. */
  datatype FieldUpdate =
    | SetText(text: string)
    | SetType(questionType: QuestionType)
    | SetOptions(options: seq<string>)
    | SetCorrectAnswers(correctAnswers: seq<int>)

  /** `{ ...question, [field]: value }`. */
  function WithField(q: QuestionData, update: FieldUpdate): QuestionData
  {
    match update
    case SetText(text) => q.(questionText := text)
    case SetType(t) => q.(questionType := t)
    case SetOptions(options) => q.(options := options)
    case SetCorrectAnswers(answers) => q.(correctAnswers := answers)
  }

  /** What stops a question from being saved, in the order the checks run. */
  datatype Problem = EmptyText | BlankOption | NoCorrectAnswer

  /** Why a save is refused; `InQuestion` carries the 1-based question number of the message. */
  datatype SaveError = EmptyTitle | NoQuestions | InQuestion(number: nat, problem: Problem)

  /** The first problem of one question: its text, then its options, then its correct answers. */
  function QuestionProblem(q: QuestionData): Option<Problem>
  {
    if Blank(q.questionText) then Some(EmptyText)
    else if exists o :: o in q.options && Blank(o) then Some(BlankOption)
    else if |q.correctAnswers| == 0 then Some(NoCorrectAnswer)
    else None
  }

  /** A question passes exactly when it has text, no blank option and a correct answer. */
  lemma QuestionProblemNoneIff(q: QuestionData)
    ensures QuestionProblem(q) == None <==>
      !Blank(q.questionText) && (forall o :: o in q.options ==> !Blank(o)) && |q.correctAnswers| > 0
  {
  }

  /** The first question, from index `i` on, that has a problem. */
  function FirstProblemFrom(questions: seq<QuestionData>, i: nat): Option<SaveError>
    decreases |questions| - i
  {
    if i >= |questions| then None
    else if QuestionProblem(questions[i]).Some? then Some(InQuestion(i + 1, QuestionProblem(questions[i]).value))
    else FirstProblemFrom(questions, i + 1)
  }

  /** The save checks of `handleSave`, first failure wins. */
  function SaveCheck(title: string, questions: seq<QuestionData>): Option<SaveError>
  {
    if Blank(title) then Some(EmptyTitle)
    else if |questions| == 0 then Some(NoQuestions)
    else FirstProblemFrom(questions, 0)
  }

  /** A question scan that finds nothing means every question from `i` on is fine, and conversely. */
  lemma {:induction false} FirstProblemFromNone(questions: seq<QuestionData>, i: nat)
    ensures FirstProblemFrom(questions, i) == None <==>
      forall k :: i <= k < |questions| ==> QuestionProblem(questions[k]) == None
    decreases |questions| - i
  {
    if i < |questions| {
      FirstProblemFromNone(questions, i + 1);
    }
  }

  /** A question scan that reports question `n` found the first question with a problem. */
  lemma {:induction false} FirstProblemFromSome(questions: seq<QuestionData>, i: nat, n: nat, p: Problem)
    requires FirstProblemFrom(questions, i) == Some(InQuestion(n, p))
    ensures i + 1 <= n <= |questions|
    ensures QuestionProblem(questions[n - 1]) == Some(p)
    ensures forall k :: i <= k < n - 1 ==> QuestionProblem(questions[k]) == None
    decreases |questions| - i
  {
    if QuestionProblem(questions[i]).None? {
      FirstProblemFromSome(questions, i + 1, n, p);
    }
  }

  /**
   * A save goes through exactly when the trimmed title is not empty, there is
   * a question, and every question has text, no blank option and a correct answer.
   */
  lemma SaveAcceptedIff(title: string, questions: seq<QuestionData>)
    ensures SaveCheck(title, questions) == None <==>
      && !Blank(title)
      && |questions| > 0
      && forall k :: 0 <= k < |questions| ==> QuestionProblem(questions[k]) == None
  {
    FirstProblemFromNone(questions, 0);
  }

  /** A refusal that names question `n` comes after the title and count checks passed and every earlier question was fine. */
  lemma SaveReportsFirstFailure(title: string, questions: seq<QuestionData>, n: nat, p: Problem)
    requires SaveCheck(title, questions) == Some(InQuestion(n, p))
    ensures !Blank(title) && |questions| > 0
    ensures 1 <= n <= |questions| && QuestionProblem(questions[n - 1]) == Some(p)
    ensures forall k :: 0 <= k < n - 1 ==> QuestionProblem(questions[k]) == None
  {
    FirstProblemFromSome(questions, 0, n, p);
  }

  /** The component state of the editor page. */
  class Editor {
    var title: string
    var description: string
    var questions: seq<QuestionData>

    constructor()
      ensures title == "" && description == "" && questions == []
    {
      title := "";
      description := "";
      questions := [];
    }

    /** `addQuestion`: one blank question at the end. */
    method AddQuestion()
      modifies this`questions
      ensures questions == old(questions) + [BlankQuestion]
    {
      questions := questions + [BlankQuestion];
    }

    /** `removeQuestion`: the question at `index` goes, the rest keep their order. */
    method RemoveQuestion(index: int)
      modifies this`questions
      ensures questions == WithoutIndex(old(questions), index)
    {
      questions := WithoutIndex(questions, index);
    }

    /** `updateQuestion`: one field of the question at `index` takes a new value. */
    method UpdateQuestion(index: int, update: FieldUpdate)
      requires 0 <= index < |questions|
      modifies this`questions
      ensures questions == old(questions)[index := WithField(old(questions)[index], update)]
    {
      questions := questions[index := WithField(questions[index], update)];
    }

    /** `addOption`: an empty option at the end of question `q`'s options. */
    method AddOption(q: int)
      requires 0 <= q < |questions|
      modifies this`questions
      ensures questions == old(questions)[q := old(questions)[q].(options := old(questions)[q].options + [""])]
    {
      var question := questions[q];
      questions := questions[q := question.(options := question.options + [""])];
    }

    /**
     * `removeOption`: option `o` of question `q` goes and the correct answers
     * follow the options. The page offers it only on questions that are not
     * true/false and have more than two options.
     */
    method RemoveOption(q: int, o: int)
      requires 0 <= q < |questions|
      requires questions[q].questionType != TrueFalse && |questions[q].options| > 2
      requires 0 <= o < |questions[q].options|
      modifies this`questions
      ensures questions == old(questions)[q := WithoutOption(old(questions)[q], o)]
    {
      var question := questions[q];
      var options := WithoutIndex(question.options, o);
      var answers := ShiftedDown(WithoutValue(question.correctAnswers, o), o);
      questions := questions[q := question.(options := options, correctAnswers := answers)];
    }

    /** `updateOption`: option `o` of question `q` takes the new text. */
    method UpdateOption(q: int, o: int, value: string)
      requires 0 <= q < |questions|
      requires 0 <= o < |questions[q].options|
      modifies this`questions
      ensures questions == old(questions)[q := old(questions)[q].(options := old(questions)[q].options[o := value])]
    {
      var question := questions[q];
      questions := questions[q := question.(options := question.options[o := value])];
    }

    /** `toggleCorrectAnswer` on option `o` of question `q`. */
    method ToggleCorrectAnswer(q: int, o: int)
      requires 0 <= q < |questions|
      modifies this`questions
      ensures questions == old(questions)[q := old(questions)[q].(correctAnswers := Toggled(old(questions)[q], o))]
    {
      var question := questions[q];
      var answers: seq<int>;
      if question.questionType != Multiple {
        answers := [o];
      } else if o in question.correctAnswers {
        answers := WithoutValue(question.correctAnswers, o);
      } else {
        answers := question.correctAnswers + [o];
      }
      questions := questions[q := question.(correctAnswers := answers)];
    }

    /** `changeQuestionType` of question `q`. */
    method ChangeQuestionType(q: int, t: QuestionType)
      requires 0 <= q < |questions|
      modifies this`questions
      ensures questions == old(questions)[q := WithType(old(questions)[q], t)]
    {
      var question := questions[q].(questionType := t);
      if t == TrueFalse {
        question := question.(options := TrueFalseOptions, correctAnswers := []);
      }
      questions := questions[q := question];
    }

    /**
     * The checks of `handleSave`, in order, stopping at the first failure;
     * when all pass, the body sent to the create endpoint.
     */
    method HandleSave() returns (r: Result<QuizPayload, SaveError>)
      ensures SaveCheck(title, questions).Some? ==> r == Failure(SaveCheck(title, questions).value)
      ensures SaveCheck(title, questions).None? ==> r == Success(QuizPayload(title, Some(description), questions))
    {
      if Blank(title) {
        return Failure(EmptyTitle);
      }
      if |questions| == 0 {
        return Failure(NoQuestions);
      }
      var i := 0;
      while i < |questions|
        invariant 0 <= i <= |questions|
        invariant FirstProblemFrom(questions, i) == FirstProblemFrom(questions, 0)
      {
        var q := questions[i];
        if Blank(q.questionText) {
          return Failure(InQuestion(i + 1, EmptyText));
        }
        if exists o :: o in q.options && Blank(o) {
          return Failure(InQuestion(i + 1, BlankOption));
        }
        if |q.correctAnswers| == 0 {
          return Failure(InQuestion(i + 1, NoCorrectAnswer));
        }
        i := i + 1;
      }
      r := Success(QuizPayload(title, Some(description), questions));
    }
  }
}
