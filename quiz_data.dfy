/**
 * The entities of the quiz application and the store that holds them.
 *
 * The relational store behind the application (quizzes, their question
 * rows, attempts) is represented by a QuizStore object with one map per
 * table; the handlers read and update its fields. Question rows are kept
 * inside their quiz's record, in the order they were created.
 */
module QuizData {
  import opened Wrappers
  import opened Json
  import opened Sorting

  datatype QuestionType = Single | Multiple | TrueFalse

  /**
   * A question as the editor holds it, as a create or replace request
   * carries it and as an export file lists it.
   */
  datatype QuestionData = QuestionData(
    questionText: string,
    questionType: QuestionType,
    options: seq<string>,
    correctAnswers: seq<int>)

  /** The body of a create request, and the shape of an exported quiz. */
  datatype QuizPayload = QuizPayload(
    title: string,
    description: Option<string>,
    questions: seq<QuestionData>)

  /** A stored question row: options and correct answers are kept as JSON text. */
  datatype QuestionRow = QuestionRow(
    id: string,
    quizId: string,
    questionText: string,
    questionType: QuestionType,
    options: Text<seq<string>>,
    correctAnswers: Text<seq<int>>,
    order: int)

  /** A stored quiz; `createdAt` is the creation time as an integer timestamp. */
  datatype QuizRecord = QuizRecord(
    title: string,
    description: Option<string>,
    createdAt: int,
    questions: seq<QuestionRow>)

  /** The per-question breakdown stored with an attempt. */
  datatype Verdict = Verdict(
    questionId: string,
    questionText: string,
    questionType: QuestionType,
    options: seq<string>,
    userAnswers: seq<int>,
    correctAnswers: seq<int>,
    isCorrect: bool)

  /** One graded submission. */
  datatype Attempt = Attempt(
    quizId: string,
    score: nat,
    totalQuestions: nat,
    answers: Text<seq<Verdict>>)

  /** A quiz as the admin list shows it, with its question and attempt counts. */
  datatype QuizSummary = QuizSummary(
    id: string,
    title: string,
    description: Option<string>,
    createdAt: int,
    questionCount: nat,
    attemptCount: nat)

  /** An HTTP answer: a JSON body with status 200, or `{ error: message }` with an error status. */
  datatype Reply<+T> = Ok(body: T) | Error(status: nat, message: string)

  const UnauthorizedMessage: string := "Unauthorized"
  const QuizNotFoundMessage: string := "Kvíz nem található"
  const MissingIdMessage: string := "Hiányzó kvíz ID"

  /** The sort key of `orderBy: { order: 'asc' }`. */
  function RowOrder(row: QuestionRow): int
  {
    row.order
  }

  /** A quiz's questions as the store returns them with `orderBy: { order: 'asc' }`. */
  function OrderedRows(quiz: QuizRecord): (rows: seq<QuestionRow>)
    ensures SortedBy(rows, RowOrder)
    ensures multiset(rows) == multiset(quiz.questions)
    ensures |rows| == |quiz.questions|
  {
    SortBySorts(quiz.questions, RowOrder);
    SortBy(quiz.questions, RowOrder)
  }

  class QuizStore {
    var quizzes: map<string, QuizRecord>
    var attempts: map<string, Attempt>

    constructor ()
      ensures quizzes == map[] && attempts == map[]
    {
      quizzes := map[];
      attempts := map[];
    }

    /** `quiz.create` with nested question rows; `id` is the freshly generated key. */
    method CreateQuiz(id: string, quiz: QuizRecord)
      requires id !in quizzes
      modifies this`quizzes
      ensures quizzes == old(quizzes)[id := quiz]
    {
      quizzes := quizzes[id := quiz];
    }

    /** `question.deleteMany({ where: { quizId } })`: the quiz loses all its question rows. */
    method DeleteQuestionsOf(quizId: string)
      modifies this`quizzes
      ensures quizId in old(quizzes) ==>
        quizzes == old(quizzes)[quizId := old(quizzes)[quizId].(questions := [])]
      ensures quizId !in old(quizzes) ==> quizzes == old(quizzes)
    {
      if quizId in quizzes {
        quizzes := quizzes[quizId := quizzes[quizId].(questions := [])];
      }
    }

    /**
     * `quiz.update` with new title and description and nested `create` of
     * rows, which are added to the quiz's existing rows. Fails (the store
     * throws) when the quiz does not exist.
     */
    method UpdateQuiz(id: string, title: string, description: Option<string>, rows: seq<QuestionRow>)
      returns (updated: Option<QuizRecord>)
      modifies this`quizzes
      ensures id !in old(quizzes) ==> updated == None && quizzes == old(quizzes)
      ensures id in old(quizzes) ==>
        var q := old(quizzes)[id];
        updated == Some(q.(title := title, description := description, questions := q.questions + rows))
        && quizzes == old(quizzes)[id := updated.value]
    {
      if id in quizzes {
        var q := quizzes[id];
        var u := q.(title := title, description := description, questions := q.questions + rows);
        quizzes := quizzes[id := u];
        updated := Some(u);
      } else {
        updated := None;
      }
    }

    /** `quiz.delete({ where: { id } })`: fails (the store throws) when there is no such quiz. */
    method DeleteQuiz(id: string) returns (deleted: bool)
      modifies this`quizzes
      ensures deleted == (id in old(quizzes))
      ensures quizzes == old(quizzes) - {id}
    {
      deleted := id in quizzes;
      quizzes := quizzes - {id};
    }

    /** `attempt.create`; `id` is the freshly generated key. */
    method CreateAttempt(id: string, attempt: Attempt)
      requires id !in attempts
      modifies this`attempts
      ensures attempts == old(attempts)[id := attempt]
    {
      attempts := attempts[id := attempt];
    }
  }
}
