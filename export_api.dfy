/**
 * The export endpoint of app/api/admin/quiz/export/route.ts: a stored quiz
 * turned back into the payload shape the create and replace endpoints
 * accept, with its questions in their stored `order`.
 */
module ExportApi {
  import opened Wrappers
  import opened Json
  import opened Sorting
  import opened Auth
  import opened QuizData
  import opened AdminQuizApi

  /** One stored row in export form: its JSON columns parsed back. */
  function ExportQuestion(row: QuestionRow): QuestionData
  {
    QuestionData(row.questionText, row.questionType, Parse(row.options), Parse(row.correctAnswers))
  }

  /** The export form of a quiz: title, description and its rows in ascending `order`. */
  function ExportData(quiz: QuizRecord): (payload: QuizPayload)
    ensures payload.title == quiz.title && payload.description == quiz.description
    ensures |payload.questions| == |quiz.questions|
    ensures exists rows: seq<QuestionRow> ::
      && SortedBy(rows, RowOrder)
      && multiset(rows) == multiset(quiz.questions)
      && |rows| == |payload.questions|
      && forall i :: 0 <= i < |rows| ==> payload.questions[i] == ExportQuestion(rows[i])
  {
    var rows := OrderedRows(quiz);
    var payload := QuizPayload(quiz.title, quiz.description,
                               seq(|rows|, i requires 0 <= i < |rows| => ExportQuestion(rows[i])));
    assert forall i :: 0 <= i < |rows| ==> payload.questions[i] == ExportQuestion(rows[i]);
    payload
  }

  /**
   * GET: 401 without a valid token, 400 without an id, 404 when no quiz has
   * the id, otherwise the export form of the quiz.
   */
  function Export(quizzes: map<string, QuizRecord>, authHeader: Option<string>, validTokens: set<string>,
                  id: Option<string>)
    : (r: Reply<QuizPayload>)
    ensures !Authorized(authHeader, validTokens) ==> r == Error(401, UnauthorizedMessage)
    ensures Authorized(authHeader, validTokens) && MissingId(id) ==> r == Error(400, MissingIdMessage)
    ensures Authorized(authHeader, validTokens) && !MissingId(id) ==>
      if id.value in quizzes then r == Ok(ExportData(quizzes[id.value]))
      else r == Error(404, QuizNotFoundMessage)
  {
    var token := ExtractToken(authHeader);
    if token.None? || token.value == "" || token.value !in validTokens then Error(401, UnauthorizedMessage)
    else if id.None? || id.value == "" then Error(400, MissingIdMessage)
    else if id.value !in quizzes then Error(404, QuizNotFoundMessage)
    else Ok(ExportData(quizzes[id.value]))
  }

  /** Rows created from a question list export as that same list. */
  lemma ExportOfCreatedRows(quiz: QuizRecord, quizId: string, rowIds: seq<string>, questions: seq<QuestionData>)
    requires |rowIds| == |questions|
    requires quiz.questions == ToRows(quizId, rowIds, questions)
    ensures ExportData(quiz).questions == questions
  {
    ToRowsInOrder(quizId, rowIds, questions);
    SortByKeepsSorted(quiz.questions, RowOrder);
    var exported := ExportData(quiz).questions;
    assert |exported| == |questions|;
    forall i | 0 <= i < |questions|
      ensures exported[i] == questions[i]
    {
      assert exported[i] == ExportQuestion(quiz.questions[i]);
    }
  }

  /** Exporting a quiz right after creating it gives back the submitted payload. */
  lemma CreateThenExport(quizzes: map<string, QuizRecord>, authHeader: Option<string>, validTokens: set<string>,
                         body: QuizPayload, newId: string, rowIds: seq<string>, now: int)
    requires Authorized(authHeader, validTokens)
    requires newId != ""
    requires |rowIds| == |body.questions|
    ensures Export(quizzes[newId := NewQuiz(newId, rowIds, now, body)], authHeader, validTokens, Some(newId))
            == Ok(body)
  {
    ExportOfCreatedRows(NewQuiz(newId, rowIds, now, body), newId, rowIds, body.questions);
  }

  /**
   * Exporting a quiz right after replacing it gives back the submitted
   * title, description and questions: none of its earlier questions remain.
   */
  lemma PutThenExport(quizzes: map<string, QuizRecord>, authHeader: Option<string>, validTokens: set<string>,
                      body: UpdatePayload, rowIds: seq<string>)
    requires Authorized(authHeader, validTokens)
    requires body.id != "" && body.id in quizzes
    requires |rowIds| == |body.questions|
    ensures Export(quizzes[body.id := Replaced(quizzes[body.id], body, rowIds)], authHeader, validTokens, Some(body.id))
            == Ok(QuizPayload(body.title, body.description, body.questions))
  {
    ExportOfCreatedRows(Replaced(quizzes[body.id], body, rowIds), body.id, rowIds, body.questions);
  }
}
