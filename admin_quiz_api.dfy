/**
 * The admin quiz endpoints of app/api/admin/quiz/route.ts: list (GET),
 * create (POST), delete (DELETE) and replace (PUT). Every handler first
 * runs the bearer-token guard and answers 401 without touching the store
 * when it fails.
 */
module AdminQuizApi {
  import opened Wrappers
  import opened Json
  import opened Sorting
  import opened Auth
  import opened QuizData

  /** The body of a replace request. */
  datatype UpdatePayload = UpdatePayload(
    id: string,
    title: string,
    description: Option<string>,
    questions: seq<QuestionData>)

  /** A stored quiz together with its key, as the create and replace handlers return it. */
  datatype StoredQuiz = StoredQuiz(id: string, quiz: QuizRecord)

  const DeleteFailedMessage: string := "Hiba a kvíz törlésekor"
  const UpdateFailedMessage: string := "Hiba a kvíz frissítésekor"

  /**
   * `questions.map((q, index) => ({ ..., order: index }))`: one row per
   * submitted question, with options and correct answers stored as JSON text
   * and `order` set to the question's position. `rowIds` are the keys the
   * store generates for the new rows.
   */
  function ToRows(quizId: string, rowIds: seq<string>, questions: seq<QuestionData>): (rows: seq<QuestionRow>)
    requires |rowIds| == |questions|
    ensures |rows| == |questions|
    ensures forall i :: 0 <= i < |rows| ==>
      && rows[i].order == i
      && rows[i].quizId == quizId
      && rows[i].questionText == questions[i].questionText
      && rows[i].questionType == questions[i].questionType
      && Parse(rows[i].options) == questions[i].options
      && Parse(rows[i].correctAnswers) == questions[i].correctAnswers
  {
    seq(|questions|, i requires 0 <= i < |questions| =>
      QuestionRow(rowIds[i], quizId, questions[i].questionText, questions[i].questionType,
                  Stringify(questions[i].options), Stringify(questions[i].correctAnswers), i))
  }

  /** Rows created from a question list are already in ascending `order`. */
  lemma ToRowsInOrder(quizId: string, rowIds: seq<string>, questions: seq<QuestionData>)
    requires |rowIds| == |questions|
    ensures SortedBy(ToRows(quizId, rowIds, questions), RowOrder)
  {
    var rows := ToRows(quizId, rowIds, questions);
    forall i, j | 0 <= i < j < |rows|
      ensures RowOrder(rows[i]) <= RowOrder(rows[j])
    {
    }
  }

  /** The quiz the create handler stores. */
  function NewQuiz(quizId: string, rowIds: seq<string>, createdAt: int, body: QuizPayload): QuizRecord
    requires |rowIds| == |body.questions|
  {
    QuizRecord(body.title, body.description, createdAt, ToRows(quizId, rowIds, body.questions))
  }

  /**
   * The quiz after a replace: new title and description, and only the rows
   * created from the submitted questions; its creation time is kept.
   */
  function Replaced(oldQuiz: QuizRecord, body: UpdatePayload, rowIds: seq<string>): (q: QuizRecord)
    requires |rowIds| == |body.questions|
    ensures q.createdAt == oldQuiz.createdAt
    ensures q.questions == ToRows(body.id, rowIds, body.questions)
  {
    // deleteMany leaves the quiz with no rows; the update's nested create then adds the new ones
    var emptied := oldQuiz.(questions := []);
    emptied.(title := body.title, description := body.description,
             questions := emptied.questions + ToRows(body.id, rowIds, body.questions))
  }

  /** How many attempts refer to the quiz. */
  function AttemptCount(attempts: map<string, Attempt>, quizId: string): nat
  {
    |set a | a in attempts && attempts[a].quizId == quizId|
  }

  /** A new attempt on quiz `a.quizId` adds one to that quiz's attempt count and leaves every other count as it was. */
  lemma NewAttemptCounted(attempts: map<string, Attempt>, attemptId: string, a: Attempt, quizId: string)
    requires attemptId !in attempts
    ensures AttemptCount(attempts[attemptId := a], quizId) ==
      AttemptCount(attempts, quizId) + (if a.quizId == quizId then 1 else 0)
  {
    var updated := attempts[attemptId := a];
    var before := set x | x in attempts && attempts[x].quizId == quizId;
    var after := set x | x in updated && updated[x].quizId == quizId;
    if a.quizId == quizId {
      assert after == before + {attemptId};
    } else {
      assert after == before;
    }
  }

  /** A quiz with `_count` of its questions and attempts. */
  function Summarize(id: string, quiz: QuizRecord, attempts: map<string, Attempt>): (s: QuizSummary)
    ensures s.id == id
  {
    QuizSummary(id, quiz.title, quiz.description, quiz.createdAt, |quiz.questions|, AttemptCount(attempts, id))
  }

  /** The sort key of `orderBy: { createdAt: 'desc' }`. */
  function NewestFirst(s: QuizSummary): int
  {
    -s.createdAt
  }

  /** The keys of the quizzes a listing shows. */
  function Ids(list: seq<QuizSummary>): set<string>
  {
    set s | s in list :: s.id
  }

  /** The summaries of the quizzes with the given keys, in no particular order. */
  ghost function SummariesOf(ids: set<string>, quizzes: map<string, QuizRecord>, attempts: map<string, Attempt>)
    : seq<QuizSummary>
    requires ids <= quizzes.Keys
    decreases ids
  {
    if ids == {} then []
    else
      var id :| id in ids;
      [Summarize(id, quizzes[id], attempts)] + SummariesOf(ids - {id}, quizzes, attempts)
  }

  /** The unordered summaries: one per key, each the summary of its own quiz. */
  lemma {:induction false} SummariesOfEachOnce(ids: set<string>, quizzes: map<string, QuizRecord>,
                                               attempts: map<string, Attempt>)
    requires ids <= quizzes.Keys
    ensures var list := SummariesOf(ids, quizzes, attempts);
      && |list| == |ids|
      && Ids(list) == ids
      && forall s :: s in list ==> s.id in quizzes && s == Summarize(s.id, quizzes[s.id], attempts)
    decreases ids
  {
    var list := SummariesOf(ids, quizzes, attempts);
    if ids != {} {
      var id := list[0].id;
      var rest := SummariesOf(ids - {id}, quizzes, attempts);
      assert id in ids && list == [Summarize(id, quizzes[id], attempts)] + rest;
      SummariesOfEachOnce(ids - {id}, quizzes, attempts);
      assert forall s :: s in list <==> s == list[0] || s in rest;
      assert Ids(list) == {id} + Ids(rest);
      assert |ids| == |ids - {id}| + 1;
    }
  }

  /**
   * `quiz.findMany({ include: _count, orderBy: { createdAt: 'desc' } })`.
   * Quizzes created at the same time come in an order the store chooses.
   */
  ghost function Listing(quizzes: map<string, QuizRecord>, attempts: map<string, Attempt>): seq<QuizSummary>
  {
    SortBy(SummariesOf(quizzes.Keys, quizzes, attempts), NewestFirst)
  }

  /** The listing shows every quiz exactly once, with its counts, newest first. */
  lemma ListingIsNewestFirst(quizzes: map<string, QuizRecord>, attempts: map<string, Attempt>)
    ensures var list := Listing(quizzes, attempts);
      && SortedBy(list, NewestFirst)
      && |list| == |quizzes|
      && Ids(list) == quizzes.Keys
      && forall s :: s in list ==> s.id in quizzes && s == Summarize(s.id, quizzes[s.id], attempts)
  {
    var unordered := SummariesOf(quizzes.Keys, quizzes, attempts);
    SummariesOfEachOnce(quizzes.Keys, quizzes, attempts);
    SortBySorts(unordered, NewestFirst);
    SortByKeepsElements(unordered, NewestFirst);
    assert Ids(Listing(quizzes, attempts)) == Ids(unordered);
    assert |quizzes.Keys| == |quizzes|;
  }

  /** GET: 401 without a valid token, otherwise the listing. */
  ghost function Get(authHeader: Option<string>, validTokens: set<string>,
                     quizzes: map<string, QuizRecord>, attempts: map<string, Attempt>)
    : (r: Reply<seq<QuizSummary>>)
    ensures !Authorized(authHeader, validTokens) ==> r == Error(401, UnauthorizedMessage)
    ensures Authorized(authHeader, validTokens) ==>
      r.Ok? && SortedBy(r.body, NewestFirst) && Ids(r.body) == quizzes.Keys && |r.body| == |quizzes|
  {
    if !Authorized(authHeader, validTokens) then Error(401, UnauthorizedMessage)
    else
      ListingIsNewestFirst(quizzes, attempts);
      Ok(Listing(quizzes, attempts))
  }

  /**
   * POST: 401 without a valid token; otherwise the quiz and its rows are
   * created. `newId`, `rowIds` and `now` are what the store generates.
   */
  method Post(store: QuizStore, authHeader: Option<string>, validTokens: set<string>, body: QuizPayload,
              newId: string, rowIds: seq<string>, now: int)
    returns (r: Reply<StoredQuiz>)
    requires newId !in store.quizzes
    requires |rowIds| == |body.questions|
    modifies store
    ensures store.attempts == old(store.attempts)
    ensures !Authorized(authHeader, validTokens) ==>
      r == Error(401, UnauthorizedMessage) && store.quizzes == old(store.quizzes)
    ensures Authorized(authHeader, validTokens) ==>
      && r == Ok(StoredQuiz(newId, NewQuiz(newId, rowIds, now, body)))
      && store.quizzes == old(store.quizzes)[newId := NewQuiz(newId, rowIds, now, body)]
  {
    var token := ExtractToken(authHeader);
    if token.None? || token.value == "" || token.value !in validTokens {
      return Error(401, UnauthorizedMessage);
    }
    var quiz := QuizRecord(body.title, body.description, now, ToRows(newId, rowIds, body.questions));
    store.CreateQuiz(newId, quiz);
    r := Ok(StoredQuiz(newId, quiz));
  }

  /**
   * DELETE: 401 without a valid token, 400 without an id, an error when the
   * store has no such quiz (the store throws), otherwise the quiz and its
   * rows are gone.
   */
  method Delete(store: QuizStore, authHeader: Option<string>, validTokens: set<string>, id: Option<string>)
    returns (r: Reply<bool>)
    modifies store
    ensures store.attempts == old(store.attempts)
    ensures !Authorized(authHeader, validTokens) ==>
      r == Error(401, UnauthorizedMessage) && store.quizzes == old(store.quizzes)
    ensures Authorized(authHeader, validTokens) && MissingId(id) ==>
      r == Error(400, MissingIdMessage) && store.quizzes == old(store.quizzes)
    ensures Authorized(authHeader, validTokens) && !MissingId(id) ==>
      && store.quizzes == old(store.quizzes) - {id.value}
      && r == (if id.value in old(store.quizzes) then Ok(true) else Error(500, DeleteFailedMessage))
  {
    var token := ExtractToken(authHeader);
    if token.None? || token.value == "" || token.value !in validTokens {
      return Error(401, UnauthorizedMessage);
    }
    if id.None? || id.value == "" {
      return Error(400, MissingIdMessage);
    }
    var deleted := store.DeleteQuiz(id.value);
    if !deleted {
      return Error(500, DeleteFailedMessage);
    }
    r := Ok(true);
  }

  /**
   * PUT: 401 without a valid token; otherwise every row of the quiz is
   * deleted, then the quiz is updated with the new title, description and
   * rows. When there is no such quiz the update fails (the store throws)
   * and nothing has changed.
   */
  method Put(store: QuizStore, authHeader: Option<string>, validTokens: set<string>, body: UpdatePayload,
             rowIds: seq<string>)
    returns (r: Reply<StoredQuiz>)
    requires |rowIds| == |body.questions|
    modifies store
    ensures store.attempts == old(store.attempts)
    ensures !Authorized(authHeader, validTokens) ==>
      r == Error(401, UnauthorizedMessage) && store.quizzes == old(store.quizzes)
    ensures Authorized(authHeader, validTokens) && body.id !in old(store.quizzes) ==>
      r == Error(500, UpdateFailedMessage) && store.quizzes == old(store.quizzes)
    ensures Authorized(authHeader, validTokens) && body.id in old(store.quizzes) ==>
      var quiz := Replaced(old(store.quizzes)[body.id], body, rowIds);
      r == Ok(StoredQuiz(body.id, quiz)) && store.quizzes == old(store.quizzes)[body.id := quiz]
  {
    var token := ExtractToken(authHeader);
    if token.None? || token.value == "" || token.value !in validTokens {
      return Error(401, UnauthorizedMessage);
    }
    store.DeleteQuestionsOf(body.id);
    var updated := store.UpdateQuiz(body.id, body.title, body.description, ToRows(body.id, rowIds, body.questions));
    if updated.None? {
      return Error(500, UpdateFailedMessage);
    }
    r := Ok(StoredQuiz(body.id, updated.value));
  }
}
