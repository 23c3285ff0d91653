# QuizNode quiz core in Dafny

QuizNode is a quiz application. An administrator builds quizzes in an
editor. The quizzes are stored as a quiz record with one row per question,
and each row keeps its options and correct answer indices as JSON text.
Players submit answer indices and get graded. This project models the parts
of QuizNode that hold its rules:

- **Grading** (`grading.dfy`). The submit endpoint walks a quiz's questions
  in ascending `order`. An absent answer entry counts as no selection. A
  question is correct when the sorted copies of the stored and the submitted
  indices are equal element by element. The endpoint counts the correct
  questions and stores the verdicts as a new attempt.
- **The admin quiz endpoints** (`admin_quiz_api.dfy`): list, create,
  replace and delete, each behind the bearer-token guard. Create and replace
  turn the submitted questions into rows whose `order` is their position.
  Replace deletes every old row first.
- **Export** (`export_api.dfy`). It runs the guards in the order
  401 → 400 → 404, then projects the quiz's rows, in ascending `order`,
  back to the payload shape. It is proved to invert create and replace.
- **The quiz editor** (`quiz_editor.dfy`): its component state, the
  question and option operations, and the first-failure-wins save
  validation.
- **The dashboard** (`dashboard.dfy`): the export file name and the list
  update after a delete.
- **The password form** (`settings.dfy`): its two checks and how its fields
  change.
- **Supporting modules:**
  - `extractToken` and the admin guard (`auth.dfy`).
  - JavaScript's `trim` (`js_string.dfy`).
  - A stable sort by integer key, used for `orderBy` and
    `sort((a, b) => a - b)` (`sorting.dfy`).
  - JSON text as an encode/decode pair (`json.dfy`).
  - The entities and the store (`quiz_data.dfy`).

The database is a `QuizStore` object with two maps, one for quizzes and one
for attempts, that the handlers update. These values are parameters:

- the keys and timestamps the database generates;
- the set of tokens the JWT check accepts;
- the user's answer to the confirmation dialog;
- the outcome of each request the pages send.

## Model

| member | source | states |
|---|---|---|
| Auth.ExtractToken | lib/auth.ts:26-31 | No token exactly when the header is missing or does not start with the case-sensitive "Bearer ". Otherwise the header is "Bearer " + token, so the token is 7 characters shorter than the header |
| Auth.ExtractTokenOfBearer | lib/auth.ts:30 | The header "Bearer " + t yields exactly t |
| Auth.AuthorizedIff | app/api/admin/quiz/route.ts:9-15 | The admin guard lets a request through exactly when its header is "Bearer " followed by a non-empty token that verifyToken accepts |
| Auth.BareBearerRefused | app/api/admin/quiz/route.ts:10 | The bare header "Bearer " gives the empty token, not a missing one, and `!token` still refuses it |
| Json.Stringify | app/api/admin/quiz/route.ts:63-64 | Parsing stringified JSON gives the value back |
| Sorting.SortBySorts | app/api/quiz/submit/route.ts:32-33 | The sort's result is in ascending key order and is a permutation of its input |
| Sorting.SortByKeepsSorted | app/api/admin/quiz/export/route.ts:29-31 | A sequence that is already in key order comes back unchanged |
| Sorting.SortByIsStable | app/api/quiz/submit/route.ts:32-33 | The sort is stable: for every key, the elements with that key come out in their input order |
| Sorting.SortByKeepsElements | app/api/admin/quiz/route.ts:26-28 | Sorting neither adds nor loses an element |
| Sorting.SortedPermutationsEqual | app/api/quiz/submit/route.ts:32-37 | Two ascending sequences that hold the same elements, each as often, are equal |
| JsString.TrimStartIsSuffix | app/admin/create/page.tsx:93 | Trimming the start keeps a suffix, removes only white space, and stops at the first other character |
| JsString.TrimEndIsPrefix | app/admin/create/page.tsx:93 | Trimming the end keeps a prefix, removes only white space, and stops at the last other character |
| JsString.TrimIsMiddle | app/admin/create/page.tsx:98-99 | `trim` keeps a slice with only white space cut from either side, and no white space at its ends |
| JsString.BlankIffAllWhitespace | app/admin/create/page.tsx:93 | `!s.trim()` holds exactly when every character of s is white space |
| QuizData.OrderedRows | app/api/admin/quiz/export/route.ts:26-33 | A quiz's rows as the store returns them: in ascending `order`, a permutation of the stored rows |
| QuizData.QuizStore.CreateQuiz | app/api/admin/quiz/route.ts:55-72 | The new quiz is stored under its fresh key and nothing else changes |
| QuizData.QuizStore.DeleteQuestionsOf | app/api/admin/quiz/route.ts:135-137 | The quiz loses all its rows. A key with no quiz changes nothing |
| QuizData.QuizStore.UpdateQuiz | app/api/admin/quiz/route.ts:140-158 | Title and description are replaced and the nested create appends the new rows. A missing quiz is a failure and changes nothing |
| QuizData.QuizStore.DeleteQuiz | app/api/admin/quiz/route.ts:106-108 | The quiz is gone, and deletion reports failure exactly when there was no such quiz |
| QuizData.QuizStore.CreateAttempt | app/api/quiz/submit/route.ts:53-60 | The attempt is stored under its fresh key and nothing else changes |
| Grading.EveryMatchesIsEquality | app/api/quiz/submit/route.ts:37 | For sequences of equal length, `every(val === other[idx])` holds exactly when they are equal |
| Grading.IsCorrectIffSameMultiset | app/api/quiz/submit/route.ts:32-37 | A question is graded correct exactly when the submission holds the same indices, each as often, as the stored answer |
| Grading.GradeIgnoresOrder | app/api/quiz/submit/route.ts:32-37 | Reordering a submission never changes its grade |
| Grading.NoPartialCredit | app/api/quiz/submit/route.ts:35-37 | A strict sub-multiset or super-multiset of the correct indices is wrong |
| Grading.DuplicatesMatter | app/api/quiz/submit/route.ts:35-37 | [0, 0] does not match the answer [0] |
| Grading.JudgeIsExact | app/api/quiz/submit/route.ts:41-49 | A verdict echoes the question's id, text, type and options, plus both index lists unsorted. It is correct exactly when the two lists hold the same indices, each as often |
| Grading.VerdictsPerQuestion | app/api/quiz/submit/route.ts:27-29 | Verdict i judges question i against answer entry i |
| Grading.CountCorrectExtremes | app/api/quiz/submit/route.ts:26-39 | The score is full exactly when every verdict is correct, and zero exactly when none is |
| Grading.CountCorrectAppend | app/api/quiz/submit/route.ts:39 | A further verdict raises the count by one exactly when it is correct |
| Grading.Grade | app/api/quiz/submit/route.ts:26-50 | The loop builds one verdict per question, in order, and a count of the correct ones that never exceeds the number of questions |
| Grading.MissingAnswerGradedEmpty | app/api/quiz/submit/route.ts:29 | An absent answer entry is graded as []. It is correct only when the stored answer is empty, and it still has its verdict |
| Grading.ExtraAnswersIgnored | app/api/quiz/submit/route.ts:27-29 | Answer entries beyond the last question are never read |
| Grading.Submit | app/api/quiz/submit/route.ts:9-66 | An unknown quiz gives 404 and stores nothing. Otherwise one attempt holds the score, the total and the encoded verdicts, and the reply carries its key, score and total |
| AdminQuizApi.ToRows | app/api/admin/quiz/route.ts:60-66 | One row per submitted question. Row i has `order` i, the quiz's key, the question's text and type, and JSON columns that decode to its options and correct answers |
| AdminQuizApi.ToRowsInOrder | app/api/admin/quiz/route.ts:146-152 | Rows created from a question list are already in ascending `order` |
| AdminQuizApi.Replaced | app/api/admin/quiz/route.ts:135-153 | After a replace, the quiz's rows are exactly those created from the submitted questions, and its creation time is kept |
| AdminQuizApi.NewAttemptCounted | app/api/admin/quiz/route.ts:19-23 | Storing a new attempt (app/api/quiz/submit/route.ts:53-60) raises its quiz's attempt count by one and leaves every other quiz's count unchanged |
| AdminQuizApi.SummariesOfEachOnce | app/api/admin/quiz/route.ts:17-25 | The unordered summaries have one entry per quiz, each with its question and attempt counts |
| AdminQuizApi.ListingIsNewestFirst | app/api/admin/quiz/route.ts:17-29 | The listing shows every quiz exactly once, with its counts, newest first by createdAt |
| AdminQuizApi.Get | app/api/admin/quiz/route.ts:6-31 | 401 without a valid token. Otherwise a newest-first listing of every quiz |
| AdminQuizApi.Post | app/api/admin/quiz/route.ts:41-74 | 401 without a valid token, and the store is untouched. Otherwise the quiz and its rows are stored under the fresh key and returned |
| AdminQuizApi.Delete | app/api/admin/quiz/route.ts:85-116 | 401 first, then 400 for a missing or empty id, both with the store untouched. A key with no quiz gives the delete error; otherwise the quiz is removed. Attempts never change |
| AdminQuizApi.Put | app/api/admin/quiz/route.ts:120-167 | 401 without a valid token. A key with no quiz gives the update error and leaves the store unchanged. Otherwise the quiz holds the new title, description and rows |
| ExportApi.ExportData | app/api/admin/quiz/export/route.ts:29-52 | The export copies title and description. Exported question i is the i-th stored row, in ascending `order`, with its JSON columns parsed and id, order and quiz key dropped |
| ExportApi.Export | app/api/admin/quiz/export/route.ts:5-62 | The guards run in the order 401, 400, 404, and each stops processing. Otherwise the export form of the quiz is returned |
| ExportApi.ExportOfCreatedRows | app/api/admin/quiz/export/route.ts:29-51 | Rows created from a question list export as that same list, in the same order, with id, order and quiz key dropped |
| ExportApi.CreateThenExport | app/api/admin/quiz/route.ts:55-66 | Exporting a freshly created quiz returns the submitted payload |
| ExportApi.PutThenExport | app/api/admin/quiz/route.ts:135-153 | Exporting a freshly replaced quiz returns the submitted title, description and questions; no earlier question remains |
| QuizEditor.WithoutIndex | app/admin/create/page.tsx:34-36 | Filtering by position removes exactly the element at the index and keeps the rest in order. An index outside the list removes nothing |
| QuizEditor.WithoutValue | app/admin/create/page.tsx:53-54 | Filtering by value removes every occurrence of the value and keeps every other element as often as before |
| QuizEditor.WithoutAbsentValue | app/admin/create/page.tsx:73 | Filtering out a value that is not present changes nothing |
| QuizEditor.WithoutValueOfAppended | app/admin/create/page.tsx:72-74 | Appending a value and then filtering it out is the same as just filtering it out |
| QuizEditor.RemoveOptionTracksOptions | app/admin/create/page.tsx:50-57 | After an option is removed, every other option sits at its new index and is correct there exactly when it was correct before |
| QuizEditor.RemoveOptionKeepsRange | app/admin/create/page.tsx:50-57 | If every correct index was below n, every one is below n-1 after the removal |
| QuizEditor.Toggled | app/admin/create/page.tsx:65-78 | A question that is not multiple choice gets exactly [o]. A multiple-choice one flips whether o is present and leaves every other index as often as before |
| QuizEditor.ToggleTwiceRestores | app/admin/create/page.tsx:72-74 | Toggling an unmarked option twice restores the answers |
| QuizEditor.WithType | app/admin/create/page.tsx:80-90 | Switching to true/false sets the options to Igaz/Hamis and clears the answers. Any other type changes only the type |
| QuizEditor.QuestionProblemNoneIff | app/admin/create/page.tsx:98-100 | A question passes exactly when its text is not blank, no option is blank and it has a correct answer |
| QuizEditor.FirstProblemFromNone | app/admin/create/page.tsx:96-101 | The question scan finds nothing exactly when every remaining question passes |
| QuizEditor.FirstProblemFromSome | app/admin/create/page.tsx:96-101 | When the scan reports question n, that is the first question that fails, with its first failing check |
| QuizEditor.SaveAcceptedIff | app/admin/create/page.tsx:93-101 | A save goes through exactly when the trimmed title is non-empty, there is a question and every question passes |
| QuizEditor.SaveReportsFirstFailure | app/admin/create/page.tsx:93-101 | A refusal naming question n means the title and count checks passed and every earlier question passed |
| QuizEditor.Editor.constructor | app/admin/create/page.tsx:17-19 | The editor starts with an empty title, empty description and no questions |
| QuizEditor.Editor.AddQuestion | app/admin/create/page.tsx:22-32 | One single-choice question with two empty options and no answer is appended; the others are unchanged |
| QuizEditor.Editor.RemoveQuestion | app/admin/create/page.tsx:34-36 | The list loses the question at the index and keeps the rest in order |
| QuizEditor.Editor.UpdateQuestion | app/admin/create/page.tsx:38-42 | Only the chosen field of the chosen question changes |
| QuizEditor.Editor.AddOption | app/admin/create/page.tsx:44-48 | Only the targeted question changes: an empty option is appended to it |
| QuizEditor.Editor.RemoveOption | app/admin/create/page.tsx:50-57 | Only the targeted question changes: its option is removed and its answers are re-indexed. Offered only when the question is not true/false and has more than two options (line 245) |
| QuizEditor.Editor.UpdateOption | app/admin/create/page.tsx:59-63 | Only the targeted option slot of the targeted question changes |
| QuizEditor.Editor.ToggleCorrectAnswer | app/admin/create/page.tsx:65-78 | Only the targeted question's answers change, as Toggled says |
| QuizEditor.Editor.ChangeQuestionType | app/admin/create/page.tsx:80-90 | Only the targeted question changes, as WithType says |
| QuizEditor.Editor.HandleSave | app/admin/create/page.tsx:92-112 | The loop with early returns reports the first failing check. When none fails, the body is the title, description and questions |
| Dashboard.ExportFileName | app/admin/page.tsx:91 | The name has one character per title character, then ".json". Each of those characters is a-z, 0-9 or `_`: letters are lowercased, digits kept and everything else becomes `_` |
| Dashboard.SlugPerCharacter | app/admin/page.tsx:91 | One stem character per title character. Letters are lowercased, digits kept and everything else becomes `_`, so every stem character is a-z, 0-9 or `_` |
| Dashboard.SlugIdempotent | app/admin/page.tsx:91 | Making a stem of a stem changes nothing |
| Dashboard.WithoutId | app/admin/page.tsx:70 | The filtered list is no longer than the original |
| Dashboard.WithoutIdContents | app/admin/page.tsx:70 | The list loses exactly the entries with the id, and keeps every other entry as often as before |
| Dashboard.WithoutIdAppend | app/admin/page.tsx:70 | The filter works piece by piece, so the kept entries keep their relative order |
| Dashboard.QuizList.constructor | app/admin/page.tsx:20 | The dashboard starts with an empty quiz list |
| Dashboard.QuizList.DeleteQuiz | app/admin/page.tsx:57-71 | Without confirmation no request is sent and nothing changes. The list drops the quiz only when the server reports success |
| Settings.PasswordProblem | app/admin/settings/page.tsx:33-41 | The form passes exactly when the passwords match and the new one has at least 6 characters. A mismatch is reported even when the password is also too short |
| Settings.FailureMessage | app/admin/settings/page.tsx:67 | The server's message unless it is missing or empty, otherwise 'Hiba történt'; never empty |
| Settings.PasswordForm.constructor | app/admin/settings/page.tsx:10-15 | The form starts with the three password fields and both messages empty, and not loading |
| Settings.PasswordForm.HandleChangePassword | app/admin/settings/page.tsx:28-73 | Both messages are cleared first. A failed check sets its message and sends nothing. On success the three password fields are cleared and the success text is shown. On failure the server's or the network error is shown and the fields are kept |

## Left out

- `hashPassword`, `verifyPassword`, `generateToken`, `verifyToken`: they sit on bcrypt and a JWT library. `verifyToken` is represented by the set of tokens it accepts.
- The login and change-password endpoints and the admin creation script are glue over those libraries and the database. They are not part of this model.
- JSON is an encode/decode pair with decode after encode the identity. The JSON grammar is not modelled.
- Key generation, `createdAt` and the database itself are not modelled. Their results are parameters.
- Database failures other than a missing quiz are not modelled: connection loss, or a non-array `answers` or malformed stored JSON, which would surface as 500. The POST and GET 500 answers ('Hiba a kvíz létrehozásakor', 'Hiba a kvízek lekérésekor') and export's 'Hiba az exportálás során' therefore never occur in the model.
- Request bodies are taken as well-typed. A body without `id`, `title` or `questions`, or answer entries that are not arrays of numbers, are not modelled.
- AdminQuizApi.Put: a body without `id` is not modelled. The database layer ignores a filter field whose value is undefined, so the question delete would remove every question of every quiz before the update fails with 500 (app/api/admin/quiz/route.ts:135-140). Put's contract cannot show this destructive path.
- Attempts are left as they are when a quiz is deleted. The schema's cascade rules are not part of this model.
- AdminQuizApi.Listing: quizzes created at the same instant appear in an order the database chooses. The model fixes one arbitrary order, and the listing contract states nothing about ties.
- QuizData.OrderedRows: rows with equal `order` keep their stored order here. The database promises no particular order for ties, and rows created by the handlers never tie.
- Fetching, `localStorage`, navigation, `alert` texts, the Blob download, the import file reader, `fetchQuizzes` and the `saving`/`loading` flags during the request are I/O. HandleSave stops at the request body; the outcome of sending it is not modelled.
- QuizEditor.Editor: in the page, the option operations mutate question objects that the previous render's array still shares (a shallow copy). The model updates question values, so that aliasing is not captured.
- QuizEditor.Editor.UpdateQuestion and UpdateOption require indices inside the lists. For updateQuestion's index and updateOption's option index, JavaScript would grow the array past the end. For updateOption's question index, `updated[q]` past the end is undefined and the assignment throws. The page only passes indices of existing questions and options.
- The editor's title and description inputs are direct state setters and are not modelled as operations.
- Dashboard.Slug and Settings.PasswordProblem count characters as code points. JavaScript counts UTF-16 code units, so a character outside the Basic Multilingual Plane becomes two underscores in the source stem and counts as two toward the 6-character minimum.
- Rendering, theming and layouts are UI only and are not part of this model.
