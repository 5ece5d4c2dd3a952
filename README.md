# DeFi quiz app: quiz pipeline, verification cache and Nomi Echo proxies

This project is a Dafny model of the logic inside a Next.js app that teaches DeFi protocols through short quizzes. The parts modelled are:

- **The client-side quiz session** (`useQuiz`). It is a class whose methods are the hook's transitions: start, select, lock, next, the one-second timer tick, the "question shown" effect and the page-visibility handler.
- **The server-side quiz pipeline.**
  - `POST /api/quiz/submit` validates a submission, recomputes the score against the authoritative bank, enforces the minimum time and issues a ten-minute token.
  - The in-memory token store (`quiz-tokens`) supports set, get-with-expiry, delete and the periodic sweep.
  - `GET /api/quiz/results` redeems a token and reveals the protocol's secret word only to a score of 3 or more.
  - `GET /api/quiz/questions` serves the bank with the answer key stripped.
- **The question and protocol lookups** (`getQuestionsBy…`, `getQuestionById`, `getProtocolById`, `getProtocolsByCategory`). The shipped Aave bank is a constant, used as a worked example.
- **The Self identity-verification cache.**
  - `POST /api/verify-self` turns the verifier's verdict into a response. It reformats the date of birth, extracts the wallet from `userContextData` and writes the global cache.
  - `POST /api/verify-self/check` reads the cache by lower-cased wallet and drops entries older than one hour.
- **The five Nomi Echo proxy routes** (context upload, suggest question, voice synthesis, agent question, analyse response). Each is a validation plan followed by the settlement of the upstream call. The `NomiEchoError` hierarchy and the shared error-to-status mapping are modelled too.
- **Small helpers:**
  - the `cn` class-name joiner;
  - `ConnectedWalletBadge` (address truncation and the name, title and avatar fallbacks);
  - `useErrorHandler` (message extraction and the error state).

JavaScript values are modelled by a small `Js.Value` datatype with JavaScript truthiness, `trim`, `slice` with negative and clamped indices, and `toLowerCase`/`toUpperCase`. `Date.now()`, the fresh random token, the third-party verifier's result, the database lookup and the outcome of each upstream Nomi Echo call are parameters.

Pure code (filters, projections, early-return handlers, the error mapping) is modelled as functions. Code that updates state step by step is modelled as methods, and each method is proved against a specification function:

- the hook's state is the `QuizSession.Quiz` class;
- the token map is `QuizTokens.TokenStore`;
- the verification map is `VerifySelf.VerificationCache`;
- the error state is `ErrorHandler.ErrorState`;
- the scoring loop is `QuizSubmit.ScoreAnswers`;
- the `cn` loop is `Cn.Cn`.

## Model

| member | source | states |
|---|---|---|
| QuizSession.Quiz.CurrentQuestion | src/hooks/useQuiz.ts:27 | There is a current question exactly when the index is inside the question list, and it is the question at that index |
| QuizSession.Quiz.constructor | src/hooks/useQuiz.ts:11-25 | A new session is idle at question 0 with no answers, no selection, no lock, no cheating flag and the full time per question; the session invariant holds (index in range, never `completed`, cheating flag set exactly while locked) |
| QuizSession.Quiz.StartQuiz | src/hooks/useQuiz.ts:111-123 | Starting resets index, answers, end time and completion, stamps the start time and question start with `now`, restores the full timer, clears the cheating flag and moves to in-progress (also out of `locked`); the answer lock and the selection are left as they were |
| QuizSession.Quiz.SelectAnswer | src/hooks/useQuiz.ts:87-90 | Only the selection changes, and it does not change while the answer is locked; the session status is not consulted |
| QuizSession.Quiz.LockAnswer | src/hooks/useQuiz.ts:69-85 | A no-op when already locked or when there is no current question; otherwise the answer is locked, selected and recorded for the current question id, every other recorded answer kept |
| QuizSession.Quiz.NextQuestion | src/hooks/useQuiz.ts:92-109 | Before the last question the index grows by exactly one and lock, selection and timer are reset; on the last question the attempt is completed at `now` and the index stays, so it never passes the last question |
| QuizSession.Quiz.Tick | src/hooks/useQuiz.ts:32-57 | The clock does not run while locked, without a current question or outside in-progress; above 1 it decrements by one; at 1 or less it becomes 0, the answer is locked and the selection is recorded only if one was made, so an unanswered question stays absent from the answers |
| QuizSession.Quiz.QuestionShown | src/hooks/useQuiz.ts:59-67 | While the timer may run, showing a question restarts the clock at the full time, stamps `now` and clears the selection; otherwise nothing changes |
| QuizSession.Quiz.VisibilityChange | src/hooks/useQuiz.ts:125-136 | Hiding the page during an attempt locks the session and flags cheating; nothing else changes, and a locked session stays locked |
| QuizSession.Quiz.GetSelectedAnswer | src/hooks/useQuiz.ts:138-141 | With a selection and a current question: the first answer of that question whose id is the selected id, and none exactly when no answer has that id; no selection or no current question gives none |
| QuizSession.Quiz.GetCorrectAnswer | src/hooks/useQuiz.ts:143-146 | The first answer of the current question flagged correct; none exactly when no answer is flagged or there is no current question |
| QuizSubmit.Score | src/app/api/quiz/submit/route.ts:46-64 | The score never exceeds the number of questions |
| QuizSubmit.ScoreCountsCorrect | src/app/api/quiz/submit/route.ts:46-64 | The score is the number of bank questions whose submitted answer id names an answer flagged correct; missing, falsy or unknown ids count as wrong |
| QuizSubmit.FullMarksIff | src/app/api/quiz/submit/route.ts:46-64 | Full marks exactly when every question is answered correctly |
| QuizSubmit.ScoreDependsOnlyOnBankIds | src/app/api/quiz/submit/route.ts:49-50 | Keys that are not bank question ids never affect the score |
| QuizSubmit.Grade | src/app/api/quiz/submit/route.ts:50-57 | The per-question verdict of the `forEach` callback: correct exactly when the submitted id names an answer flagged correct |
| QuizSubmit.ScoreAnswers | src/app/api/quiz/submit/route.ts:46-64 | The loop's counter equals the score, and it pushes one result per question, in bank order, with that question's verdict |
| QuizSubmit.Submit | src/app/api/quiz/submit/route.ts:7-105 | The handler answers the specified outcome; on success it writes exactly one store entry (score, total, protocol id, expiry) under the fresh token, and on every rejection the store is unchanged |
| QuizSubmit.EarlyRejections | src/app/api/quiz/submit/route.ts:12-35 | A missing protocol id or missing or non-object answers is a 400; an unknown protocol or one without questions is a 404 |
| QuizSubmit.IssuedFacts | src/app/api/quiz/submit/route.ts:38-97 | An issued token implies a known protocol, a non-empty question list whose size equals the number of answer keys, a score that counts the correct answers, `passed` exactly when the score is at least 3, expiry ten minutes after `now`, and a passed time check |
| QuizSubmit.AcceptedOutcome | src/app/api/quiz/submit/route.ts:79-97 | A submission that passes every check is issued the fresh token with the recomputed score, the question count, `passed` iff score ≥ 3, and expiry now + 600000 |
| QuizSubmit.CountMismatchRejected | src/app/api/quiz/submit/route.ts:38-43 | A number of answer keys different from the number of questions is a 400, whatever the keys are |
| QuizSubmit.TooFastRejected | src/app/api/quiz/submit/route.ts:66-77 | With both timestamps set, under 5000 ms per question is a 400 |
| QuizSubmit.TooFast | src/app/api/quiz/submit/route.ts:67-71 | Both timestamps truthy, both coercible to numbers, and their difference under 5000 ms per question; a NaN difference never counts as too fast (numbers read as exact integers: see "Left out") |
| QuizSubmit.ArrayTimestampsChecked | src/app/api/quiz/submit/route.ts:67-71 | Timestamps sent as one-element arrays are coerced like their element, so `[1]` and `[2]` are too fast for any question count above 0 |
| QuizSubmit.Outcome | src/app/api/quiz/submit/route.ts:7-105 | 500 exactly when the body cannot be read; every refusal is 400, 404 or 500; an issued response carries the fresh token, a score not above the total and an expiry ten minutes on |
| QuizSubmit.InvalidRequest | src/app/api/quiz/submit/route.ts:12 | A falsy protocol id, falsy answers, or answers whose `typeof` is not "object" |
| QuizSubmit.ProtocolOf | src/app/api/quiz/submit/route.ts:20 | A protocol is found exactly when the id is a string that some protocol has, and it is a bank protocol with that id |
| QuizSubmit.AnsweredCorrectly | src/app/api/quiz/submit/route.ts:51-57 | The submitted value is truthy and the first answer whose id equals it is flagged correct |
| QuizSubmit.Correct | src/app/api/quiz/submit/route.ts:50-57 | The value submitted under the question's id answers it correctly |
| QuizSubmit.StoredRecord | src/app/api/quiz/submit/route.ts:83-88 | The stored record is the issued score, total and expiry with the submitted protocol id |
| QuizSubmit.CorrectByIndex | src/app/api/quiz/submit/route.ts:56-57 | An answer id naming the first answer with that id, flagged correct, is graded correct |
| QuizSubmit.ExampleAnswerCorrect | src/data/questions/aave.ts:1-174 | Each answer of the worked example names the flagged answer of its Aave question |
| QuizSubmit.ExampleScore | src/data/questions/aave.ts:1-174 | Answers a1-2, a2-1, a3-2, a4-1, a5-0 score 5 out of 5 against the shipped Aave bank |
| QuizSubmit.ShippedBankIsAave | src/data/questions/index.ts:4-7 | Every question in the shipped bank belongs to Aave |
| QuizSubmit.ExampleSubmission | src/app/api/quiz/submit/route.ts:7-105 | The worked example, taking at least 25 s, is issued a token with score 5, total 5, passed |
| QuizTokens.Fetch | src/lib/quiz-tokens.ts:29-39 | A token is returned exactly when it is stored and its expiry is not before `now` (expiry equal to now is still valid) |
| QuizTokens.Expired | src/lib/quiz-tokens.ts:19 | A record has expired when its expiry is strictly before `now` |
| QuizTokens.AfterFetch | src/lib/quiz-tokens.ts:29-39 | A read removes nothing but the read token, and only when it has expired; all remaining entries are unchanged |
| QuizTokens.Unexpired | src/lib/quiz-tokens.ts:16-23 | The sweep keeps exactly the unexpired entries, unchanged |
| QuizTokens.FetchAgreesWithSweep | src/lib/quiz-tokens.ts:16-39 | Reading before or after a sweep gives the same answer, and a read followed by a sweep leaves what the sweep alone leaves |
| QuizTokens.SweepMonotone | src/lib/quiz-tokens.ts:16-23 | Sweeping at one time and again later is the same as sweeping once at the later time |
| QuizTokens.RepeatedFetchStable | src/lib/quiz-tokens.ts:29-39 | A successful read leaves the store unchanged, so a later read up to the expiry returns the same record |
| QuizTokens.FetchAfterSet | src/lib/quiz-tokens.ts:25-39 | After a set, the token reads back its record while unexpired, and every other token reads as before |
| QuizTokens.TokenStore.constructor | src/lib/quiz-tokens.ts:13 | The store starts empty |
| QuizTokens.TokenStore.Set | src/lib/quiz-tokens.ts:25-27 | Inserts or overwrites that token's entry, all others unchanged |
| QuizTokens.TokenStore.Get | src/lib/quiz-tokens.ts:29-39 | Returns the specified lookup and leaves the store as the read specifies (expired entry deleted, otherwise unchanged) |
| QuizTokens.TokenStore.Delete | src/lib/quiz-tokens.ts:41-43 | Removes only that key |
| QuizTokens.TokenStore.Sweep | src/lib/quiz-tokens.ts:16-23 | Removes exactly the expired entries |
| QuizResults.Respond | src/app/api/quiz/results/route.ts:18-43 | No record is a 401, an unknown protocol a 404; otherwise score and total as stored, `passed` iff score ≥ 3, the secret word present iff score ≥ 3, and the protocol's title-or-name |
| QuizResults.Outcome | src/app/api/quiz/results/route.ts:8-15 | A missing or empty token parameter is a 400, and no other case is; every error is 400, 401 or 404 |
| QuizResults.GetResults | src/app/api/quiz/results/route.ts:5-43 | The handler answers the specified outcome; the store changes only by the expiry deletion of the read, and a successful read never deletes the token |
| QuizResults.ExpiredOrUnknownRefused | src/app/api/quiz/results/route.ts:18-25 | An unknown or expired token is a 401, so it never yields a score or a secret word |
| QuizResults.SecretIffPassed | src/app/api/quiz/results/route.ts:37-41 | In every success, the secret word is present exactly when the score is at least 3, and so is `passed` |
| QuizResults.RepeatedReadsAgree | src/app/api/quiz/results/route.ts:18-43 | A successful read leaves the store intact, so later reads within the expiry return the same response |
| QuizResults.SubmitThenRead | src/app/api/quiz/submit/route.ts:79-97 | A token issued by submit and read within ten minutes reports the issued score, total and pass, and carries the secret word exactly when passed |
| QuizQuestions.ToSafeAnswer | src/app/api/quiz/questions/route.ts:48-51 | A safe answer carries the answer's id and text |
| QuizQuestions.ToSafeQuestion | src/app/api/quiz/questions/route.ts:41-53 | A safe question copies id, text, category, difficulty and protocol, and keeps each answer's id and text, in order and count |
| QuizQuestions.ToSafeQuestions | src/app/api/quiz/questions/route.ts:41-53 | Same number of questions, and each position holds the safe projection of the question at that position |
| QuizQuestions.GetQuestions | src/app/api/quiz/questions/route.ts:9-63 | 400 exactly when the protocol id is missing, 404 "Protocol not found" exactly for an unknown protocol, 404 "No questions found" exactly for a known one without questions; a success carries the protocol's id, name and title, the safe projection of its questions and their count |
| QuizQuestions.OkIffQuestionsExist | src/app/api/quiz/questions/route.ts:30-38 | For a known protocol, success exactly when the bank holds a question of that protocol |
| QuizQuestions.SafeQuestionHidesKey | src/app/api/quiz/questions/route.ts:47-52 | Questions differing only in `isCorrect` and explanations project to the same safe question |
| QuizQuestions.ByProtocolSameVisible | src/data/questions/index.ts:9-11 | Filtering by protocol keeps two visibly equal banks visibly equal |
| QuizQuestions.ResponseHidesAnswerKey | src/app/api/quiz/questions/route.ts:9-63 | The response does not depend on the answer key: banks differing only in `isCorrect` and explanations give identical responses |
| QuestionBank.ByProtocol | src/data/questions/index.ts:9-11 | Exactly the bank questions of that protocol |
| QuestionBank.ByCategory | src/data/questions/index.ts:13-15 | Exactly the bank questions of that category |
| QuestionBank.ByDifficulty | src/data/questions/index.ts:17-19 | Exactly the bank questions of that difficulty |
| QuestionBank.ById | src/data/questions/index.ts:21-23 | The first question with that id; none exactly when no question has it |
| QuestionBank.ByProtocolExact | src/data/questions/index.ts:9-11 | The result is a subsequence of the bank (bank order) holding each matching question as often as the bank does |
| QuestionBank.ByCategoryExact | src/data/questions/index.ts:13-15 | Subsequence of the bank with every matching question, multiplicity kept |
| QuestionBank.ByDifficultyExact | src/data/questions/index.ts:17-19 | Subsequence of the bank with every matching question, multiplicity kept |
| ProtocolBank.DisplayName | src/app/api/quiz/results/route.ts:42 | The title when it is non-empty, otherwise the name |
| ProtocolBank.ById | src/data/protocols/index.ts:10-12 | The first protocol with that id; none exactly when no protocol has it |
| ProtocolBank.ByCategory | src/data/protocols/index.ts:14-16 | Exactly the protocols of that category |
| ProtocolBank.ByCategoryExact | src/data/protocols/index.ts:14-16 | Subsequence of the protocol bank with every matching protocol, multiplicity kept |
| ProtocolBank.ByIdFoundIffPresent | src/data/protocols/index.ts:10-12 | A protocol is found exactly when its id occurs in the bank, so every 404 path is reachable exactly for absent ids |
| VerifySelf.Century | src/app/api/verify-self/route.ts:75 | The century prefix is "19" or "20" |
| VerifySelf.ReformatDob | src/app/api/verify-self/route.ts:69-77 | A date is produced exactly for a 6-character input; it has the YYYY-MM-DD layout |
| VerifySelf.DobLayout | src/app/api/verify-self/route.ts:72-76 | The reformatted date is the century, YY, '-', MM, '-', DD, taken from the right positions |
| VerifySelf.TwoDigitYear | src/app/api/verify-self/route.ts:75 | `parseInt` of two digits is their decimal value |
| VerifySelf.CenturyPivot | src/app/api/verify-self/route.ts:75 | Years 50-99 are placed in the 1900s and 00-49 in the 2000s |
| VerifySelf.WalletIsFixedWindow | src/app/api/verify-self/route.ts:80-88 | The wallet is "0x" plus characters 88 to 128 of the context data, lower-cased, clamped on short data; 42 characters when the data is long enough |
| VerifySelf.WalletIsLowerCase | src/app/api/verify-self/route.ts:84 | The extracted wallet is already lower case, so the check route's lower-casing finds it |
| VerifySelf.OrEmpty | src/app/api/verify-self/route.ts:95-97 | `x \|\| ''`: the value when present, else the empty string |
| VerifySelf.WalletOf | src/app/api/verify-self/route.ts:82-84 | The wallet starts with "0x" and is at most 42 characters long |
| VerifySelf.Reason | src/app/api/verify-self/route.ts:118 | An `Error`'s message, otherwise 'Unknown error' |
| VerifySelf.Accepted | src/app/api/verify-self/route.ts:58-66 | The body was read and the verifier returned both `isValid` and `isMinimumAgeValid` |
| VerifySelf.PostOutcome | src/app/api/verify-self/route.ts:58-120 | Every outcome is HTTP 200; success exactly when the request was read and the verifier returns valid and old enough, carrying the reformatted date of birth and the disclosed name and nationality (or ''); a refusal gives the fixed requirements message, and a thrown error its message or 'Unknown error' |
| VerifySelf.CacheWrite | src/app/api/verify-self/route.ts:79-101 | The cache is written exactly on an accepted verification with string context data, under the extracted wallet, with verified, the reformatted date of birth (or ''), the disclosed name and nationality (or '') and the current time |
| VerifySelf.CachedEntryMatchesResponse | src/app/api/verify-self/route.ts:91-111 | The cached entry agrees with the success response: date of birth (or ''), name and nationality |
| VerifySelf.VerificationCache.constructor | src/app/api/verify-self/route.ts:92 | The cache starts empty |
| VerifySelf.VerificationCache.Post | src/app/api/verify-self/route.ts:30-121 | Answers the specified response and overwrites only the extracted wallet's entry, or nothing |
| VerifySelfCheck.Key | src/app/api/verify-self/check/route.ts:19-26 | A key exists exactly for a non-empty string user id, and it is that id lower-cased |
| VerifySelfCheck.Stale | src/app/api/verify-self/check/route.ts:29-32 | An entry is stale when its timestamp is strictly before one hour ago |
| VerifySelfCheck.CheckOutcome | src/app/api/verify-self/check/route.ts:14-53 | An unreadable body is a 500; a missing user id a 400; an absent or stale entry `verified: false`; a fresh entry is returned with its fields |
| VerifySelfCheck.AfterCheck | src/app/api/verify-self/check/route.ts:28-35 | At most the looked-up key is removed, and only when its entry is stale; every other entry is unchanged |
| VerifySelfCheck.Check | src/app/api/verify-self/check/route.ts:14-53 | The handler answers the specified outcome and leaves the cache as specified |
| VerifySelfCheck.FreshReadKeepsCache | src/app/api/verify-self/check/route.ts:37-42 | A read that finds a fresh verified entry leaves the cache unchanged |
| VerifySelfCheck.PostThenCheck | src/app/api/verify-self/check/route.ts:25-42 | Polling, within an hour, the wallet that a successful verification cached (in any letter case) returns that verification |
| VerifySelfCheck.KeyIgnoresCase | src/app/api/verify-self/check/route.ts:25 | User ids equal up to case address the same entry |
| VerifySelfCheck.ExpiresAfterAnHour | src/app/api/verify-self/check/route.ts:29-35 | An entry older than one hour reads as not verified and is deleted |
| NomiErrors.NewNomiEchoError | src/lib/nomi/errors.ts:6-26 | The code defaults to 'NOMI_ECHO_ERROR'; message, status code and details are exactly what was passed |
| NomiErrors.NewTimeoutError | src/lib/nomi/errors.ts:29-35 | Code 'NOMI_ECHO_TIMEOUT', the fixed default message when none is given, no status code, no details |
| NomiErrors.NewResponseError | src/lib/nomi/errors.ts:38-52 | Code 'NOMI_ECHO_RESPONSE_ERROR' with the given status code and details |
| NomiErrors.NewConfigError | src/lib/nomi/errors.ts:55-61 | Code 'NOMI_ECHO_CONFIG_ERROR', no status code, no details |
| NomiErrors.SubclassesDistinct | src/lib/nomi/errors.ts:20-58 | The base class and the three subclasses carry four different names, and the subclasses three different codes |
| NomiErrors.MapToResponse | src/app/api/nomi/context-upload/route.ts:38-65 | Config → 503, timeout → 504, response error → its status if 4xx/5xx else 502, anything else → 502; details only for response errors; the message of an `Error`, else the route's fallback; always a 4xx/5xx |
| NomiErrors.RoutesAgree | src/app/api/nomi/suggest-question/route.ts:30-55 | The routes' copies of the mapping differ only in the fallback message of non-`Error` values |
| NomiErrors.ResponseStatusPassThrough | src/app/api/nomi/context-upload/route.ts:51-58 | An upstream HTTP error keeps its status exactly when it is 4xx or 5xx (or already 502), with its message and details |
| NomiErrors.Settle | src/app/api/nomi/context-upload/route.ts:95-113 | A successful upstream call is answered with its value; a failure with the mapped error |
| NomiTypes.TrimmedIfFilledIn | src/app/api/nomi/agent/analyze-response/route.ts:78-84 | Included, trimmed and non-empty, exactly for a string with more than whitespace |
| NomiTypes.TrimmedIfTruthy | src/app/api/nomi/agent/question/route.ts:63-64 | Included, trimmed, exactly for a non-empty string |
| NomiTypes.ForwardedIsTrimmed | src/app/api/nomi/agent/question/route.ts:63-64 | What is forwarded is already trimmed |
| NomiContextUpload.BuildDocs | src/app/api/nomi/context-upload/route.ts:20-36 | Trimmed docs when they are not blank; otherwise title-or-name alone when the description is blank, else title-or-name, a blank line and the trimmed description |
| NomiContextUpload.OrEmpty | src/app/api/nomi/context-upload/route.ts:26 | `x || ''` for a nullable column |
| NomiContextUpload.TitleOrName | src/app/api/nomi/context-upload/route.ts:30 | The title when it is non-empty, otherwise the name |
| NomiContextUpload.NotBlankWitness | src/app/api/nomi/context-upload/route.ts:88 | A string with a non-whitespace character is not blank |
| NomiContextUpload.TrimmedNotBlank | src/app/api/nomi/context-upload/route.ts:26-28 | Trimming a non-blank string leaves it non-blank |
| NomiContextUpload.EndsNotBlank | src/app/api/nomi/context-upload/route.ts:35 | Appending a trimmed non-blank description gives a non-blank text |
| NomiContextUpload.BuildDocsBlankIff | src/app/api/nomi/context-upload/route.ts:20-36 | The built docs are blank exactly when docs, description and title-or-name are all blank |
| NomiContextUpload.MaxWords | src/app/api/nomi/context-upload/route.ts:98 | `maxWords ?? 400` |
| NomiContextUpload.Upload | src/app/api/nomi/context-upload/route.ts:87-99 | The upload is made exactly when the built docs are not blank (else 400), with those docs and the word limit |
| NomiContextUpload.Plan | src/app/api/nomi/context-upload/route.ts:67-99 | A missing or non-string protocol id is a 400, an unknown one the 404 "Protocolo no encontrado", a known one whose built docs are blank the 400 naming the missing documentation; Nomi Echo is called exactly otherwise, with the built docs and `maxWords ?? 400` |
| NomiContextUpload.Handle | src/app/api/nomi/context-upload/route.ts:67-114 | A refused plan is answered with its own error response; a failed upload with the mapped error; success exactly when the plan calls and the upload succeeds, answering the upstream result |
| NomiContextUpload.NothingToUploadRefused | src/app/api/nomi/context-upload/route.ts:87-93 | A record with nothing to upload is refused with 400 before any upstream call |
| NomiSuggestQuestion.Plan | src/app/api/nomi/suggest-question/route.ts:57-93 | A missing, non-string or blank protocol id is a 400; an unknown trimmed id the 404 "Protocolo no encontrado"; a known one whose built docs are blank the 400 naming the missing documentation; otherwise the upload of those docs with 400 words |
| NomiSuggestQuestion.Ask | src/app/api/nomi/suggest-question/route.ts:102-105 | The question request uses the new context id and forwards the topic, trimmed, only when it holds more than whitespace |
| NomiSuggestQuestion.Handle | src/app/api/nomi/suggest-question/route.ts:57-116 | A refused plan is answered with its error response; a failed upload with the mapped error; an upload without context id is a 502; otherwise the agent is asked the `Ask` request for the new context, and its failure is mapped while its success gives the question and the suggested topics (or []) |
| NomiSuggestQuestion.IdIsTrimmed | src/app/api/nomi/suggest-question/route.ts:62-69 | Protocol ids equal after trimming are handled identically |
| NomiSynthesize.Language | src/app/api/nomi/voice/synthesize/route.ts:15-61 | A non-empty string language is used as given, otherwise 'es-MX' |
| NomiSynthesize.Plan | src/app/api/nomi/voice/synthesize/route.ts:46-62 | Nomi Echo is called exactly for text that is a string with more than whitespace, sent trimmed; anything else is a 400 |
| NomiSynthesize.Handle | src/app/api/nomi/voice/synthesize/route.ts:46-74 | A refused plan is answered with its error response and a failed synthesis with the mapped error; success exactly when the plan calls and synthesis succeeds: 200, audio/mpeg, "private, max-age=3600", the returned bytes |
| NomiSynthesize.SurroundingWhitespaceIgnored | src/app/api/nomi/voice/synthesize/route.ts:59-60 | Texts equal after trimming are synthesised identically |
| NomiAgentQuestion.Plan | src/app/api/nomi/agent/question/route.ts:44-65 | Nomi Echo is called exactly when the context id holds more than whitespace, sent trimmed; session id and topic are sent trimmed whenever they are non-empty strings; otherwise 400 |
| NomiAgentQuestion.Handle | src/app/api/nomi/agent/question/route.ts:44-78 | A refused plan is answered with its error response and a failed call with the mapped error; success exactly when the plan calls and the agent succeeds, answering the agent's fields as returned |
| NomiAgentQuestion.BlankSessionForwardedEmpty | src/app/api/nomi/agent/question/route.ts:63 | A whitespace-only session id is forwarded as the empty string |
| NomiAnalyzeResponse.Plan | src/app/api/nomi/agent/analyze-response/route.ts:44-85 | Checks audio, then context id, then original question, the first failure deciding the 400; the call sends the audio, both required fields trimmed and the optional ids only when non-blank |
| NomiAnalyzeResponse.Handle | src/app/api/nomi/agent/analyze-response/route.ts:44-96 | A refused plan is answered with its error response and a failed call with the mapped error; success exactly when the plan calls and the analysis succeeds, answering analysis, feedback, suggestions and correct answer as returned |
| NomiAnalyzeResponse.AudioCheckedFirst | src/app/api/nomi/agent/analyze-response/route.ts:53-58 | Without usable audio every form gets the same 400, whatever its other fields |
| NomiAnalyzeResponse.Get | src/app/api/nomi/agent/analyze-response/route.ts:47-51 | `formData.get`: the field's value, or null when absent |
| NomiAnalyzeResponse.UsableAudio | src/app/api/nomi/agent/analyze-response/route.ts:53 | Usable audio is a Blob of non-zero size |
| Cn.TruthyKeys | src/utils/cn.ts:21-26 | A key is collected exactly when its value is truthy: every collected key has a truthy entry, and every truthy entry's key is collected |
| Cn.TruthyKeysInOrder | src/utils/cn.ts:21-26 | The collected keys are the keys of the truthy entries, in enumeration order |
| Cn.Cn | src/utils/cn.ts:10-31 | The loop (recursing into arrays) returns the specified class list |
| Cn.PiecesAppend | src/utils/cn.ts:13-28 | Consecutive runs of arguments contribute their pieces one after the other |
| Cn.PiecesSkipFalsy | src/utils/cn.ts:14 | A falsy argument contributes nothing between its neighbours |
| Cn.FalsyIgnored | src/utils/cn.ts:14 | Removing a falsy argument (null, undefined, false, 0, '') does not change the result |
| Cn.JoinEmptyIff | src/utils/cn.ts:30 | Joining non-empty pieces gives '' exactly when there are none |
| Cn.EmptyIffNothingContributes | src/utils/cn.ts:10-31 | The result is non-empty exactly when some argument contributes a non-empty piece |
| Cn.StringInputKept | src/utils/cn.ts:16-17 | Every non-empty string argument appears, unchanged, among the joined pieces |
| Cn.StringsJoined | src/utils/cn.ts:16-30 | Non-empty string arguments are joined with single spaces in argument order |
| Cn.StringPieces | src/utils/cn.ts:16-17 | The pieces of non-empty string arguments are the strings themselves |
| Cn.NestedArrayFlattens | src/utils/cn.ts:18-20 | A nested array gives the same classes as its elements passed directly |
| Cn.ObjectGivesTruthyKeys | src/utils/cn.ts:21-26 | An object gives exactly its truthy keys, in enumeration order, joined |
| Cn.OtherValuesIgnored | src/utils/cn.ts:16-27 | Truthy numbers, `true`, errors and blobs contribute nothing |
| Cn.Contribution | src/utils/cn.ts:14-27 | What one argument pushes: nothing when falsy, a string itself, a nested array its non-empty class list, an object its truthy keys |
| Cn.Pieces | src/utils/cn.ts:13-28 | The pieces pushed by the loop, argument after argument |
| Cn.ClassList | src/utils/cn.ts:10-31 | The non-empty pieces joined with single spaces |
| Cn.Join | src/utils/cn.ts:30 | `join(sep)`: the parts with the separator between consecutive ones |
| WalletBadge.NonEmpty | src/components/verification/ConnectedWalletBadge.tsx:28-29 | `x \|\| null` over strings: the empty string counts as missing |
| WalletBadge.TruncateAddress | src/components/verification/ConnectedWalletBadge.tsx:12-15 | Addresses under 12 characters are kept; longer ones become the first 6, "....", the last 4 (14 characters) |
| WalletBadge.TruncateIdempotent | src/components/verification/ConnectedWalletBadge.tsx:12-15 | Truncating twice is truncating once |
| WalletBadge.TruncateLength | src/components/verification/ConnectedWalletBadge.tsx:12-15 | Only addresses over 14 characters get shorter; those of 12 or 13 grow to 14 |
| WalletBadge.DisplayName | src/components/verification/ConnectedWalletBadge.tsx:28 | The non-empty display name, else the non-empty username, else none |
| WalletBadge.PfpUrl | src/components/verification/ConnectedWalletBadge.tsx:29 | The picture URL exactly when it is a non-empty string |
| WalletBadge.Title | src/components/verification/ConnectedWalletBadge.tsx:37 | "wallet · name" when there is a name, else the wallet; always starts with the wallet |
| WalletBadge.InitialOf | src/components/verification/ConnectedWalletBadge.tsx:52 | One character: the upper-cased first letter of the name, or '?' |
| WalletBadge.Render | src/components/verification/ConnectedWalletBadge.tsx:21-57 | Nothing without a wallet; otherwise the base classes plus the caller's via `cn`, the title, the truncated wallet, and the picture (alt: name or 'Avatar') exactly when there is a picture URL, else the initial |
| WalletBadge.BaseClassAlwaysPresent | src/components/verification/ConnectedWalletBadge.tsx:32-35 | The base classes are always among the badge's classes, whatever the caller adds |
| WalletBadge.AnonymousBadge | src/components/verification/ConnectedWalletBadge.tsx:25-52 | Without a Farcaster user the title is the wallet and the avatar '?' |
| ErrorHandler.Message | src/hooks/useErrorHandler.ts:17-26 | An `Error`'s message, a string itself, `String(message)` of another object with `message`, else 'Error desconocido' |
| ErrorHandler.OnlyObjectsCarryMessages | src/hooks/useErrorHandler.ts:19-25 | Non-object values other than strings and errors give 'Error desconocido' |
| ErrorHandler.MessageFieldLikeError | src/hooks/useErrorHandler.ts:20-25 | An object whose `message` is a string shows it just as an `Error` with that message does |
| ErrorHandler.ErrorState.constructor | src/hooks/useErrorHandler.ts:14 | No error shown; the delay defaults to 5000 ms |
| ErrorHandler.ErrorState.HandleError | src/hooks/useErrorHandler.ts:17-34 | The shown error becomes the extracted message; an auto-clear is scheduled exactly when the delay is positive |
| ErrorHandler.ErrorState.ClearError | src/hooks/useErrorHandler.ts:36-38 | No error is shown |
| Js.DigitStringNumber | src/app/api/quiz/submit/route.ts:68 | `Number` of a string of digits is their decimal value |
| Js.DigitsOfNatToString | src/app/api/quiz/submit/route.ts:68 | Reading back the decimal digits of a natural number gives that number |
| Js.NumberOfIntString | src/app/api/quiz/submit/route.ts:68 | `Number(String(n)) == n` for every integer |
| Js.ArrayNumber | src/app/api/quiz/submit/route.ts:68 | `Number([]) == 0` and `Number([n]) == n`: arrays coerce through their joined string |
| Js.ExponentNumber | src/app/api/quiz/submit/route.ts:68 | `Number(a + "e" + b)` is `a * 10^b` for digit strings a and b |
| Js.HexNumber | src/app/api/quiz/submit/route.ts:68 | `Number("0x" + ds)` is the hexadecimal value of the digits ds |

## Left out

- Rendering, 3D scenes, pages and SDK wiring are not modelled. This covers the components other than `ConnectedWalletBadge`, the Self and Farcaster contexts and `useLocalStorage`. None of them holds logic beyond display and browser APIs.
- The Nomi Echo HTTP client, its configuration and re-exports (`src/lib/nomi/client.ts`, `config.ts`, `index.ts`) are not modelled. Each upstream call is an input: a result value or a thrown `NomiEchoError` or other value.
- The database helper `@/lib/db/protocols` is not part of this model. Its lookup is an input map from protocol id to record, and database exceptions are not modelled.
- `src/app/api/protocols/route.ts`, `src/app/api/poap/confirm-claim/route.ts`, the `.well-known` route and `next.config.ts` are not modelled. Their logic lives in code that is not shown, or they hold configuration only.
- The `GET` health endpoint of `/api/verify-self` is not modelled. It returns constants.
- `getRandomQuestions` is left out because its order comes from `Math.random`.
- The floating-point values are not computed: the progress percentage and the unused `timeSpent` in `useQuiz`.
- Timers are not run.
  - The token sweep's `setInterval`, the quiz's one-second interval and the auto-clear `setTimeout` are explicit steps: `TokenStore.Sweep`, `Quiz.Tick`, and `HandleError` reporting whether a clear is scheduled.
  - The timer callback in `useErrorHandler` would clear even a newer error; that interleaving is not modelled.
- React effects run atomically. `QuestionShown` is the effect that resets a question.
- `src/data/protocols/aave.ts` and `src/types/protocol.ts` are not part of this model. The protocol bank is therefore a parameter, and so is the question bank of every lookup. The shipped Aave questions are a constant used as a worked example. Every question and answer text, id, `isCorrect` flag and difficulty is carried verbatim. The explanations are dropped, both each question's own `explanation` and each answer's, as no modelled operation reads them. The morpho and sablier question files are not in the shipped bank and are not modelled.
- The model simplifies JavaScript values:
  - Numbers are mathematical integers, and `NaN` appears only as a missing number.
  - Case mapping is ASCII only.
  - `trim` removes a fixed set of whitespace characters.
  - Inherited properties are not modelled.
  - An object value is a list of entries, and the model assumes its keys are distinct, as they are in every JavaScript object. A list with a repeated key is outside the model: `KeyCount` would count that key twice and `Get` would return its first value, whereas `JSON.parse` keeps the last value under one key.
  - Object keys are enumerated in insertion order, so integer-like keys are not moved to the front as JavaScript would move them. This affects `cn`.
- Js.ToNumber: a string or array whose number is not an integer ("1.5", ".5", "1e-3") and the string "Infinity" are read as NaN, because numbers are integers here. Integer literals are read exactly, with no double rounding and no overflow: "1e400" is 10^400, not `Infinity`, and integers above 2^53 are not rounded to a double. Hexadecimal, octal and binary literals, exponents, fractions with an integer value, `[]` and one-element arrays are coerced as JavaScript does.
- QuizSubmit.TooFast: follows the `Js.ToNumber` line above, so it can decide differently from the route in three cases. For timestamps whose number is not an integer, such as "1.5", the time check is skipped where JavaScript would apply it. For timestamps beyond double range, such as startTime = endTime = "1e400", the model computes 0 and refuses the submission as too fast, where JavaScript computes `Infinity - Infinity`, which is NaN, and lets it through. For timestamps above 2^53, the exact difference is compared with 5000 times the question count, where JavaScript compares the difference of the rounded doubles.
- The wording of runtime `TypeError`s is not modelled. One example is calling `toLowerCase` on a non-string `userId`. The route answers the thrown message, which is a fixed constant here.
- When `userContextData` is not a string, the wallet extraction throws inside its own `try`, and `VerifySelf.CacheWrite` writes nothing. An array-valued `userContextData` is not modelled.
- Where the code and its design notes differ, the model follows the code:
  - With the shipped answer key, the worked example a1-2, a2-1, a3-2, a4-1, a5-0 scores 5, not 4: a5-0 is the flagged answer of a5.
  - `selectAnswer` and `lockAnswer` check only the answer lock, not the locked session status.
  - `startQuiz` does not reset the answer lock or the selection.
  - `truncateAddress` lengthens addresses of 12 or 13 characters to 14.
- The optional `localId`, `wordCount` and `createdAt` of an upload are `Option` fields of the result answered as returned. The model does not distinguish `null` from a missing key.
- The `console` logging is not modelled.
