# LMS front end: quiz engines, services and session state in Dafny

This project models the client-side logic of a learning-management front end written
in TypeScript/React. Its pieces are:

- two quiz engines: a one-question-per-screen quiz and a paged quiz;
- the course, progress, authentication and session services;
- the home page's derived lists and per-course progress;
- the video player's and the lesson transition's state machines;
- the authentication context over the browser's key/value storage;
- the certificate template's title logic.

It proves properties of each piece. The model has one module per source file, plus two
shared modules: `Wrappers` (Option, Result, the HTTP error) and `Sequences` (count,
distinct, split/join, permutation lemmas).

- Components whose fields change step by step are classes with `modifies` clauses:
  `TypeformQuizSession`, `SimpleQuizSession`, `Html5VideoPlayer`, `LessonTransitionState`,
  `AuthProvider` and `HomePageState`.
- Loops are methods with invariants: the score counter, the Fisher–Yates shuffle, the
  progress grouping, hex padding and answer formatting.
- Pure expressions are functions.
- Backend calls are replaced by their outcomes (`Result` values, or functions from
  request to outcome) passed in as parameters. So are `localStorage` (a
  `map<string, string>`), the navigator's `userAgent` and `platform` (strings), and the
  random index of the shuffle (any `j` in `0 .. i`).

Where the declared TypeScript types and the code disagree, the model follows the code:

- The progress aggregation reads the snake-case fields of the records, not the
  camel-case fields of its declared type.
- The exam transformation passes the backend's option objects where the quiz type
  declares strings.
- The required flag is read from `es_requerida`.
- A question's `correctAnswer` is copied from untyped backend JSON, so it can be `null`. The
  components test it only against `undefined`, so a `null` key is scored and never matched;
  the model keeps undefined, `null` and a string apart.

## Model

| member | source | states |
|---|---|---|
| QuizModel.AllQuestions | components/quiz/typeform-quiz-component.tsx:37 | no pages give no questions; a single page gives its elements, or none when it has no `elements` |
| QuizModel.AllQuestionsAppend | components/quiz/typeform-quiz-component.tsx:37 | the questions of several pages are each page's questions in turn, in page order (`flatMap` over a concatenation) |
| QuizModel.CorrectAtMostScored | components/quiz/typeform-quiz-component.tsx:48-62 | a correct answer is only counted for a question with a `correctAnswer`, so correct ≤ total |
| QuizModel.RoundedPercent | components/quiz/typeform-quiz-component.tsx:61 | 0 when nothing is scored, otherwise the nearest integer to 100·correct/total with halves rounded up (`Math.round`); always in 0..100, and 100 when all are correct |
| QuizModel.Score | components/quiz/typeform-quiz-component.tsx:48-62 | the score is a percentage in 0..100 |
| QuizModel.CalculateScore | components/quiz/typeform-quiz-component.tsx:48-62 | the counting loop computes exactly the rounded share of correct answers among scored questions |
| QuizModel.NothingScoredScoresZero | components/quiz/typeform-quiz-component.tsx:61 | without any `correctAnswer` the score is 0 whatever the answers |
| QuizModel.AllCorrectScoresHundred | components/quiz/typeform-quiz-component.tsx:52-61 | answering every scored question correctly scores 100 |
| QuizModel.ScoreIgnoresOrder | components/quiz/typeform-quiz-component.tsx:52-59 | the score depends only on the multiset of questions, not their order |
| QuizModel.NullKeyCountsAgainst | components/quiz/typeform-quiz-component.tsx:52-59 | a question whose `correctAnswer` is `null` adds one to the total and nothing to the correct count, wherever it stands |
| QuizModel.NullKeyHalvesScore | components/quiz/typeform-quiz-component.tsx:52-61 | a `null`-keyed question beside one graded question answered right scores 50 |
| QuizModel.UnscoredAnswerIrrelevant | components/quiz/typeform-quiz-component.tsx:52-59 | changing the answer to a name no scored question has leaves the correct count unchanged |
| QuizModel.PassedIff | components/quiz/typeform-quiz-component.tsx:184 | the rounded score reaches 70 exactly when 200·correct ≥ 139·total |
| QuizModel.PassMarkBoundary | components/quiz/typeform-quiz-component.tsx:184 | 7 of 10 passes with 70, 6 of 10 fails with 60 |
| QuizModel.ScoreTier | components/quiz/typeform-quiz-component.tsx:98-108 | the top tier exactly at ≥ 90, the failing tier exactly below 70 |
| QuizModel.TierMessage | components/quiz/typeform-quiz-component.tsx:104-108 | each title belongs to exactly one tier: "¡Excelente!" to the top, "Sigue intentando" to the failing one |
| QuizModel.TierIcon | components/quiz/typeform-quiz-component.tsx:98-102 | the trophy exactly for the top tier, the lightning bolt exactly for the failing one |
| QuizModel.VerdictsAgree | components/quiz/typeform-quiz-component.tsx:98-108 | the message and the icon agree with the pass verdict for every score |
| QuizModel.CompletionResults | components/quiz/typeform-quiz-component.tsx:76 | the results hold every answer plus "score", and the score overrides an answer named "score" |
| QuizModel.ShownCorrectAsWritten | components/quiz/typeform-quiz-component.tsx:179 | the figure as written: the nearest integer to score·totalQuestions/100, halves rounded up; a score of 100 shows every question, graded or not |
| QuizModel.ShownCorrect | components/quiz/typeform-quiz-component.tsx:179 | the corrected "correct answers" figure: at most the number of graded questions, and the score is its rounded share |
| QuizModel.ShownCorrectOvercounts | components/quiz/typeform-quiz-component.tsx:179 | with one ungraded and two graded questions all answered right, the figure as written shows 3 correct, against 2 |
| TypeformQuiz.TypeformQuizSession.constructor | components/quiz/typeform-quiz-component.tsx:29-39 | starts on the welcome screen at index 0, no answers, not completed, score 0 |
| TypeformQuiz.TypeformQuizSession.Start | components/quiz/typeform-quiz-component.tsx:141 | leaves the welcome screen and changes nothing else |
| TypeformQuiz.TypeformQuizSession.HandleAnswerChange | components/quiz/typeform-quiz-component.tsx:41-46 | sets the named answer, keeps every other key and value, touches no other field |
| TypeformQuiz.TypeformQuizSession.HandleNext | components/quiz/typeform-quiz-component.tsx:64-78 | before the last question: index + 1, no scoring; on the last: completes with `Score` and emits the answers plus the score; the index stays on a question |
| TypeformQuiz.TypeformQuizSession.HandlePrevious | components/quiz/typeform-quiz-component.tsx:80-88 | decrements only above 0; nothing else changes |
| TypeformQuiz.TypeformQuizSession.CurrentScreen | components/quiz/typeform-quiz-component.tsx:111-154 | the welcome screen exactly while it is shown; otherwise the completion screen exactly when completed, else the question screen |
| TypeformQuiz.TypeformQuizSession.CanProceed | components/quiz/typeform-quiz-component.tsx:90-96 | false without a current question; true for an optional one; for a required one, true exactly when its answer is defined and non-empty |
| TypeformQuiz.TypeformQuizSession.PressNext | components/quiz/typeform-quiz-component.tsx:288-296 | the button acts only on the question screen when `canProceed`; a quiz with no questions never completes; a completed quiz is never rescored |
| TypeformQuiz.EndToEnd | components/quiz/typeform-quiz-component.tsx:64-78 | a three-question run (one free-text) answered right ends completed with 100, a pass, and four result keys |
| SimpleQuiz.PageSize | components/quiz/simple-quiz-component.tsx:36 | `ceil(n/pages)`: the least size whose page slices hold every question; 0 without pages |
| SimpleQuiz.PageSlice | components/quiz/simple-quiz-component.tsx:37 | a page never holds more than the page size |
| SimpleQuiz.PagesPartitionQuestions | components/quiz/simple-quiz-component.tsx:35-37 | the slices of pages 0..pages−1 concatenate to exactly the questions, in order |
| SimpleQuiz.AllSatisfied | components/quiz/simple-quiz-component.tsx:80-87 | the gate holds iff every required question on the page has a non-empty answer |
| SimpleQuiz.GatesCoverAllQuestions | components/quiz/simple-quiz-component.tsx:80-87 | passing the gate on every page means every required question of the quiz is answered |
| SimpleQuiz.SimpleQuizSession.constructor | components/quiz/simple-quiz-component.tsx:29-37 | first page, no answers, not completed, score 0 |
| SimpleQuiz.SimpleQuizSession.HandleAnswerChange | components/quiz/simple-quiz-component.tsx:39-44 | only the named answer changes |
| SimpleQuiz.SimpleQuizSession.HandleNext | components/quiz/simple-quiz-component.tsx:62-72 | next page before the last; on the last page, completes with `Score`; the page stays in range |
| SimpleQuiz.SimpleQuizSession.HandlePrevious | components/quiz/simple-quiz-component.tsx:74-78 | back one page only above 0 |
| SimpleQuiz.SimpleQuizSession.QuestionsPerPage | components/quiz/simple-quiz-component.tsx:36 | `ceil(questions/pages)`: the pages hold every question and one fewer per page would not; 0 without pages |
| SimpleQuiz.SimpleQuizSession.CurrentQuestions | components/quiz/simple-quiz-component.tsx:37 | at most a page's worth of questions, the k-th being question `page·size + k` of the quiz |
| SimpleQuiz.SimpleQuizSession.CanProceed | components/quiz/simple-quiz-component.tsx:80-87 | true exactly when every required question on the page has a non-empty answer |
| SimpleQuiz.SimpleQuizSession.ShowsPassMessage | components/quiz/simple-quiz-component.tsx:135-150 | the congratulation shows exactly on the completion screen with a score of at least 70 |
| SimpleQuiz.SimpleQuizSession.PressNext | components/quiz/simple-quiz-component.tsx:182-185 | acts only when not completed and `canProceed` |
| CoursesService.ShuffleArray | services/courses-service.ts:265-272 | the result is a permutation of the input (same multiset); length 0 or 1 comes back unchanged; the input value is untouched |
| CoursesService.SwapPermutes | services/courses-service.ts:267-270 | each swap preserves the multiset |
| CoursesService.GetExamByCourseId | services/courses-service.ts:275-333 | a failed call rethrows; an empty list fails with "not found"; otherwise only the first exam is used; one page "page1"; its elements' fields and choices are the renamed questions and options up to permutation |
| CoursesService.TransformedScoreIgnoresOrder | services/courses-service.ts:297 | shuffling the questions never changes a score |
| CoursesService.GetAuthToken | services/courses-service.ts:157-167 | the session token when stored and non-empty, otherwise `lms_token` as stored (possibly absent) |
| CoursesService.GetAuthHeaders | services/courses-service.ts:178-188 | throws exactly when there is no non-empty token; otherwise `Authorization` is "Bearer " followed by that token |
| CoursesService.SessionTokenWins | services/courses-service.ts:157-167 | with both tokens stored, the session token is sent |
| CoursesService.FormatAnswers | services/courses-service.ts:450-453 | one entry per answer key, keys distinct, every key present, values unchanged |
| CoursesService.SubmitExamAttempt | services/courses-service.ts:441-470 | the posted request carries the exam, user, score, verdict and `completado` true, and exactly one entry per answer: keys distinct, every answered key present, each with its answer; the outcome is the post's |
| CoursesService.GetCourseProgress | services/courses-service.ts:355-375 | the data exactly when the call succeeds with `success`; null otherwise |
| ProgressService.RecordsOf | services/progress-service.ts:59-72 | the records of one course: no more than the input, all of that course |
| ProgressService.Percentage | services/progress-service.ts:76-79 | 0 without lessons; otherwise p·total = 100·completed, so in 0..100 when completed ≤ total |
| ProgressService.Entry | services/progress-service.ts:44-79 | id and title are the course id; total = lessons = records of the course; completed ≤ total; percentage in 0..100 |
| ProgressService.GroupByCourse | services/progress-service.ts:44-73 | after the first loop, the map holds one tally per distinct course, and the key order is the order of first occurrence |
| ProgressService.SetPercentages | services/progress-service.ts:76-79 | the second loop sets every entry's percentage from its counts and keeps the keys |
| ProgressService.GetUserProgress | services/progress-service.ts:39-86 | one entry per distinct course in first-occurrence order, each equal to `Entry` of that course |
| ProgressService.TotalLessonsIsRecordCount | services/progress-service.ts:59-72 | the lesson totals of the entries add up to the number of records |
| ProgressService.EntriesPerCourse | services/progress-service.ts:44-57 | the entries' ids are distinct, cover every record's course, and come in first-occurrence order |
| ProgressService.PutVideoProgress | services/courses-service.ts:392-424 | puts the payload built from its arguments and rethrows a failure |
| ProgressService.SaveVideoProgress | services/progress-service.ts:30-35 | sends the same payload and never fails |
| ProgressService.MarkLessonCompleted | services/progress-service.ts:114-120 | sends the total duration as the current second and as the duration, and rethrows |
| ProgressService.MarkedLessonFullyWatched | services/progress-service.ts:116-120 | in the payload of a completed lesson the current second reaches the duration |
| ProgressService.FindEnrollment | services/progress-service.ts:93 | none exactly when no enrollment has the course id; otherwise the first index that has it |
| ProgressService.GetCourseProgress | services/progress-service.ts:89-105 | null on a failed fetch, on no matching enrollment and on a failed progress call; otherwise the progress of the first matching enrollment |
| HomePage.CoursesToShow | app/home/page.tsx:147 | the enrolled list under "enrolled", all courses otherwise |
| HomePage.FilteredCourses | app/home/page.tsx:149-152 | keeps exactly the courses matching the level, never more than given |
| HomePage.FilteredCoursesAppend | app/home/page.tsx:149-152 | filtering distributes over concatenation, so it keeps the order |
| HomePage.AllLevelsKeepsEverything | app/home/page.tsx:149-152 | level "all" keeps every course |
| HomePage.Levels | app/home/page.tsx:154 | "all" first, then each level of the courses exactly once, in the order of first occurrence |
| HomePage.LevelButtonsSelectSomething | app/home/page.tsx:154 | every level button but "all" selects at least one course |
| HomePage.ComputeStats | app/home/page.tsx:156-161 | counts of both lists, the sum of video minutes, and rating 4.5 iff there are courses (else 0) |
| HomePage.TotalMinutesAppend | app/home/page.tsx:159 | the minutes of two lists add up |
| HomePage.TotalMinutesNonNegative | app/home/page.tsx:159 | non-negative durations give a non-negative total |
| HomePage.EnrolledCourseOf | app/home/page.tsx:66-80 | the enrolled course has the enrollment's course id, title and level, is active, has no roles, and is dated by the enrollment |
| HomePage.EnrollmentsOrNone | app/home/page.tsx:55-58 | a failed enrollment fetch counts as no enrollments |
| HomePage.IsEnrolledIff | app/home/page.tsx:299 | a course shows as enrolled iff some enrollment's course has its id |
| HomePage.ProgressPercent | app/home/page.tsx:97-113 | the enrollment's own percentage when present; otherwise, with videos and summary, p·lessons = 100·completed when there are lessons and 0 when there are none; 0 without data or without videos and summary |
| HomePage.ComputedProgressBounds | app/home/page.tsx:103-106 | the computed percentage is in 0..100 when completed videos do not exceed the lesson count |
| HomePage.ExamStatusOf | app/home/page.tsx:115-123 | approved, with the score, iff the result exists and is approved; otherwise no score |
| HomePage.EnrollmentOutcome | app/home/page.tsx:88-129 | a failed exam check gives 0 and not approved; approval implies an approved result |
| HomePage.FetchPerEnrollment | app/home/page.tsx:86-130 | both maps are keyed by exactly the enrollments' course ids, each holding that course's outcome |
| HomePage.HomePageState.constructor | app/home/page.tsx:23-31 | loading, empty lists and maps, no error, both filters on "all" |
| HomePage.HomePageState.LoadCourses | app/home/page.tsx:44-142 | a failed role query records the message and keeps the lists; otherwise the lists and maps are replaced from the enrollments; loading ends on every path |
| VideoPlayer.ErrorMessage | components/video/html5-video-player.tsx:101-128 | codes 1–4 map to their fixed messages, no error to the unknown-error message, any other code to the generic message |
| VideoPlayer.GenericMessage | components/video/html5-video-player.tsx:123-125 | the generic prefix followed by the element's message, or "Error desconocido" |
| VideoPlayer.UnknownCodesKeepTheirMessage | components/video/html5-video-player.tsx:123-125 | unknown errors with different messages show different texts |
| VideoPlayer.Round | components/video/html5-video-player.tsx:88 | `Math.round`: within half of the input, halves up |
| VideoPlayer.WatchedPercentBounds | components/video/html5-video-player.tsx:85-91 | within the media, the percentage and its rounding lie in 0..100 |
| VideoPlayer.CompletionThreshold | components/video/html5-video-player.tsx:94 | 90 % is reached exactly when 100·time ≥ 90·duration |
| VideoPlayer.Html5VideoPlayer.constructor | components/video/html5-video-player.tsx:21-26 | loading, no error, not completed, 0 % watched, not playing, the handlers registered on the element |
| VideoPlayer.Html5VideoPlayer.HandleLoadStart | components/video/html5-video-player.tsx:47-50 | loading, no error, the rest unchanged; ignored, with nothing changed, once the element on screen carries no handlers |
| VideoPlayer.Html5VideoPlayer.HandleCanPlay | components/video/html5-video-player.tsx:52-62 | loading ends; it plays only with auto-play on a paused element; ignored, with nothing changed, once the element on screen carries no handlers |
| VideoPlayer.Html5VideoPlayer.HandleWaiting | components/video/html5-video-player.tsx:64-66 | loading, the rest unchanged; ignored, with nothing changed, once the element on screen carries no handlers |
| VideoPlayer.Html5VideoPlayer.HandlePlaying | components/video/html5-video-player.tsx:68-71 | not loading, playing; ignored, with nothing changed, once the element on screen carries no handlers |
| VideoPlayer.Html5VideoPlayer.HandlePause | components/video/html5-video-player.tsx:73-75 | not playing, the rest unchanged; ignored, with nothing changed, once the element on screen carries no handlers |
| VideoPlayer.ReloadOnCompletion | components/video/html5-video-player.tsx:35-45 | the handlers' effect reruns, and so calls `load`, exactly when `isCompleted` changes, one of its dependencies at line 153 |
| VideoPlayer.Html5VideoPlayer.HandleEnded | components/video/html5-video-player.tsx:77-83 | completed, 100 %, stopped; `onEnded` then `onComplete`, even when already completed; a first completion then reloads the media; ignored, with nothing changed, once the element on screen carries no handlers |
| VideoPlayer.Html5VideoPlayer.HandleTimeUpdate | components/video/html5-video-player.tsx:85-99 | nothing without a positive duration; otherwise the rounded percentage and one `onProgress`; `onComplete` only on first reaching 90 %, followed by the reload its state change causes; completion never undone; ignored, with nothing changed, once the element on screen carries no handlers |
| VideoPlayer.Html5VideoPlayer.HandleError | components/video/html5-video-player.tsx:101-128 | error shown with `ErrorMessage`, loading and playing end, progress kept; the error card (lines 169-205) unmounts the element and its handlers |
| VideoPlayer.Html5VideoPlayer.HandleRetry | components/video/html5-video-player.tsx:155-163 | error and message cleared, loading; `load` only while an element is attached, so never from the error card, where `videoRef.current` is null; the handlers stay off |
| VideoPlayer.Html5VideoPlayer.HandleRetryIntended | components/video/html5-video-player.tsx:155-163 | the intended retry: error cleared, handlers on the element again, media reloaded |
| VideoPlayer.RetryNeverEndsLoading | components/video/html5-video-player.tsx:153-163 | as written, after an error and a retry, loading never ends and no callback is made, whatever events follow |
| VideoPlayer.IntendedRetryEndsLoading | components/video/html5-video-player.tsx:52-54 | with the intended retry, the next `canplay` ends the loading |
| VideoPlayer.CompletionIsAnnouncedOnce | components/video/html5-video-player.tsx:94-97 | a second update past 90 % after other events calls only `onProgress` |
| LessonTransition.LessonTransitionState.constructor | components/video/lesson-transition.tsx:17-24 | counts down from the delay, 5 by default, not paused |
| LessonTransition.LessonTransitionState.Tick | components/video/lesson-transition.tsx:26-34 | down by exactly 1 while not paused and above 0, otherwise unchanged; never increases |
| LessonTransition.LessonTransitionState.HandlePause | components/video/lesson-transition.tsx:42-44 | paused, countdown frozen |
| LessonTransition.LessonTransitionState.PressLeftButton | components/video/lesson-transition.tsx:100-127 | pauses while counting; cancels only once paused |
| LessonTransition.LessonTransitionState.PressRightButton | components/video/lesson-transition.tsx:46-48 | continues whatever the countdown and pause |
| LessonTransition.LessonTransitionState.TimerArmed | components/video/lesson-transition.tsx:26-34 | armed only while unpaused above 0; while unpaused and not negative, exactly one of armed and auto-continue holds |
| LessonTransition.LessonTransitionState.AutoContinueFires | components/video/lesson-transition.tsx:36-40 | fires only unpaused at exactly 0 |
| LessonTransition.LessonTransitionState.BarWidth | components/video/lesson-transition.tsx:90 | a width exactly when not paused and the delay is non-zero |
| LessonTransition.LessonTransitionState.RunDown | components/video/lesson-transition.tsx:26-40 | left alone, a whole non-negative delay ticks down to exactly 0, where auto-continue fires, after `delay` ticks |
| LessonTransition.CountdownNeverNegative | components/video/lesson-transition.tsx:26-34 | with a whole non-negative delay the countdown stays in 0..delay |
| LessonTransition.FractionalDelayNeverContinues | components/video/lesson-transition.tsx:36-40 | with a fractional delay the countdown skips 0 and auto-continue never fires |
| LessonTransition.BarWidthBounds | components/video/lesson-transition.tsx:90 | while counting, the width is in 0..100 |
| AuthContext.ClearSession | lib/auth-context.tsx:88-90 | the three session keys are removed, every other key kept with its value |
| AuthContext.SaveSession | lib/auth-context.tsx:67-69 | the three keys hold the new values, every other key kept |
| AuthContext.ClearAfterSave | lib/auth-context.tsx:67-90 | logging out after logging in leaves the other keys as they were |
| AuthContext.AuthProvider.constructor | lib/auth-context.tsx:19-22 | nobody signed in, loading |
| AuthContext.AuthProvider.Restore | lib/auth-context.tsx:24-58 | attempted only with both the session token and the user stored; a valid session restores the tokens (the old token, else the session token) and the user; invalid or failed validation clears the keys; loading ends on every path; state and storage stay in agreement |
| AuthContext.AuthProvider.Login | lib/auth-context.tsx:60-77 | true iff the answer succeeds; then state and the three keys are set; otherwise nothing changes |
| AuthContext.AuthProvider.Logout | lib/auth-context.tsx:79-91 | the backend is told only with a non-empty session token; state emptied, the keys removed, the others kept |
| AuthContext.RestoreAfterLogin | lib/auth-context.tsx:24-77 | a session saved by a login is restored by the next mount with the same user and tokens |
| AuthContext.UseAuth | lib/auth-context.tsx:100-106 | the context when inside a provider, the guard's error otherwise |
| AuthService.ToHex | services/auth-service.ts:137 | `toString(16)`: at least one lower-case hex digit |
| AuthService.FromHexToHex | services/auth-service.ts:137 | reading the hex form back gives the number |
| AuthService.ToHexLength | services/auth-service.ts:135-139 | the hex form has at most k digits iff the number is below 16^k |
| AuthService.FromHexLeadingZeros | services/auth-service.ts:135-139 | zeros put in front do not change the value |
| AuthService.PadLeft | services/auth-service.ts:135-139 | zeros in front up to the size, never a cut |
| AuthService.Pad | services/auth-service.ts:135-139 | the loop computes exactly `PadLeft` of the hex form |
| AuthService.GenerateUuidFromId | services/auth-service.ts:133-143 | the padded hex followed by the fixed suffix |
| AuthService.UuidEncodesId | services/auth-service.ts:133-143 | for every non-negative id, the hex part is all digits and reads back as the id, followed by the suffix |
| AuthService.UuidInjective | services/auth-service.ts:133-143 | distinct ids give distinct identifiers |
| AuthService.UuidOfSmallId | services/auth-service.ts:135-142 | below 16^8: 36 characters, first 8 decode to the id, '4' at 14, '8' at 19, dashes at 8, 13, 18, 23 |
| AuthService.UuidOfLargeId | services/auth-service.ts:137-142 | from 16^8 on: longer than 36, nothing cut, version and variant kept counted from the end |
| AuthService.ToLower | services/auth-service.ts:67 | same length, each letter lower-cased |
| AuthService.ToLowerIdempotent | services/auth-service.ts:67 | no upper-case letter remains; lower-casing twice is lower-casing once |
| AuthService.TransformUser | services/auth-service.ts:65-76 | id from the numeric id, login lower-cased, fields renamed, always active |
| AuthService.SameUserWhateverTheCase | services/auth-service.ts:65-76 | logins differing only in case give the same user |
| AuthService.LoginErrorMessage | services/auth-service.ts:95-113 | 401 → credentials, 403 → forbidden, anything else → connection |
| AuthService.Login | services/auth-service.ts:37-114 | rejects no success or an empty token with the connection message; otherwise creates a session for the derived id and returns its token as both tokens; failures carry one of the three messages |
| AuthService.LoginSendsDefaultSessionData | services/auth-service.ts:79-85 | the device data login sends equals the data `createSession` fills in itself |
| AuthService.ValidateToken | services/auth-service.ts:116-122 | true iff validation succeeds with `success` true; never an error |
| AuthService.Logout | services/auth-service.ts:124-130 | never fails |
| SessionsService.GetOS | services/sessions-service.ts:111-131 | each answer iff its own test holds and every earlier test fails |
| SessionsService.ListedPlatformsAreNotLinux | services/sessions-service.ts:114-116 | no listed platform contains "Linux" |
| SessionsService.AndroidBeforeLinux | services/sessions-service.ts:124-127 | an Android user agent on a Linux platform is Android |
| SessionsService.DigitRun | services/sessions-service.ts:141 | the maximal run of leading digits (`\d+`) |
| SessionsService.VersionAtStart | services/sessions-service.ts:141 | `\d+\.\d+` at the start: a version that begins the string and is not followed by a digit |
| SessionsService.MatchVersion | services/sessions-service.ts:147 | a captured group is always a version |
| SessionsService.MatchVersionOfToken | services/sessions-service.ts:141 | a version right after the prefix, not followed by a digit, is the one captured |
| SessionsService.VersionOr | services/sessions-service.ts:141 | the captured version or "Unknown" |
| SessionsService.Browser | services/sessions-service.ts:136-160 | each name holds exactly when its marker occurs and no earlier marker does, in the order Firefox, SamsungBrowser, Opera/OPR, Trident, Edge, Chrome, Safari; "Unknown" iff no marker occurs; the version is the one captured by that name's own pattern, or "Unknown" |
| SessionsService.GetBrowserInfo | services/sessions-service.ts:162 | name, a space, then the version, which has no space |
| SessionsService.FirefoxFirst | services/sessions-service.ts:139-141 | any user agent naming Firefox is Firefox |
| SessionsService.ChromeBeforeSafari | services/sessions-service.ts:154-159 | naming Chrome and Safari (and no earlier marker) gives Chrome |
| SessionsService.EdgeBeforeChrome | services/sessions-service.ts:151-156 | naming Edge and Chrome (and no earlier marker) gives Edge |
| SessionsService.DefaultSessionData | services/sessions-service.ts:26-32 | "web", ip "unknown", place "Unknown", and the detected browser and system |
| SessionsService.CreateSessionRequest | services/sessions-service.ts:24-33 | the given data, or the defaults when none is given |
| SessionsService.ValidateSession | services/sessions-service.ts:55-71 | true iff the call succeeds with `success` the boolean true |
| Certificate.CoordinatorTitle | components/certificate/template-certificate.tsx:17 | "Coordinador" only when the prop is absent (the template never displays it) |
| Certificate.CertificateType | components/certificate/template-certificate.tsx:18 | "CERTIFICADO DE RECONOCIMIENTO" only when the prop is absent |
| Certificate.TitleLines | components/certificate/template-certificate.tsx:22-23 | the first word has no space and begins the type; the second line is never empty |
| Certificate.TitleLinesRoundTrip | components/certificate/template-certificate.tsx:22-23 | with a non-empty rest, first word + " " + second line is the type |
| Certificate.SingleWordTitle | components/certificate/template-certificate.tsx:22-23 | a type without a space is the first word, over the default second line |
| Certificate.SecondLineDefaultIff | components/certificate/template-certificate.tsx:23 | the default second line is used iff there is no space, or the only space is the last character |
| Certificate.SplitAfterWord | components/certificate/template-certificate.tsx:22 | splitting after a space-free word gives the word, then the split of the rest |
| Certificate.TwoPartTitle | components/certificate/template-certificate.tsx:22-23 | a word and a non-empty rest joined by a space split back into exactly those |
| Certificate.DefaultTitle | components/certificate/template-certificate.tsx:18-23 | the default type shows "CERTIFICADO" over "DE RECONOCIMIENTO" |
| Certificate.DisplayedFirstWord | components/certificate/template-certificate.tsx:90 | never empty, no space |
| Certificate.FirstWordEmptyIff | components/certificate/template-certificate.tsx:90 | the first word is empty iff the type is empty or starts with a space |
| Certificate.ShowQR | components/certificate/template-certificate.tsx:24 | the QR block shows exactly for a present, non-empty URL |
| Certificate.CertificateIdLabel | components/certificate/template-certificate.tsx:129-131 | "ID: " + id exactly when the QR is shown and the id is non-empty |
| Sequences.JoinSplit | components/certificate/template-certificate.tsx:22-23 | `split` then `join` with the same separator gives the string back |

## Left out

- HTTP transport (axios, URLs, headers, response shapes) is not modelled. Each backend call is replaced by its outcome, passed in as a parameter.
- `coursesService.verificarExamenAprobado` is not part of this model. Its answer is a parameter of the home page's loading.
- `Math.random` in the shuffle: each step's index is any `j` in `0 .. i`. Uniformity is not stated.
- The 200 ms `setTimeout` and `isAnimating` of the one-question quiz are left out. Each handler runs to completion.
- `setInterval` in the lesson transition is the `Tick` method, called once per second while armed.
- Floating point: scores use exact integer arithmetic. Video times, percentages and the countdown use exact reals. `Math.round` is `floor(x + 1/2)`.
- `parseFloat` of the exam's pass threshold is left out, because both components hard-code 70.
- Rendering, styling and the UI-only files are left out. These are the pages other than home, the headers, the course cards, the quiz access cards and quiz-component.tsx, a wrapper over a third-party survey library with the same scoring rule.
- The certificate generator and download (PDF and canvas) are left out. So is the QR image URL.
- `JSON.stringify`/`JSON.parse` of the stored user are a pair of functions assumed to round-trip. A stored value that does not parse back to a user is treated as a parse failure, including `null` and non-object JSON.
- `new Date()` and `lastUpdated` of the progress entries, and console logging, are left out.
- `toLowerCase` is modelled for the ASCII letters only.
- `toString(16)` is modelled for integer ids only. A negative id gets a minus sign; a fractional id is not modelled.
- The enumeration order of `Object.entries` is left arbitrary.
- The `Promise.all` fan-out, and the races between the restore effect and a login, are left out. Each handler is atomic.
- AuthContext.AuthProvider.Restore: requires that nobody is signed in, because the effect runs once at mount, before any login.
- `getUserSessions` and `closeSession` of the sessions service are left out, as are the services' module and certificate endpoints, which only forward HTTP calls.
- `validateSession`'s `success` field is an `Option<bool>`: `None` stands for an absent or non-boolean field.
- HomePage.ComputeStats: `totalHours` is the sum of minutes, as the source computes it. No conversion to hours is stated.
- HomePage.ProgressPercent: `progresoPorcentaje` is declared `string` (services/courses-service.ts:110 and 142) and assigned unconverted; the model takes it as a number. A string value is not modelled.
- HomePage.ProgressPercent: a `null` `progresoPorcentaje` passes the `!== undefined` test and is stored as the progress; the model's `Option` treats it as absent and falls through to the computed percentage.
- The `load` that the video player's effect performs on mount is not returned as an effect; nor are the reruns (and reloads) caused by the parent passing a new `src` or new callback identities, which come from outside the player. Such a rerun would also register the handlers on a remounted element again; the model keeps them off once the error card has shown.
- The typeform quiz's screen selection (welcome, question, completed) is modelled. The markup of each screen is not.

## Findings

| source | as written | input that shows it | evidently intended | confidence | as-written member | corrected member |
|---|---|---|---|---|---|---|
| components/quiz/typeform-quiz-component.tsx:179 | the completion screen's "correct answers" figure is `Math.round(score / 100 * totalQuestions)`, where `totalQuestions` counts all questions, graded or not | one free-text question and two graded questions, both answered right: score 100, figure shown 3 | the number of graded questions answered correctly (2), whose rounded share is the score | medium, not executed | QuizModel.ShownCorrectAsWritten | QuizModel.ShownCorrect |
| components/video/html5-video-player.tsx:155-163 | the error card holds no `<video>`, so at the retry `videoRef.current` is null and `load` is skipped; the `<video>` mounted again gets no handlers, since no dependency of the effect at line 153 changed | an `error` event, then "Reintentar": the spinner (lines 227-234) stays on and later `canplay`, `timeupdate` and `ended` events reach no handler | the retry reloads the media and the handlers listen again, so the next `canplay` ends the loading | medium, not executed | VideoPlayer.RetryNeverEndsLoading | VideoPlayer.Html5VideoPlayer.HandleRetryIntended |
