# Trishul Tales — quiz, leaderboard and panchang logic in Dafny

Trishul Tales is a React web app about Hindu culture. It serves timed quizzes,
keeps a leaderboard of saved scores, shows a daily panchang (tithi, nakshatra,
yoga, festivals, muhurats), and lists articles and shlokas. This project models
the decision logic behind those screens and proves properties of it:

- **quiz service** (`quiz_service.dfy`, module `QuizService`): fetched questions
  have their newline-separated options split; random questions are limited to the
  requested count; a score row gets its defaults; the saved record is the first
  successful result. The leaderboard fetches the ten records with the highest raw
  score and sorts them by score ratio, highest first, with ties kept in fetched
  order. Each entry gets rank `i + 1` and a rounded
  percentage.
- **quiz page** (`quiz_page.dfy`, module `QuizPage`): the score is counted from
  the recorded answers. The `QuizSession` class holds the page's state and
  updates it through its handlers: answer select, next, previous, submit, name
  submit and the one-second timer tick. The module also covers the timer display
  `mm:ss`, the random-quiz time limit and the certificate tier.
- **panchang service** (`panchang_service.dfy`, module `PanchangService`): a row is
  normalised. Festival text is split at commas, trimmed, and blanks are dropped.
  Muhurat text is parsed as JSON. The module also covers the auspicious periods of
  a day, festival muhurats, and the weekly and monthly collection loops.
- **app shell and pages**: the user reducer and the sign-in redirect (`app.dfy`);
  the quiz list filters (`quiz_list_page.dfy`); the blog grid that leaves out the
  featured article (`blog_page.dfy`); the case-insensitive shloka search
  (`shlok_page.dfy`); the active navigation link (`header.dfy`); the leaderboard
  styling and the share text (`leaderboard_page.dfy`); an option button's style
  and letter (`quiz_option.dfy`).

Two support modules hold the generic parts. `Seqs` has `Option`, `Filter`, a
stable insertion sort `SortBy`, and subsequences. `Text` covers JavaScript's
`trim`, `split` and `join`, ASCII `toLowerCase` and `toUpperCase`, `includes`,
`startsWith`, and decimal strings.

JavaScript values that may be absent (`null`, `undefined`) are `Option`s. A field
that may arrive in two shapes is a datatype with one constructor per shape:
options as text or as a list, festivals as text, a list or nothing. Calls to the
database, `JSON.parse`, the clock and the URL are parameters of the functions
that use them.

Behaviour of the code worth noting:
- A record with `total_questions` 0 is not rejected. Its percentage is
  JavaScript's `NaN` or `Infinity` (`QuizService.Percent`).
- Unanswered questions are not always counted as wrong. The page compares
  `answers[i]` with a field that fetched questions do not have. See Findings.
- A question may have any number of options, not exactly four.

## Model

| member | source | states |
|---|---|---|
| QuizService.SplitOptions | src/services/api/quizService.js:199-202 | Only the options change. Text options become a list; joining the list with newlines gives the text back, and there is one more item than the text has newlines. List options pass through unchanged. |
| QuizService.QuestionsFromRows | src/services/api/quizService.js:195-202 | No rows gives no questions. Otherwise there is one question per row, in order, each with its options split. |
| QuizService.QuestionsFromRowsKeepFields | src/services/api/quizService.js:199-202 | The fetched `correct_answer` survives the split, and a fetched question (one without `correctAnswer`) stays that way. |
| QuizService.FetchedPage | src/services/api/quizService.js:223-231 | A fetch with a limit and offset 0 returns the table's first rows: as many as the limit, or the whole table when it is shorter. |
| QuizService.RandomQuestions | src/services/api/quizService.js:213-241 | The page of twice the count is shuffled and cut to `count`. The quiz therefore gets exactly `count` questions whenever the table has at least `count` rows, and otherwise all of them. Question i is the i-th shuffled row with its options split. A null response gives none. |
| QuizService.RandomQuestionsFromPage | src/services/api/quizService.js:223-241 | Every random question is one of the table's first `2 * count` rows with its options split, whatever order the shuffle chose. |
| QuizService.ScoreRow | src/services/api/quizService.js:317-327 | The inserted row never has an empty name or category. An empty name becomes "Anonymous User" and an empty category becomes "Hindu Culture". Score and total are copied, and the completion time is the clock's value. |
| QuizService.ScoreRowIgnoresAgeGroup | src/services/api/quizService.js:317-327 | The age group of a submission is not stored: two submissions differing only there give the same row. |
| QuizService.SavedScore | src/services/api/quizService.js:331-349 | A record comes back iff the response succeeded and one of its results succeeded. It is the data of the first successful result. |
| QuizService.SortByRatio | src/services/api/quizService.js:390 | The sorted leaderboard is a permutation of the fetched rows. |
| QuizService.RatioAtLeastTransitive | src/services/api/quizService.js:390 | The comparator (`b.score/b.total - a.score/a.total`, cross-multiplied) is transitive for positive totals. |
| QuizService.InsertSorted | src/services/api/quizService.js:390 | Inserting a record into a list ordered by ratio keeps it ordered. |
| QuizService.SortByRatioSorted | src/services/api/quizService.js:390 | After sorting, ratios never increase along the list. |
| QuizService.SortByRatioStable | src/services/api/quizService.js:390 | Records with equal ratios keep their fetched relative order (a stable sort). |
| Seqs.SortByStable | src/services/api/quizService.js:390 | Generic stability: records a test picks out keep their relative order if the ordering already agreed with it on them. |
| QuizService.Leaderboard | src/services/api/quizService.js:384-390 | The leaderboard is built from the fetched page of score rows. No data gives an empty leaderboard; otherwise it is a permutation of the page. |
| QuizService.LeaderboardAtMostTen | src/services/api/quizService.js:370-390 | The page is the score table's ten highest raw scores, so the leaderboard has one entry per fetched row: at most ten, and exactly ten when the table has at least ten rows. |
| QuizService.LeftOutScoresNoHigher | src/services/api/quizService.js:370-384 | Rows are chosen by raw score, not by ratio: a table row left off the page scores no higher than any entry on the board, whatever its ratio. |
| QuizService.RoundedPercentage | src/services/api/quizService.js:410 | `Math.round(score / total * 100)` is the integer nearest to the exact ratio, with halves rounded up, for either sign of total. A total of 0 gives NaN or ±Infinity by the sign of the score. |
| QuizService.PercentageBounds | src/services/api/quizService.js:410 | A score between 0 and the positive total gives a percentage between 0 and 100. |
| QuizService.PercentageMonotone | src/services/api/quizService.js:410 | A higher ratio never gets a lower rounded percentage. |
| QuizService.RankEntries | src/services/api/quizService.js:407-414 | One entry per sorted record. Entry i has rank i + 1, the aliases `userName`, `totalQuestions` and `completedAt`, and the record's rounded percentage. |
| QuizService.RanksAreOneToN | src/services/api/quizService.js:407-409 | The ranks are exactly 1..N and strictly increase. |
| QuizService.RealTimeLeaderboardOrdered | src/services/api/quizService.js:386-414 | With positive totals the leaderboard has one entry per row, ranked 1..N, ordered by ratio with ties in fetched order, and its finite percentages never increase. |
| QuizService.LeaderboardScenario | src/services/api/quizService.js:390-414 | Records 8/10 then 9/10 rank 9/10 first at 90% and 8/10 second at 80%. |
| QuizPage.CorrectCount | src/components/pages/QuizPage.jsx:160-164 | The correct answers among the first n questions number at most n. |
| QuizPage.Score | src/components/pages/QuizPage.jsx:158-164 | A score never exceeds the number of questions. |
| QuizPage.ComputeScore | src/components/pages/QuizPage.jsx:158-164 | The counting loop returns the score, which is at most the number of questions. |
| QuizPage.NothingCorrectScoresZero | src/components/pages/QuizPage.jsx:160-163 | If no question is answered correctly, the count is 0. |
| QuizPage.AllCorrectScoresFull | src/components/pages/QuizPage.jsx:160-163 | If every question is answered correctly, the count is the number of questions. |
| QuizPage.UnansweredAddNothing | src/components/pages/QuizPage.jsx:161 | When every question has the compared field, the score is at most the number of answered questions, so unanswered questions count as wrong. |
| QuizPage.AsWrittenScoreCountsUnanswered | src/components/pages/QuizPage.jsx:161 | For fetched questions, comparing against `correctAnswer` makes the score exactly the number of UNANSWERED questions. |
| QuizPage.AsWrittenKeyMissesCorrectAnswers | src/components/pages/QuizPage.jsx:161 | Two fetched questions both answered correctly score 0 with the page's field and 2 with the fetched field. |
| QuizPage.ScoreScenario | src/components/pages/QuizPage.jsx:158-164 | Correct options 1, 0, 2 answered 1, 1, 2 score 2. |
| QuizPage.RestoredSelection | src/components/pages/QuizPage.jsx:143-153 | Moving to a question restores its stored choice, except that a stored option 0 reads as no choice. |
| QuizPage.TimeLimitSeconds | src/components/pages/QuizPage.jsx:68 | The time limit in seconds is a whole number of minutes: it divides back to the duration. |
| QuizPage.RandomQuiz | src/components/pages/QuizPage.jsx:84-90 | The random quiz lasts 15 minutes for kids and 20 otherwise. Its question count is the number loaded, and it keeps the age group and an empty category. |
| QuizPage.RandomQuizTimeLeft | src/components/pages/QuizPage.jsx:91 | The timer starts at the random quiz's time limit: 900 seconds for kids, 1200 otherwise. |
| QuizPage.RandomQuizQuestions | src/components/pages/QuizPage.jsx:81 | A random quiz has at most 20 questions, and exactly 20 when the question table has at least 20 rows. |
| QuizPage.RandomQuizIgnoresAgeGroup | src/components/pages/QuizPage.jsx:81 | The age group the page passes to `getRandomQuestions` is ignored: the service takes only a count (quizService.js:213), so kids and adults with the same table and shuffle get the same questions. |
| QuizPage.QuizSession.constructor | src/components/pages/QuizPage.jsx:18-32 | A session starts on question 0 with no answers, no score, no result or name prompt shown, and the loaded time limit. |
| QuizPage.QuizSession.AnswerSelect | src/components/pages/QuizPage.jsx:130-138 | While the result is shown nothing changes. Otherwise the choice is stored for the current question, replacing an earlier one, and every other question's answer is unchanged. |
| QuizPage.QuizSession.SubmitQuiz | src/components/pages/QuizPage.jsx:158-168 | The score becomes the count of correct answers and the name prompt opens. Nothing else changes. |
| QuizPage.QuizSession.NextQuestion | src/components/pages/QuizPage.jsx:140-148 | Before the last question it moves forward and restores that question's choice. On the last question it submits. The current question stays a valid index. |
| QuizPage.QuizSession.PreviousQuestion | src/components/pages/QuizPage.jsx:150-156 | Past the first question it moves back and restores that question's choice. On the first question nothing changes. |
| QuizPage.QuizSession.SetUserName | src/components/pages/QuizPage.jsx:327 | Typing changes only the name. |
| QuizPage.QuizSession.NameSubmit | src/components/pages/QuizPage.jsx:170-187 | A name that is blank after trimming changes nothing and saves nothing. Otherwise the quiz completes, the prompt closes, and the submission carries the trimmed non-empty name, the score, the question count, and the category and age group defaulted to "General". |
| QuizPage.QuizSession.Tick | src/components/pages/QuizPage.jsx:41-54 | With no timer or a completed quiz nothing changes. At zero seconds the quiz is submitted. Otherwise one second is taken off. |
| QuizPage.JsRemainder | src/components/pages/QuizPage.jsx:196 | JavaScript `%` with a positive divisor: the result differs from the dividend by a multiple of the divisor. It equals the mathematical remainder for a non-negative dividend and lies in (-divisor, 0] for a negative one, which fixes its value. |
| QuizPage.PadStart2 | src/components/pages/QuizPage.jsx:197 | `padStart(2, "0")`: a string shorter than two characters gets leading '0's up to length two and ends with the original. A longer one is unchanged. |
| QuizPage.PaddedSecondsReadBack | src/components/pages/QuizPage.jsx:197 | The padded seconds field is two digits that read back as the seconds. |
| QuizPage.FormatTimeRoundTrip | src/components/pages/QuizPage.jsx:194-198 | Reading the `m:ss` display back gives the number of seconds formatted. |
| QuizPage.CertificateTier | src/components/pages/QuizPage.jsx:200-223 | The tier matches the percentage bands exactly: at least 90%, 70–90%, 50–70%, below 50%. With no questions any positive score is top tier. A full score is top tier and a zero score is the lowest. |
| QuizPage.CertificateMonotone | src/components/pages/QuizPage.jsx:204-220 | A higher score never gets a lower certificate. |
| PanchangService.FestivalNames | src/services/api/panchangService.js:89-90 | Every festival name is non-empty and has no surrounding whitespace. There are at most commas + 1 of them. |
| PanchangService.ParseFestivals | src/services/api/panchangService.js:89-91 | Festival text is split into names, a list passes through, and a missing field gives none. |
| PanchangService.FestivalsRoundTrip | src/services/api/panchangService.js:89-91 | Names without commas or surrounding whitespace, joined with commas, parse back to the same names. |
| PanchangService.BlankFestivalText | src/services/api/panchangService.js:89-90 | Text made only of whitespace and commas gives no festivals. |
| PanchangService.ParseMuhurats | src/services/api/panchangService.js:92-94 | Muhurat text that is empty gives none; other text is parsed as JSON. A list passes through, and a missing field gives none. |
| PanchangService.NormalizePanchang | src/services/api/panchangService.js:84-95 | Normalising fails exactly when the muhurat JSON does not parse. Otherwise every other field is copied and festivals and muhurats are parsed. |
| PanchangService.PanchangFromResponse | src/services/api/panchangService.js:71-95 | A failed or empty response gives null. Otherwise the result is the first row, normalised. |
| PanchangService.AuspiciousPeriods | src/services/api/panchangService.js:185-205 | The Siddha period appears iff the yoga is Siddha or Siddhi. The nakshatra period appears iff the nakshatra is Pushya or Rohini. There are at most two periods, Siddha first, and none without a panchang. |
| PanchangService.FestivalMuhurats | src/services/api/panchangService.js:163-169 | A day's muhurats are returned only when it has festivals. |
| PanchangService.BlankFestivalsHaveNoMuhurats | src/services/api/panchangService.js:163-169 | A row whose festival text is blank has no festival muhurats. |
| PanchangService.Collected | src/services/api/panchangService.js:140-147 | At most one record is collected per day. |
| PanchangService.CollectedInDayOrder | src/services/api/panchangService.js:140-147 | The collected records are exactly those of the days that have one, each day once and in day order. |
| PanchangService.WeeklyPanchang | src/services/api/panchangService.js:138-149 | The week's loop collects the records of days 0..6 that exist: at most seven, in day order. |
| PanchangService.MonthlyPanchang | src/services/api/panchangService.js:219-229 | The month's loop collects the records of days 1..daysInMonth that exist, in day order. |
| App.UserReducer | src/App.jsx:36-53 | Setting stores the payload and authenticates iff it is present. Clearing returns the initial state from any state. Other actions leave the state as it was, or give the initial state when there is none. |
| App.ReducerKeepsConsistent | src/App.jsx:20-53 | "Authenticated iff a user is stored" holds initially and after every action. |
| App.SetThenClear | src/App.jsx:36-56 | Clearing after setting returns to the initial state. Setting the same user twice is the same as once. |
| App.IsAuthPage | src/App.jsx:172-174 | A page is an auth page iff its path and query contain one of the six auth fragments. |
| App.AuthPageBySubstring | src/App.jsx:172-174 | The test is by substring: a login URL and "/blog/error-handling" count as auth pages, and "/quiz" does not. |
| App.OnSuccess | src/App.jsx:170-184 | Without a user nothing happens. With one, the user is dispatched. A non-empty redirect is followed; otherwise an auth page goes to "/" and any other page stays. |
| App.SignInAuthenticates | src/App.jsx:170-184 | After a successful sign-in the store holds that user and is authenticated, whatever it held before. |
| QuizListPage.FilterQuizzes | src/components/pages/QuizListPage.jsx:56-68 | The two narrowing steps give the quizzes that match both selections. |
| QuizListPage.BothNarrowingSteps | src/components/pages/QuizListPage.jsx:59-65 | Narrowing by category then by difficulty equals the single combined filter. |
| QuizListPage.CategoryStepOnly | src/components/pages/QuizListPage.jsx:59-61 | With every difficulty, only the category step applies. |
| QuizListPage.DifficultyStepOnly | src/components/pages/QuizListPage.jsx:63-65 | With every category, only the difficulty step applies. |
| QuizListPage.ShownQuizzes | src/components/pages/QuizListPage.jsx:56-68 | The shown quizzes are exactly the matching ones, in the original order. With both selections at "All", every quiz is shown. |
| QuizListPage.ClearFilters | src/components/pages/QuizListPage.jsx:168-171 | After clearing, the Clear button is hidden. |
| QuizListPage.ClearingShowsEverything | src/components/pages/QuizListPage.jsx:164-171 | After clearing, every quiz is shown. |
| BlogPage.FeaturedArticle | src/components/pages/BlogPage.jsx:116 | The featured article is the first one, and there is none when the list is empty. |
| BlogPage.GridContents | src/components/pages/BlogPage.jsx:124-126 | The grid holds exactly the articles of the chosen category other than the featured one, in the original order. |
| BlogPage.FeaturedNotInGrid | src/components/pages/BlogPage.jsx:116-126 | The featured article (the first one) never appears in the grid, whatever category is selected. |
| BlogPage.ResetShowsAllButFeatured | src/components/pages/BlogPage.jsx:251-257 | The empty view's button resets the category so that every article but the featured one is listed. |
| ShlokPage.FilteredShlokas | src/components/pages/ShlokPage.jsx:43-48 | The results are exactly the shlokas whose Sanskrit, Hindi or English text or source contains the search term, compared in lower case, in archive order. |
| ShlokPage.EmptySearchKeepsAll | src/components/pages/ShlokPage.jsx:43-48 | An empty search lists the whole archive. |
| ShlokPage.SearchIgnoresCase | src/components/pages/ShlokPage.jsx:43-48 | Under ASCII case folding, searching the term in upper or lower case gives the same results. |
| Header.ActiveCases | src/components/organisms/Header.jsx:26-29 | Home is active only on "/". Any other link is active iff the path starts with its href. |
| Header.PrefixIgnoresSegments | src/components/organisms/Header.jsx:28 | The prefix test also lights the quiz link on "/quizzes", and not on "/". |
| Header.NavigationPathsUnrelated | src/components/organisms/Header.jsx:17-24 | No navigation href other than home is a prefix of another. |
| Header.AtMostOneActive | src/components/organisms/Header.jsx:17-29 | At most one navigation link is active at a time. |
| LeaderboardPage.RankTables | src/components/pages/LeaderboardPage.jsx:44-60 | Ranks 1–3 have distinct icons and colours, none of them the default. |
| LeaderboardPage.TopThreeStyled | src/components/pages/LeaderboardPage.jsx:128-179 | An entry gets the special card, the progress bar and a podium icon iff it is among the first three. |
| LeaderboardPage.EmptyOrShare | src/components/pages/LeaderboardPage.jsx:24-195 | On the leaderboard the page loads, the empty view shows exactly when no score row was fetched and the share button exactly when one was. The page always shows exactly one of the two. |
| LeaderboardPage.Top | src/components/pages/LeaderboardPage.jsx:205 | The shared entries are the first ten, or all of them when there are fewer. |
| LeaderboardPage.MedalNumbering | src/components/pages/LeaderboardPage.jsx:209 | The first three lines get a medal. Later ones get their position "n." and read back as index + 1. |
| LeaderboardPage.ShareLines | src/components/pages/LeaderboardPage.jsx:208-211 | There is one line per shared entry, and line i describes entry i. |
| LeaderboardPage.BuildShareText | src/components/pages/LeaderboardPage.jsx:205-213 | The text built by the loop is the header, the lines in order, and the footer. |
| LeaderboardPage.ShareTextListsTopTen | src/components/pages/LeaderboardPage.jsx:205-213 | Each of the first ten entries' lines appears in the shared text. |
| QuizOption.StyleTable | src/components/molecules/QuizOption.jsx:13-35 | Once results are shown, the correct option is green, a wrong selection red, and the rest grey. Before that a selection is highlighted, and correctness does not affect the style. A button is disabled exactly while it shows one of the three result styles. |
| QuizOption.OptionLetter | src/components/molecules/QuizOption.jsx:42 | Option i is labelled with character code 65 + i, a capital letter for the first 26. |
| QuizOption.LetterRoundTrip | src/components/molecules/QuizOption.jsx:42 | The label reads back as its index, and the first option is "A". |
| QuizOption.FirstOptionLosesHighlight | src/components/pages/QuizPage.jsx:143 | Returning to a question answered with option 0 shows that option unhighlighted, although the answer is still stored. |

## Left out

- Shuffling the random questions (`sort(() => 0.5 - Math.random())`, quizService.js:237) is randomness. `RandomQuestions` takes the shuffle as a parameter and requires only that it reorders: it keeps every row as often as it occurs.
- SortByRatio: the engine's in-place `Array.prototype.sort` is modelled as a stable insertion sort on a sequence. Mutation of the fetched array in place is not captured.
- SortByRatio: order and stability are proved only for positive totals (`SortByRatioSorted`, `SortByRatioStable`, `RealTimeLeaderboardOrdered`).
  - A record with total 0 makes the comparator return NaN, so the engine's order is implementation-defined; the model's cross-multiplied test orders such records one fixed way.
  - A negative total sorts the opposite way from JavaScript: 1/1 and 1/-1 come out as [1/-1, 1/1], where JavaScript puts 1/1 first.
  - The page saves `questions.length` as the total, so a negative total never arises from it. A total of 0 arises only from a quiz with no questions.
- IsTopScorePage: the platform's server-side selection is given as a property of the fetched page, not computed. Which of several equally scored rows it returns at the tenth place is left open.
- RoundedPercentage: computed in exact arithmetic. Floating-point ratios that land just below a half (for example 29/200) can round differently in JavaScript.
- Text.Lower and Text.Upper fold only ASCII letters. JavaScript's full Unicode `toLowerCase` is not modelled.
- ShlokPage.SearchIgnoresCase: holds for that ASCII folding only. With JavaScript's full case mapping it fails for some terms. For example, `'ß'.toUpperCase()` is "SS", so searching "ß" and searching its upper case give different results.
- The random panchang fallback in panchangService.js:98-124 is not modelled. It is unreachable, because the function returns null earlier (lines 79-82).
- Database, authentication SDK and network calls, `setTimeout` delays and `async` ordering are not modelled. Their results enter as parameters (`Option` rows, success flags, `fetch` functions).
- `JSON.parse` of the muhurat text is a parameter (`parseJson`). A parse failure is its `None`, which stands for the thrown error.
- Dates are not modelled. The week's and month's day offsets are integers, `daysInMonth` is a parameter, and `completed_at` is the clock's string passed in.
- `URLSearchParams` is not modelled: the `redirect` query value is a parameter of `OnSuccess`.
- QuizOption.OptionLetter requires 65 + index below 0xD800, where `String.fromCharCode` would produce surrogate code units that a Dafny `char` cannot hold.
- Clipboard, Web Share and the WhatsApp URL encoding of the share text are not modelled. Only the text itself is.
- Toast messages, animations, routing and markup other than the decisions listed above are not modelled.
- `loadQuiz` and `loadQuizWithAge` fetching a quiz by id are left out: they are database reads. The session starts from the loaded questions and time limit.
- The static article, shloka, quiz and navigation data beyond their fields are left out. The navigation hrefs are kept, because `AtMostOneActive` depends on them.
- `showResult` is never set to true anywhere on the quiz page. The session keeps the field and the handlers' behaviour when it is true.

## Findings

| source | as written | input that shows it | evidently intended | confidence | as-written member | corrected member |
|---|---|---|---|---|---|---|
| src/components/pages/QuizPage.jsx:161 | The score compares `answers[i] === questions[i].correctAnswer`. Fetched questions carry `correct_answer` (quizService.js:37) and no `correctAnswer`, so an unanswered question (`undefined === undefined`) counts as correct and an answered one never does. | Two fetched questions with `correct_answer` 1, both answered 1: the page scores 0 where 2 is right. With nothing answered it scores 2. | Compare against the field the questions actually carry (`correct_answer`), so that a question scores iff its recorded answer equals the correct option. | not executed | QuizPage.AsWrittenScoreCountsUnanswered | QuizPage.UnansweredAddNothing |
