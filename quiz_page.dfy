/** The quiz session of the quiz page: selecting answers, moving between
    questions, submitting (counting the correct answers), the name prompt that
    completes the quiz, the one-second timer step, the clock display and the
    certificate tier. */
module QuizPage {
  import opened Seqs
  import opened Text
  import opened QuizService

  // ---------------------------------------------------------------- scoring

  /** Which field of a question holds its correct option: the page reads
      `correctAnswer`, the service fetches `correct_answer`. */
  datatype AnswerKey = CamelCaseKey | SnakeCaseKey

  /** `question.correctAnswer` or `question.correct_answer`; `None` is `undefined`. */
  function CorrectIndex(q: Question, key: AnswerKey): Option<int>
  {
    match key
    case CamelCaseKey => q.correctAnswer
    case SnakeCaseKey => q.correct_answer
  }

  /** `answers[i]`: `undefined` (`None`) when question i has no answer. */
  function AnswerAt(answers: map<int, int>, i: int): Option<int>
  {
    if i in answers then Some(answers[i]) else None
  }

  /** `answers[i] === questions[i][key]`; `undefined === undefined` holds as well. */
  predicate IsCorrect(questions: seq<Question>, answers: map<int, int>, key: AnswerKey, i: int)
    requires 0 <= i < |questions|
  {
    AnswerAt(answers, i) == CorrectIndex(questions[i], key)
  }

  /** The number of correct answers among the first n questions. */
  function CorrectCount(questions: seq<Question>, answers: map<int, int>, key: AnswerKey, n: nat): (c: nat)
    requires n <= |questions|
    ensures c <= n
  {
    if n == 0 then 0
    else CorrectCount(questions, answers, key, n - 1) + (if IsCorrect(questions, answers, key, n - 1) then 1 else 0)
  }

  /** The score of a submission: the indices i with `answers[i] === questions[i][key]`. */
  function Score(questions: seq<Question>, answers: map<int, int>, key: AnswerKey): (c: nat)
    ensures c <= |questions|
  {
    CorrectCount(questions, answers, key, |questions|)
  }

  /** The number of the first n questions that have an answer. */
  function AnsweredCount(questions: seq<Question>, answers: map<int, int>, n: nat): (c: nat)
    requires n <= |questions|
    ensures c <= n
  {
    if n == 0 then 0 else AnsweredCount(questions, answers, n - 1) + (if n - 1 in answers then 1 else 0)
  }

  /** The `forEach` of `handleSubmitQuiz`, incrementing `calculatedScore`. */
  method ComputeScore(questions: seq<Question>, answers: map<int, int>, key: AnswerKey)
    returns (calculatedScore: nat)
    ensures calculatedScore == Score(questions, answers, key)
    ensures calculatedScore <= |questions|
  {
    calculatedScore := 0;
    var index := 0;
    while index < |questions|
      invariant 0 <= index <= |questions|
      invariant calculatedScore == CorrectCount(questions, answers, key, index)
    {
      if AnswerAt(answers, index) == CorrectIndex(questions[index], key) {
        calculatedScore := calculatedScore + 1;
      }
      index := index + 1;
    }
  }

  /** No correct answer scores 0. */
  lemma {:induction false} NothingCorrectScoresZero(questions: seq<Question>, answers: map<int, int>, key: AnswerKey, n: nat)
    requires n <= |questions|
    requires forall i :: 0 <= i < n ==> !IsCorrect(questions, answers, key, i)
    ensures CorrectCount(questions, answers, key, n) == 0
  {
    if n > 0 {
      NothingCorrectScoresZero(questions, answers, key, n - 1);
    }
  }

  /** Every answer correct scores the number of questions. */
  lemma {:induction false} AllCorrectScoresFull(questions: seq<Question>, answers: map<int, int>, key: AnswerKey, n: nat)
    requires n <= |questions|
    requires forall i :: 0 <= i < n ==> IsCorrect(questions, answers, key, i)
    ensures CorrectCount(questions, answers, key, n) == n
  {
    if n > 0 {
      AllCorrectScoresFull(questions, answers, key, n - 1);
    }
  }

  /** When every question carries its correct index under `key`, an unanswered
      question adds nothing: the score is at most the number answered. */
  lemma {:induction false} UnansweredAddNothing(questions: seq<Question>, answers: map<int, int>, key: AnswerKey, n: nat)
    requires n <= |questions|
    requires forall i :: 0 <= i < |questions| ==> CorrectIndex(questions[i], key).Some?
    ensures CorrectCount(questions, answers, key, n) <= AnsweredCount(questions, answers, n)
  {
    if n > 0 {
      UnansweredAddNothing(questions, answers, key, n - 1);
    }
  }

  /** As written: on the rows the service returns (no `correctAnswer` field), the page's
      comparison `answers[i] === question.correctAnswer` holds exactly for the
      unanswered questions, so the score counts the questions left unanswered. */
  lemma {:induction false} AsWrittenScoreCountsUnanswered(questions: seq<Question>, answers: map<int, int>, n: nat)
    requires n <= |questions|
    requires forall i :: 0 <= i < |questions| ==> AsFetched(questions[i])
    ensures CorrectCount(questions, answers, CamelCaseKey, n) == n - AnsweredCount(questions, answers, n)
  {
    if n > 0 {
      AsWrittenScoreCountsUnanswered(questions, answers, n - 1);
    }
  }

  /** Two fetched questions with correct option 1, both answered 1: the page's key
      scores 0, the fetched column scores 2. */
  lemma AsWrittenKeyMissesCorrectAnswers()
    ensures var q := Question(1, "q", OptionsList(["a", "b"]), Some(1), None, "c", "easy", "adults", 1);
            var answers := map[0 := 1, 1 := 1];
            Score([q, q], answers, CamelCaseKey) == 0 && Score([q, q], answers, SnakeCaseKey) == 2
  {
  }

  /** Correct options 1, 0, 2 answered 1, 1, 2 score 2. */
  lemma ScoreScenario()
    ensures var q0 := Question(0, "a", OptionsList([]), Some(1), None, "", "", "", 1);
            var q1 := q0.(correct_answer := Some(0));
            var q2 := q0.(correct_answer := Some(2));
            Score([q0, q1, q2], map[0 := 1, 1 := 1, 2 := 2], SnakeCaseKey) == 2
  {
    var q0 := Question(0, "a", OptionsList([]), Some(1), None, "", "", "", 1);
    var qs := [q0, q0.(correct_answer := Some(0)), q0.(correct_answer := Some(2))];
    var answers := map[0 := 1, 1 := 1, 2 := 2];
    assert CorrectCount(qs, answers, SnakeCaseKey, 1) == 1;
    assert CorrectCount(qs, answers, SnakeCaseKey, 2) == 1;
  }

  /** `answers[i] || null`: the stored choice, except that option 0 (falsy) reads as
      no choice. */
  function RestoredSelection(answers: map<int, int>, i: int): (r: Option<int>)
    ensures r == (if AnswerAt(answers, i) == Some(0) then None else AnswerAt(answers, i))
  {
    if i in answers && answers[i] != 0 then Some(answers[i]) else None
  }

  // ---------------------------------------------------------------- loading

  /** `duration * 60`: a quiz's time limit in seconds. */
  function TimeLimitSeconds(durationMinutes: int): (seconds: int)
    ensures durationMinutes >= 0 ==> seconds >= 0 && seconds / 60 == durationMinutes && seconds % 60 == 0
  {
    durationMinutes * 60
  }

  /** The quiz object `loadRandomQuiz` makes; the category is absent (""). */
  datatype QuizInfo = QuizInfo(title: string, duration: int, questionCount: int, ageGroup: string, category: string)

  /** `loadRandomQuiz(ageGroup)` after `getRandomQuestions(20, ageGroup)` returned `questions`. */
  function RandomQuiz(ageGroup: string, questions: seq<Question>): (quiz: QuizInfo)
    ensures quiz.duration == (if ageGroup == "kids" then 15 else 20)
    ensures quiz.questionCount == |questions| && quiz.ageGroup == ageGroup && quiz.category == ""
  {
    QuizInfo(
      "Hindu Mythology Quiz - " + (if ageGroup == "kids" then "Kids" else "Adults"),
      if ageGroup == "kids" then 15 else 20,
      |questions|,
      ageGroup,
      "")
  }

  /** `setTimeLeft((ageGroup === 'kids' ? 15 : 20) * 60)`. */
  function RandomQuizTimeLeft(ageGroup: string): (seconds: int)
    ensures seconds == TimeLimitSeconds(RandomQuiz(ageGroup, []).duration)
    ensures seconds == (if ageGroup == "kids" then 900 else 1200)
  {
    (if ageGroup == "kids" then 15 else 20) * 60
  }

  /** The questions of a random quiz: `getRandomQuestions(20, ageGroup)`, whose
      signature has no age-group parameter. */
  function RandomQuizQuestions(ageGroup: string, table: Option<seq<Question>>,
                               shuffle: seq<Question> -> seq<Question>): (r: seq<Question>)
    requires IsShuffle(shuffle)
    ensures |r| <= 20
    ensures table.Some? && |table.value| >= 20 ==> |r| == 20
  {
    RandomQuestions(DefaultRandomCount, table, shuffle)
  }

  /** The age group chosen for a random quiz does not change its questions. */
  lemma RandomQuizIgnoresAgeGroup(kids: string, adults: string, table: Option<seq<Question>>,
                                  shuffle: seq<Question> -> seq<Question>)
    requires IsShuffle(shuffle)
    ensures RandomQuizQuestions(kids, table, shuffle) == RandomQuizQuestions(adults, table, shuffle)
  {
  }

  // ---------------------------------------------------------------- session

  /** The component state the handlers change. */
  datatype SessionState = SessionState(
    currentQuestion: int,
    selectedAnswer: Option<int>,
    answers: map<int, int>,
    showResult: bool,
    score: int,
    timeLeft: Option<int>,
    quizCompleted: bool,
    showNameModal: bool,
    userName: string)

  const DefaultSubmissionField := "General"

  /** A loaded quiz being taken. `questions`, the quiz's category and the chosen age
      group are fixed once loading has finished. */
  class QuizSession {
    const key: AnswerKey
    const questions: seq<Question>
    const quizCategory: string
    const selectedAgeGroup: string

    var currentQuestion: int
    var selectedAnswer: Option<int>
    var answers: map<int, int>
    var showResult: bool
    var score: int
    var timeLeft: Option<int>
    var quizCompleted: bool
    var showNameModal: bool
    var userName: string

    /** The current question is a valid index (0 when there are none) and the score
        lies in 0..questions.length. */
    ghost predicate Valid()
      reads this
    {
      0 <= currentQuestion &&
      (currentQuestion < |questions| || currentQuestion == 0) &&
      0 <= score <= |questions|
    }

    function State(): SessionState
      reads this
    {
      SessionState(currentQuestion, selectedAnswer, answers, showResult, score,
                   timeLeft, quizCompleted, showNameModal, userName)
    }

    /** The state once the questions and the time limit have been loaded. */
    constructor (key: AnswerKey, questions: seq<Question>, timeLeft: Option<int>,
                 quizCategory: string, selectedAgeGroup: string)
      ensures Valid()
      ensures this.key == key && this.questions == questions
      ensures this.quizCategory == quizCategory && this.selectedAgeGroup == selectedAgeGroup
      ensures State() == SessionState(0, None, map[], false, 0, timeLeft, false, false, "")
    {
      this.key := key;
      this.questions := questions;
      this.quizCategory := quizCategory;
      this.selectedAgeGroup := selectedAgeGroup;
      currentQuestion := 0;
      selectedAnswer := None;
      answers := map[];
      showResult := false;
      score := 0;
      this.timeLeft := timeLeft;
      quizCompleted := false;
      showNameModal := false;
      userName := "";
    }

    /** `handleAnswerSelect`: stores the choice under the current question, replacing
        an earlier one; a no-op while the result is shown. */
    method AnswerSelect(answerIndex: int)
      requires Valid()
      modifies this
      ensures Valid()
      ensures old(showResult) ==> State() == old(State())
      ensures !old(showResult) ==>
                State() == old(State()).(selectedAnswer := Some(answerIndex),
                                         answers := old(answers)[old(currentQuestion) := answerIndex])
      ensures !old(showResult) ==>
                AnswerAt(answers, currentQuestion) == Some(answerIndex) &&
                forall i :: i != currentQuestion ==> AnswerAt(answers, i) == AnswerAt(old(answers), i)
    {
      if showResult {
        return;
      }
      selectedAnswer := Some(answerIndex);
      answers := answers[currentQuestion := answerIndex];
    }

    /** `handleSubmitQuiz`: counts the correct answers and opens the name prompt. */
    method SubmitQuiz()
      requires Valid()
      modifies this
      ensures Valid()
      ensures State() == old(State()).(score := Score(questions, answers, key), showNameModal := true)
    {
      var calculatedScore := ComputeScore(questions, answers, key);
      score := calculatedScore;
      showNameModal := true;
    }

    /** `handleNextQuestion`: forward unless on the last question, where it submits. */
    method NextQuestion()
      requires Valid()
      modifies this
      ensures Valid()
      ensures old(currentQuestion) < |questions| - 1 ==>
                State() == old(State()).(currentQuestion := old(currentQuestion) + 1,
                                         selectedAnswer := RestoredSelection(old(answers), old(currentQuestion) + 1),
                                         showResult := false)
      ensures old(currentQuestion) >= |questions| - 1 ==>
                State() == old(State()).(score := Score(questions, old(answers), key), showNameModal := true)
    {
      if currentQuestion < |questions| - 1 {
        selectedAnswer := RestoredSelection(answers, currentQuestion + 1);
        currentQuestion := currentQuestion + 1;
        showResult := false;
      } else {
        SubmitQuiz();
      }
    }

    /** `handlePreviousQuestion`: back one question unless on the first. */
    method PreviousQuestion()
      requires Valid()
      modifies this
      ensures Valid()
      ensures old(currentQuestion) > 0 ==>
                State() == old(State()).(currentQuestion := old(currentQuestion) - 1,
                                         selectedAnswer := RestoredSelection(old(answers), old(currentQuestion) - 1),
                                         showResult := false)
      ensures old(currentQuestion) == 0 ==> State() == old(State())
    {
      if currentQuestion > 0 {
        selectedAnswer := RestoredSelection(answers, currentQuestion - 1);
        currentQuestion := currentQuestion - 1;
        showResult := false;
      }
    }

    /** The name input's `onChange`. */
    method SetUserName(name: string)
      requires Valid()
      modifies this
      ensures Valid()
      ensures State() == old(State()).(userName := name)
    {
      userName := name;
    }

    /** `handleNameSubmit`: a name that is blank after trimming is rejected and nothing
        changes; otherwise the quiz is completed and the returned submission (what is
        passed to `saveScore`) carries the trimmed name and the number of questions. */
    method NameSubmit() returns (submission: Option<ScoreSubmission>)
      requires Valid()
      modifies this
      ensures Valid()
      ensures Trim(old(userName)) == "" ==> submission == None && State() == old(State())
      ensures Trim(old(userName)) != "" ==>
                State() == old(State()).(showNameModal := false, quizCompleted := true) &&
                submission == Some(ScoreSubmission(
                  Trim(old(userName)), old(score), |questions|,
                  OrDefault(quizCategory, DefaultSubmissionField),
                  OrDefault(selectedAgeGroup, DefaultSubmissionField)))
      ensures submission.Some? ==> submission.value.userName != "" && submission.value.totalQuestions == |questions|
    {
      var name := Trim(userName);
      if name == "" {
        return None;
      }
      showNameModal := false;
      quizCompleted := true;
      submission := Some(ScoreSubmission(
        name, score, |questions|,
        OrDefault(quizCategory, DefaultSubmissionField),
        OrDefault(selectedAgeGroup, DefaultSubmissionField)));
    }

    /** One second of the timer effect: nothing while the time is unset or the quiz is
        completed; at zero or below the quiz is submitted; otherwise one second less.
        The page's effect runs once per change of the time or the completion flag, so
        it never repeats a tick at zero; a repeated call here submits again, which
        recomputes the same score. */
    method Tick()
      requires Valid()
      modifies this
      ensures Valid()
      ensures old(timeLeft).None? || old(quizCompleted) ==> State() == old(State())
      ensures old(timeLeft).Some? && !old(quizCompleted) && old(timeLeft).value > 0 ==>
                State() == old(State()).(timeLeft := Some(old(timeLeft).value - 1))
      ensures old(timeLeft).Some? && !old(quizCompleted) && old(timeLeft).value <= 0 ==>
                State() == old(State()).(score := Score(questions, old(answers), key), showNameModal := true)
    {
      if timeLeft.None? || quizCompleted {
        return;
      }
      if timeLeft.value <= 0 {
        SubmitQuiz();
        return;
      }
      timeLeft := Some(timeLeft.value - 1);
    }
  }

  // ---------------------------------------------------------------- display

  /** JavaScript `a % b` for b > 0: the remainder takes the sign of `a`. */
  function JsRemainder(a: int, b: int): (r: int)
    requires b > 0
    ensures a >= 0 ==> 0 <= r < b && r == a % b
    ensures a < 0 ==> -b < r <= 0
    ensures (a - r) % b == 0
  {
    if a >= 0 then
      MultipleHasNoRemainder(a / b, b);
      a % b
    else
      TruncatedRemainder(a, b);
      -((-a) % b)
  }

  /** For a negative `a`, `a` and the negated remainder of `-a` differ by a multiple
      of `b`. */
  lemma TruncatedRemainder(a: int, b: int)
    requires a < 0 && b > 0
    ensures (a + (-a) % b) % b == 0
  {
    var q := (-a) / b;
    assert a + (-a) % b == (-q) * b;
    MultipleHasNoRemainder(-q, b);
  }

  /** A multiple of `b` leaves remainder 0. */
  lemma MultipleHasNoRemainder(k: int, b: int)
    requires b > 0
    ensures (k * b) % b == 0
  {
    var x := k * b;
    var d := k - x / b;
    assert d * b == x % b by {
      assert x == (x / b) * b + x % b;
      assert d * b == k * b - (x / b) * b;
    }
    MultiplyPositive(d, 1, b);
    MultiplyPositive(-1, d, b);
  }

  /** `s.padStart(2, "0")`. */
  function PadStart2(s: string): (r: string)
    ensures |s| >= 2 ==> r == s
    ensures |s| < 2 ==> |r| == 2 && r[2 - |s|..] == s
    ensures |s| < 2 ==> forall i :: 0 <= i < 2 - |s| ==> r[i] == '0'
  {
    if |s| >= 2 then s else seq(2 - |s|, _ => '0') + s
  }

  /** `formatTime(seconds)`: `Math.floor(seconds / 60)`, a colon, then
      `seconds % 60` padded to two digits. */
  function FormatTime(seconds: int): string
  {
    var mins := seconds / 60;
    var secs := JsRemainder(seconds, 60);
    IntToString(mins) + ":" + PadStart2(IntToString(secs))
  }

  /** Reads a clock `m:ss` back into seconds. */
  function ParseClock(clock: string): Option<nat>
  {
    var parts := Split(clock, ':');
    if |parts| == 2 && AllDigits(parts[0]) && AllDigits(parts[1]) && |parts[1]| == 2
    then Some(60 * ParseNat(parts[0]) + ParseNat(parts[1]))
    else None
  }

  lemma DigitsHaveNoColon(s: string)
    requires AllDigits(s)
    ensures ':' !in s
  {
    assert forall i :: 0 <= i < |s| ==> IsDigit(s[i]);
  }

  /** The seconds field: two digits reading back as the seconds. */
  lemma PaddedSecondsReadBack(secs: nat)
    requires secs < 60
    ensures var b := PadStart2(NatToString(secs));
            |b| == 2 && AllDigits(b) && ParseNat(b) == secs
  {
    var digits := NatToString(secs);
    var b := PadStart2(digits);
    ParseNatToString(secs);
    if secs < 10 {
      assert b == ['0'] + digits;
      assert b[..1] == ['0'];
      assert b[1] == digits[0];
    } else {
      assert b == digits;
    }
  }

  /** For a non-negative time the clock shows minutes, a colon and exactly two digits
      of seconds, and 60 * minutes + seconds gives the time back. */
  lemma FormatTimeRoundTrip(seconds: nat)
    ensures ParseClock(FormatTime(seconds)) == Some(seconds)
  {
    var mins, secs := seconds / 60, seconds % 60;
    var a := NatToString(mins);
    var b := PadStart2(NatToString(secs));
    assert FormatTime(seconds) == a + [':'] + b;
    DigitsHaveNoColon(a);
    PaddedSecondsReadBack(secs);
    DigitsHaveNoColon(b);
    SplitAfterPiece(a, b, ':');
    SplitNoSeparator(b, ':');
    assert Split(FormatTime(seconds), ':') == [a, b];
    ParseNatToString(mins);
  }

  /** The certificate the completed quiz shows, by percentage. */
  datatype Certificate = ScriptureScholar | DevotedSeeker | StudiousDevotee | BeginningSeeker

  /** How high a certificate stands, 3 for the top tier. */
  function Level(c: Certificate): nat
  {
    match c
    case ScriptureScholar => 3
    case DevotedSeeker => 2
    case StudiousDevotee => 1
    case BeginningSeeker => 0
  }

  /** `(score / total) * 100 >= percent` in exact arithmetic. With no questions the
      quotient is NaN (score 0), which fails every test, or +Infinity (score > 0). */
  predicate PercentAtLeast(score: nat, total: nat, percent: nat)
  {
    if total > 0 then 100 * score >= percent * total else score > 0
  }

  /** `getCertificateMessage`: tests 90%, 70% and 50% in that order, else the fourth tier. */
  function CertificateTier(score: nat, total: nat): (c: Certificate)
    ensures total > 0 ==> (c == ScriptureScholar <==> 10 * score >= 9 * total)
    ensures total > 0 ==> (c == DevotedSeeker <==> 7 * total <= 10 * score < 9 * total)
    ensures total > 0 ==> (c == StudiousDevotee <==> 5 * total <= 10 * score < 7 * total)
    ensures total > 0 ==> (c == BeginningSeeker <==> 10 * score < 5 * total)
    ensures total == 0 ==> (c == ScriptureScholar <==> score > 0) && (c == BeginningSeeker <==> score == 0)
    ensures total > 0 && score == total ==> c == ScriptureScholar
    ensures score == 0 ==> c == BeginningSeeker
  {
    if PercentAtLeast(score, total, 90) then ScriptureScholar
    else if PercentAtLeast(score, total, 70) then DevotedSeeker
    else if PercentAtLeast(score, total, 50) then StudiousDevotee
    else BeginningSeeker
  }

  /** A higher score never earns a lower certificate. */
  lemma CertificateMonotone(low: nat, high: nat, total: nat)
    requires low <= high
    ensures Level(CertificateTier(low, total)) <= Level(CertificateTier(high, total))
  {
  }

  /** The emoji of each tier: trophy, glowing star, books, folded hands. */
  function CertificateEmoji(c: Certificate): string
  {
    match c
    case ScriptureScholar => "\U{1F3C6}"
    case DevotedSeeker => "\U{1F31F}"
    case StudiousDevotee => "\U{1F4DA}"
    case BeginningSeeker => "\U{1F64F}"
  }
}
