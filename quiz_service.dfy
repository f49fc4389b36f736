/** The record transforms of the quiz service: splitting a question's options,
    taking the random questions, building and saving a score row, and turning the
    fetched score rows into the ranked leaderboard. Every fetch from the data
    platform is abstracted as the rows it returned (`None` when the response or
    its data is missing). */
module QuizService {
  import opened Seqs
  import opened Text

  // ---------------------------------------------------------------- questions

  /** The `options` column: one newline-separated text, or an already split list. */
  datatype OptionsField = OptionsText(text: string) | OptionsList(items: seq<string>)

  /** A row of the `question` table. The table's answer column is `correct_answer`;
      `correctAnswer` is the field the quiz page reads, which no fetched row has
      (`None` on every row the service returns, see `AsFetched`). */
  datatype Question = Question(
    id: int,
    question: string,
    options: OptionsField,
    correct_answer: Option<int>,
    correctAnswer: Option<int>,
    category: string,
    difficulty: string,
    age_group: string,
    quiz_id: int)

  /** A row as the platform returns it: only the requested columns are present. */
  predicate AsFetched(q: Question)
  {
    q.correctAnswer == None
  }

  /** `{...q, options: typeof q.options === 'string' ? q.options.split('\n') : q.options}`. */
  function SplitOptions(q: Question): (r: Question)
    ensures r.(options := q.options) == q
    ensures q.options.OptionsList? ==> r == q
    ensures q.options.OptionsText? ==>
              r.options.OptionsList? &&
              Join(r.options.items, '\n') == q.options.text &&
              |r.options.items| == Occurrences(q.options.text, '\n') + 1
  {
    match q.options
    case OptionsText(t) =>
      JoinSplit(t, '\n');
      q.(options := OptionsList(Split(t, '\n')))
    case OptionsList(_) => q
  }

  /** What `getQuestions` and `getQuestionsByAge` return for the rows fetched. */
  function QuestionsFromRows(rows: Option<seq<Question>>): (r: seq<Question>)
    ensures rows.None? ==> r == []
    ensures rows.Some? ==> |r| == |rows.value|
    ensures rows.Some? ==> forall i :: 0 <= i < |r| ==> r[i] == SplitOptions(rows.value[i])
  {
    if rows.None? || rows.value == [] then []
    else seq(|rows.value|, i requires 0 <= i < |rows.value| => SplitOptions(rows.value[i]))
  }

  /** Splitting keeps every field except `options`, and so keeps `AsFetched`. */
  lemma QuestionsFromRowsKeepFields(rows: seq<Question>, i: int)
    requires 0 <= i < |rows|
    ensures QuestionsFromRows(Some(rows))[i].correct_answer == rows[i].correct_answer
    ensures AsFetched(rows[i]) ==> AsFetched(QuestionsFromRows(Some(rows))[i])
  {
    var r := QuestionsFromRows(Some(rows))[i];
    assert r.(options := rows[i].options) == rows[i];
  }

  /** `getRandomQuestions(count = 20)`. */
  const DefaultRandomCount: nat := 20

  /** The page size `getRandomQuestions(count)` requests: twice the count, so the
      shuffle draws from a pool at least as large as what is kept. */
  function RandomQuestionsLimit(count: nat): (limit: nat)
    ensures limit >= count
  {
    count * 2
  }

  /** The rows a fetch with `limit` and offset 0 returns: the table's first `limit`. */
  function FetchedPage(table: seq<Question>, limit: nat): (page: seq<Question>)
    ensures |page| == (if |table| < limit then |table| else limit)
    ensures forall j :: 0 <= j < |page| ==> page[j] == table[j]
  {
    if |table| < limit then table else table[..limit]
  }

  /** A shuffle only reorders: it keeps every row as often as it occurs. */
  ghost predicate IsShuffle(shuffle: seq<Question> -> seq<Question>)
  {
    forall s :: multiset(shuffle(s)) == multiset(s)
  }

  /** `getRandomQuestions(count)`: the page of `2 * count` rows fetched from `table`
      (`None` when the response is null), reordered by `shuffle`, cut to its first
      `count` rows, with the options split. */
  function RandomQuestions(count: nat, table: Option<seq<Question>>,
                           shuffle: seq<Question> -> seq<Question>): (r: seq<Question>)
    requires IsShuffle(shuffle)
    ensures |r| <= count
    ensures table.None? ==> r == []
    ensures table.Some? ==> |r| == (if |table.value| < count then |table.value| else count)
    ensures table.Some? && |table.value| >= count ==> |r| == count
    ensures table.Some? ==>
              var shuffled := shuffle(FetchedPage(table.value, RandomQuestionsLimit(count)));
              forall i :: 0 <= i < |r| ==> i < |shuffled| && r[i] == SplitOptions(shuffled[i])
  {
    if table.None? then []
    else
      var page := FetchedPage(table.value, RandomQuestionsLimit(count));
      var shuffled := shuffle(page);
      assert |shuffled| == |page| by {
        assert |multiset(shuffled)| == |multiset(page)|;
      }
      var n := if |shuffled| < count then |shuffled| else count;
      seq(n, i requires 0 <= i < n => SplitOptions(shuffled[i]))
  }

  /** Every random question is one of the first `2 * count` rows of the table, with
      its options split. */
  lemma RandomQuestionsFromPage(count: nat, table: seq<Question>,
                                shuffle: seq<Question> -> seq<Question>, i: nat)
    requires IsShuffle(shuffle)
    requires i < |RandomQuestions(count, Some(table), shuffle)|
    ensures exists j :: 0 <= j < |table| && j < RandomQuestionsLimit(count) &&
                        RandomQuestions(count, Some(table), shuffle)[i] == SplitOptions(table[j])
  {
    var page := FetchedPage(table, RandomQuestionsLimit(count));
    var shuffled := shuffle(page);
    assert multiset(shuffled) == multiset(page);
    assert shuffled[i] in multiset(page);
    var j :| 0 <= j < |page| && page[j] == shuffled[i];
    assert table[j] == shuffled[i];
  }

  // ---------------------------------------------------------------- saving a score

  /** The object the quiz page passes to `saveScore`. */
  datatype ScoreSubmission = ScoreSubmission(
    userName: string,
    score: int,
    totalQuestions: int,
    category: string,
    ageGroup: string)

  /** A row of the `quiz_score` table. */
  datatype ScoreRecord = ScoreRecord(
    id: int,
    user_name: string,
    score: int,
    total_questions: int,
    category: string,
    completed_at: string)

  /** The record `saveScore` sends to `createRecord`. */
  datatype NewScoreRow = NewScoreRow(
    user_name: string,
    score: int,
    total_questions: int,
    category: string,
    completed_at: string)

  const AnonymousUser := "Anonymous User"
  const DefaultScoreCategory := "Hindu Culture"

  /** JavaScript `s || fallback` on a string: the empty string is the falsy one. */
  function OrDefault(s: string, fallback: string): (r: string)
    ensures s != "" ==> r == s
    ensures s == "" ==> r == fallback
  {
    if s == "" then fallback else s
  }

  /** The one record `saveScore` builds; `now` is `new Date().toISOString()`. */
  function ScoreRow(submission: ScoreSubmission, now: string): (r: NewScoreRow)
    ensures r.user_name != "" && r.category != ""
    ensures submission.userName != "" ==> r.user_name == submission.userName
    ensures submission.userName == "" ==> r.user_name == AnonymousUser
    ensures submission.category != "" ==> r.category == submission.category
    ensures submission.category == "" ==> r.category == DefaultScoreCategory
    ensures r.score == submission.score && r.total_questions == submission.totalQuestions
    ensures r.completed_at == now
  {
    NewScoreRow(
      OrDefault(submission.userName, AnonymousUser),
      submission.score,
      submission.totalQuestions,
      OrDefault(submission.category, DefaultScoreCategory),
      now)
  }

  /** The age group of a submission is not persisted. */
  lemma ScoreRowIgnoresAgeGroup(submission: ScoreSubmission, ageGroup: string, now: string)
    ensures ScoreRow(submission.(ageGroup := ageGroup), now) == ScoreRow(submission, now)
  {
  }

  /** One entry of `response.results`. */
  datatype CreateResult = CreateResult(success: bool, data: ScoreRecord)

  /** The response of `createRecord`. */
  datatype CreateResponse = CreateResponse(success: bool, message: string, results: Option<seq<CreateResult>>)

  function IsSuccessful(): CreateResult -> bool
  {
    (result: CreateResult) => result.success
  }

  /** Some entry of the response's results succeeded. */
  predicate HasSuccessfulResult(response: CreateResponse)
  {
    response.results.Some? &&
    exists i :: 0 <= i < |response.results.value| && response.results.value[i].success
  }

  /** The value of `saveScore`: the data of the first successful result, `null` when
      the response is unsuccessful, has no results or has no successful one.
      `response` is `None` when `createRecord` threw. */
  function SavedScore(response: Option<CreateResponse>): (r: Option<ScoreRecord>)
    ensures r.Some? <==> response.Some? && response.value.success && HasSuccessfulResult(response.value)
    ensures r.Some? ==>
              var results := response.value.results.value;
              exists i :: 0 <= i < |results| && results[i].success && results[i].data == r.value &&
                          forall j :: 0 <= j < i ==> !results[j].success
  {
    if response.None? || !response.value.success || response.value.results.None? then None
    else
      var results := response.value.results.value;
      var successful := Filter(results, IsSuccessful());
      if |successful| > 0 then
        FilterFirst(results, IsSuccessful());
        Some(successful[0].data)
      else
        assert !HasSuccessfulResult(response.value) by {
          FilterMembers(results, IsSuccessful());
          forall i | 0 <= i < |results| ensures !results[i].success {
            assert results[i] in results;
            assert IsSuccessful()(results[i]) == results[i].success;
          }
        }
        None
  }

  // ---------------------------------------------------------------- leaderboard

  /** `a.score / a.total_questions >= b.score / b.total_questions`, cross-multiplied:
      exact when both totals are positive. */
  predicate RatioAtLeast(a: ScoreRecord, b: ScoreRecord)
  {
    a.score * b.total_questions >= b.score * a.total_questions
  }

  /** The two records have the same accuracy ratio. */
  predicate SameRatio(a: ScoreRecord, b: ScoreRecord)
  {
    a.score * b.total_questions == b.score * a.total_questions
  }

  predicate PositiveTotals(s: seq<ScoreRecord>)
  {
    forall i :: 0 <= i < |s| ==> s[i].total_questions > 0
  }

  /** Highest ratio first: every record's ratio is at least that of every later one. */
  predicate SortedByRatio(s: seq<ScoreRecord>)
  {
    forall i, j :: 0 <= i < j < |s| ==> RatioAtLeast(s[i], s[j])
  }

  /** `data.sort((a, b) => (b.score / b.total_questions) - (a.score / a.total_questions))`:
      a stable sort, highest ratio first. */
  function SortByRatio(s: seq<ScoreRecord>): (r: seq<ScoreRecord>)
    ensures multiset(r) == multiset(s)
  {
    SortBy(s, RatioAtLeast)
  }

  lemma MultiplyPositive(x: int, y: int, k: int)
    requires k > 0
    ensures x >= y ==> x * k >= y * k
  {
  }

  lemma CancelPositive(x: int, y: int, k: int)
    requires k > 0
    ensures x * k >= y * k ==> x >= y
  {
    if x < y {
      assert (y - x) * k > 0;
    }
  }

  /** With positive totals, "ratio at least" is transitive. */
  lemma {:induction false} RatioAtLeastTransitive(a: ScoreRecord, b: ScoreRecord, c: ScoreRecord)
    requires a.total_questions > 0 && b.total_questions > 0 && c.total_questions > 0
    requires RatioAtLeast(a, b) && RatioAtLeast(b, c)
    ensures RatioAtLeast(a, c)
  {
    var sa, ta, sb, tb, sc, tc := a.score, a.total_questions, b.score, b.total_questions, c.score, c.total_questions;
    MultiplyPositive(sa * tb, sb * ta, tc);
    MultiplyPositive(sb * tc, sc * tb, ta);
    assert sa * tb * tc >= sb * ta * tc;
    assert sb * tc * ta >= sc * tb * ta;
    assert (sa * tc) * tb >= (sc * ta) * tb by {
      assert (sa * tc) * tb == sa * tb * tc;
      assert (sc * ta) * tb == sc * tb * ta;
      assert sb * ta * tc == sb * tc * ta;
    }
    CancelPositive(sa * tc, sc * ta, tb);
  }

  /** With positive totals, equal ratio is transitive. */
  lemma {:induction false} SameRatioTransitive(a: ScoreRecord, b: ScoreRecord, c: ScoreRecord)
    requires a.total_questions > 0 && b.total_questions > 0 && c.total_questions > 0
    ensures SameRatio(a, b) && SameRatio(b, c) ==> SameRatio(a, c)
  {
    if SameRatio(a, b) && SameRatio(b, c) {
      RatioAtLeastTransitive(a, b, c);
      RatioAtLeastTransitive(c, b, a);
    }
  }

  lemma {:induction false} InsertSorted(x: ScoreRecord, s: seq<ScoreRecord>)
    requires x.total_questions > 0 && PositiveTotals(s) && SortedByRatio(s)
    ensures SortedByRatio(InsertBy(x, s, RatioAtLeast))
  {
    var r := InsertBy(x, s, RatioAtLeast);
    if s == [] {
    } else if RatioAtLeast(x, s[0]) {
      forall j | 1 <= j < |r| ensures RatioAtLeast(r[0], r[j]) {
        if j > 1 {
          RatioAtLeastTransitive(x, s[0], s[j - 1]);
        }
      }
    } else {
      var rest := InsertBy(x, s[1..], RatioAtLeast);
      InsertSorted(x, s[1..]);
      forall j | 0 <= j < |rest| ensures RatioAtLeast(s[0], rest[j]) {
        if rest[j] != x {
          assert rest[j] in multiset(rest);
          assert rest[j] in multiset(s[1..]);
          var k :| 0 <= k < |s[1..]| && s[1..][k] == rest[j];
          assert s[k + 1] == rest[j];
        }
      }
    }
  }

  lemma SortKeepsTotalsPositive(s: seq<ScoreRecord>)
    requires PositiveTotals(s)
    ensures PositiveTotals(SortByRatio(s))
  {
    var t := SortByRatio(s);
    forall i | 0 <= i < |t| ensures t[i].total_questions > 0 {
      assert t[i] in multiset(t);
      assert t[i] in multiset(s);
      var k :| 0 <= k < |s| && s[k] == t[i];
    }
  }

  /** The leaderboard order is non-increasing in ratio. */
  lemma {:induction false} SortByRatioSorted(s: seq<ScoreRecord>)
    requires PositiveTotals(s)
    ensures SortedByRatio(SortByRatio(s))
  {
    if s != [] {
      SortByRatioSorted(s[1..]);
      var t := SortByRatio(s[1..]);
      SortKeepsTotalsPositive(s[1..]);
      InsertSorted(s[0], t);
    }
  }

  /** The records whose ratio equals that of `key`. */
  function SameRatioAs(key: ScoreRecord): ScoreRecord -> bool
  {
    r => SameRatio(r, key)
  }

  /** The sort is stable: the records of each ratio keep their fetched relative order. */
  lemma SortByRatioStable(s: seq<ScoreRecord>, key: ScoreRecord)
    requires PositiveTotals(s) && key.total_questions > 0
    ensures Filter(SortByRatio(s), SameRatioAs(key)) == Filter(s, SameRatioAs(key))
  {
    var p := SameRatioAs(key);
    forall i, j | 0 <= i < j < |s| && p(s[i]) && p(s[j]) ensures RatioAtLeast(s[i], s[j]) {
      SameRatioTransitive(s[i], key, s[j]);
    }
    SortByStable(s, RatioAtLeast, p);
  }

  /** `getLeaderboard`: `rows` is the page the fetch returned (`None` for a null
      response); no rows gives `[]`, otherwise the rows sorted by ratio. */
  function Leaderboard(rows: Option<seq<ScoreRecord>>): (r: seq<ScoreRecord>)
    ensures rows.None? ==> r == []
    ensures rows.Some? ==> multiset(r) == multiset(rows.value)
  {
    if rows.None? || rows.value == [] then [] else SortByRatio(rows.value)
  }

  /** The page size `getLeaderboard` asks for. */
  const ScorePageLimit: nat := 10

  /** What a fetch of the score table ordered by `score` descending with limit 10
      returns: ten of its rows (all of them when it has fewer), highest score first,
      and no row left out scores higher than a row returned. Among equal scores the
      platform's choice is left open. */
  ghost predicate IsTopScorePage(table: seq<ScoreRecord>, page: seq<ScoreRecord>)
  {
    |page| == (if |table| < ScorePageLimit then |table| else ScorePageLimit) &&
    multiset(page) <= multiset(table) &&
    (forall i, j :: 0 <= i < j < |page| ==> page[i].score >= page[j].score) &&
    (forall r, i :: r in multiset(table) - multiset(page) && 0 <= i < |page| ==> r.score <= page[i].score)
  }

  /** The leaderboard has one entry per fetched row: never more than ten, and exactly
      ten when the score table has at least ten rows. */
  lemma LeaderboardAtMostTen(table: seq<ScoreRecord>, page: seq<ScoreRecord>)
    requires IsTopScorePage(table, page)
    ensures |RealTimeLeaderboard(Some(page))| == |page| <= ScorePageLimit
    ensures |table| >= ScorePageLimit ==> |RealTimeLeaderboard(Some(page))| == ScorePageLimit
  {
    assert |Leaderboard(Some(page))| == |page| by {
      assert |multiset(Leaderboard(Some(page)))| == |multiset(page)|;
    }
  }

  /** The rows are chosen by raw score, not by ratio: a row of the table that was not
      fetched scores no higher than any entry on the board, whatever its ratio. */
  lemma LeftOutScoresNoHigher(table: seq<ScoreRecord>, page: seq<ScoreRecord>, r: ScoreRecord, k: nat)
    requires IsTopScorePage(table, page)
    requires r in multiset(table) - multiset(page)
    requires k < |RealTimeLeaderboard(Some(page))|
    ensures r.score <= RealTimeLeaderboard(Some(page))[k].record.score
  {
    var sorted := Leaderboard(Some(page));
    assert |sorted| == |page| by {
      assert |multiset(sorted)| == |multiset(page)|;
    }
    var e := sorted[k];
    assert e in multiset(sorted);
    assert e in multiset(page);
    var i :| 0 <= i < |page| && page[i] == e;
  }

  /** A JavaScript number produced by `Math.round`: an integer, or not finite. */
  datatype Percent = Finite(value: int) | NotANumber | PlusInfinity | MinusInfinity

  /** `Math.round((score / total) * 100)`, that is floor(100 * score / total + 1/2),
      in exact arithmetic. */
  function RoundedPercentage(score: int, total: int): (r: Percent)
    ensures total != 0 <==> r.Finite?
    ensures total > 0 ==> 2 * total * r.value <= 200 * score + total < 2 * total * (r.value + 1)
    ensures total < 0 ==> -2 * total * r.value <= -(200 * score + total) < -2 * total * (r.value + 1)
    ensures total == 0 ==> (r == PlusInfinity <==> score > 0) && (r == MinusInfinity <==> score < 0)
  {
    if total > 0 then Finite((200 * score + total) / (2 * total))
    else if total < 0 then Finite((-(200 * score + total)) / (-2 * total))
    else if score > 0 then PlusInfinity
    else if score < 0 then MinusInfinity
    else NotANumber
  }

  /** For a score out of a positive total, the percentage lies in 0..100. */
  lemma PercentageBounds(score: int, total: int)
    requires 0 <= score <= total && total > 0
    ensures 0 <= RoundedPercentage(score, total).value <= 100
  {
    var p := RoundedPercentage(score, total).value;
    assert 2 * total * p <= 201 * total;
    MultiplyPositive(p, 101, 2 * total);
    MultiplyPositive(0, p + 1, 2 * total);
  }

  /** Rounding keeps the order of ratios: a record ranked above another never shows
      a smaller percentage. */
  lemma {:induction false} PercentageMonotone(a: ScoreRecord, b: ScoreRecord)
    requires a.total_questions > 0 && b.total_questions > 0 && RatioAtLeast(a, b)
    ensures RoundedPercentage(a.score, a.total_questions).value >= RoundedPercentage(b.score, b.total_questions).value
  {
    var sa, ta, sb, tb := a.score, a.total_questions, b.score, b.total_questions;
    var pa := RoundedPercentage(sa, ta).value;
    var pb := RoundedPercentage(sb, tb).value;
    // 2*tb*pb <= 200*sb + tb, scaled by ta, then sb*ta <= sa*tb, divided by tb.
    MultiplyPositive(200 * sb + tb, 2 * tb * pb, ta);
    MultiplyPositive(sa * tb, sb * ta, 200);
    assert (200 * sa + ta) * tb >= (2 * ta * pb) * tb by {
      assert (200 * sb + tb) * ta == 200 * (sb * ta) + ta * tb;
      assert (200 * sa + ta) * tb == 200 * (sa * tb) + ta * tb;
      assert (2 * tb * pb) * ta == (2 * ta * pb) * tb;
    }
    CancelPositive(200 * sa + ta, 2 * ta * pb, tb);
    MultiplyPositive(pb, pa + 1, 2 * ta);
  }

  /** An entry of `getRealTimeLeaderboard`: the fetched row with its rank, its
      percentage and the camel-case aliases. */
  datatype LeaderboardEntry = LeaderboardEntry(
    record: ScoreRecord,
    rank: int,
    percentage: Percent,
    userName: string,
    totalQuestions: int,
    completedAt: string)

  /** `scores.map((score, index) => ({...score, rank: index + 1, percentage, userName,
      totalQuestions, completedAt}))`. */
  function RankEntries(scores: seq<ScoreRecord>): (r: seq<LeaderboardEntry>)
    ensures |r| == |scores|
    ensures forall i :: 0 <= i < |r| ==> r[i].record == scores[i] && r[i].rank == i + 1
    ensures forall i :: 0 <= i < |r| ==>
              r[i].userName == scores[i].user_name &&
              r[i].totalQuestions == scores[i].total_questions &&
              r[i].completedAt == scores[i].completed_at
    ensures forall i :: 0 <= i < |r| ==>
              r[i].percentage == RoundedPercentage(scores[i].score, scores[i].total_questions)
  {
    seq(|scores|, i requires 0 <= i < |scores| =>
      LeaderboardEntry(scores[i], i + 1,
        RoundedPercentage(scores[i].score, scores[i].total_questions),
        scores[i].user_name, scores[i].total_questions, scores[i].completed_at))
  }

  /** `getRealTimeLeaderboard`. */
  function RealTimeLeaderboard(rows: Option<seq<ScoreRecord>>): seq<LeaderboardEntry>
  {
    RankEntries(Leaderboard(rows))
  }

  /** The integers 1..n. */
  function OneTo(n: nat): set<int>
  {
    if n == 0 then {} else OneTo(n - 1) + {n}
  }

  /** The ranks that appear in a list of entries. */
  function RankSet(entries: seq<LeaderboardEntry>): set<int>
  {
    if entries == [] then {} else RankSet(entries[..|entries| - 1]) + {entries[|entries| - 1].rank}
  }

  /** The ranks are exactly 1..N, in order: no gap and no shared rank. */
  lemma {:induction false} RanksAreOneToN(scores: seq<ScoreRecord>)
    ensures RankSet(RankEntries(scores)) == OneTo(|scores|)
    ensures var r := RankEntries(scores);
            forall i, j :: 0 <= i < j < |r| ==> r[i].rank < r[j].rank
  {
    if scores != [] {
      var n := |scores|;
      RanksAreOneToN(scores[..n - 1]);
      assert RankEntries(scores)[..n - 1] == RankEntries(scores[..n - 1]);
    }
  }

  /** What the leaderboard promises: one entry per fetched row, ordered by ratio with
      ties in fetched order, ranks 1..N, and percentages that never increase. */
  lemma {:induction false} RealTimeLeaderboardOrdered(rows: seq<ScoreRecord>, key: ScoreRecord)
    requires PositiveTotals(rows) && key.total_questions > 0
    ensures var r := RealTimeLeaderboard(Some(rows));
            |r| == |rows| &&
            (forall i :: 0 <= i < |r| ==> r[i].rank == i + 1) &&
            (forall i, j :: 0 <= i < j < |r| ==> RatioAtLeast(r[i].record, r[j].record)) &&
            (forall i :: 0 <= i < |r| ==> r[i].percentage.Finite?) &&
            (forall i, j :: 0 <= i < j < |r| ==> r[i].percentage.value >= r[j].percentage.value) &&
            Filter(Leaderboard(Some(rows)), SameRatioAs(key)) == Filter(rows, SameRatioAs(key))
  {
    var sorted := Leaderboard(Some(rows));
    var r := RealTimeLeaderboard(Some(rows));
    if rows != [] {
      SortByRatioSorted(rows);
      SortByRatioStable(rows, key);
      SortKeepsTotalsPositive(rows);
    }
    forall i, j | 0 <= i < j < |r| ensures r[i].percentage.value >= r[j].percentage.value {
      PercentageMonotone(sorted[i], sorted[j]);
    }
  }

  /** 8/10 then 9/10 ranks 9/10 first at 90% and 8/10 second at 80%. */
  lemma LeaderboardScenario()
    ensures var a := ScoreRecord(1, "A", 8, 10, "Hindu Culture", "t1");
            var b := ScoreRecord(2, "B", 9, 10, "Hindu Culture", "t2");
            var r := RealTimeLeaderboard(Some([a, b]));
            |r| == 2 && r[0].record == b && r[0].rank == 1 && r[0].percentage == Finite(90) &&
            r[1].record == a && r[1].rank == 2 && r[1].percentage == Finite(80)
  {
    var a := ScoreRecord(1, "A", 8, 10, "Hindu Culture", "t1");
    var b := ScoreRecord(2, "B", 9, 10, "Hindu Culture", "t2");
    assert [a, b][1..] == [b];
    assert SortByRatio([b]) == [b];
    assert !RatioAtLeast(a, b);
    assert InsertBy(a, [b], RatioAtLeast) == [b, a];
    assert Leaderboard(Some([a, b])) == [b, a];
    assert RoundedPercentage(9, 10) == Finite(90);
    assert RoundedPercentage(8, 10) == Finite(80);
  }
}
