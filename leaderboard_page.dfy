/** The leaderboard page: the rank icon and colour tables, the styling reserved for
    the top three, the empty and share states, and the top-10 share text. */
module LeaderboardPage {
  import opened Seqs
  import opened Text
  import opened QuizService

  /** `getRankIcon(rank)`. */
  function RankIcon(rank: int): string
  {
    match rank
    case 1 => "Crown"
    case 2 => "Medal"
    case 3 => "Award"
    case _ => "User"
  }

  /** `getRankColor(rank)`. */
  function RankColor(rank: int): string
  {
    match rank
    case 1 => "text-yellow-500"
    case 2 => "text-gray-400"
    case 3 => "text-orange-500"
    case _ => "text-gray-600"
  }

  /** The card's class: the spiritual card for ranks up to 3. */
  function CardStyle(rank: int): string
  {
    if rank <= 3 then "card-spiritual" else "card"
  }

  /** The progress bar's gradient, shown for ranks up to 3 only. */
  function ProgressBar(rank: int): Option<string>
  {
    if rank <= 3 then
      Some(if rank == 1 then "bg-gradient-to-r from-yellow-400 to-yellow-600"
           else if rank == 2 then "bg-gradient-to-r from-gray-300 to-gray-500"
           else "bg-gradient-to-r from-orange-400 to-orange-600")
    else None
  }

  /** The three podium ranks each have their own icon and colour; every other rank
      shares the plain ones. */
  lemma RankTables(rank: int, other: int)
    requires 1 <= rank <= 3 && 1 <= other <= 3 && rank != other
    ensures RankIcon(rank) != RankIcon(other) && RankColor(rank) != RankColor(other)
    ensures RankIcon(rank) != "User" && RankColor(rank) != "text-gray-600"
  {
  }

  /** On the ranked leaderboard exactly the first three entries get the spiritual
      card, a progress bar and a podium icon. */
  lemma TopThreeStyled(scores: seq<ScoreRecord>)
    ensures var board := RankEntries(scores);
            forall i :: 0 <= i < |board| ==>
              (CardStyle(board[i].rank) == "card-spiritual" <==> i < 3) &&
              (ProgressBar(board[i].rank).Some? <==> i < 3) &&
              (RankIcon(board[i].rank) != "User" <==> i < 3)
  {
  }

  /** `leaderboard.length === 0`: the empty view. */
  predicate ShowsEmptyView(leaderboard: seq<LeaderboardEntry>)
  {
    |leaderboard| == 0
  }

  /** `leaderboard.length > 0`: the share button. */
  predicate ShowsShareButton(leaderboard: seq<LeaderboardEntry>)
  {
    |leaderboard| > 0
  }

  /** On the leaderboard `getRealTimeLeaderboard` loads, the empty view shows exactly
      when no score row was fetched and the share button exactly when one was; the
      page shows one of the two. */
  lemma EmptyOrShare(rows: Option<seq<ScoreRecord>>)
    ensures var board := RealTimeLeaderboard(rows);
            (ShowsEmptyView(board) <==> rows.None? || rows.value == []) &&
            (ShowsShareButton(board) <==> rows.Some? && rows.value != []) &&
            ShowsEmptyView(board) != ShowsShareButton(board)
  {
    if rows.Some? {
      assert |Leaderboard(rows)| == |rows.value| by {
        assert |multiset(Leaderboard(rows))| == |multiset(rows.value)|;
      }
    }
  }

  // ---------------------------------------------------------------- share text

  const ShareLimit: nat := 10

  /** The opening line; its emoji are the source's bytes read as Windows-1252 text. */
  const ShareHeader := "\U{F0}\U{178}\U{2020} Hindu Culture Quiz Leaderboard - Top 10 \U{F0}\U{178}\U{2020}\n\n"

  /** The closing lines, around `window.location.origin`. */
  function ShareFooter(origin: string): string
  {
    "\n\U{F0}\U{178}\U{201D}\U{2014} Take the quiz yourself: " + origin +
    "/quiz\n\n\U{F0}\U{178}\U{2022}\U{2030}\U{EF}\U{B8} Trishul Tales - Hindu Culture Quiz\nExplore the wisdom of Hindu traditions and mythology!"
  }

  /** The medal of line `index`: three medal emoji, then "4.", "5.", ... */
  function Medal(index: nat): string
  {
    if index == 0 then "\U{F0}\U{178}\U{A5}\U{2021}"
    else if index == 1 then "\U{F0}\U{178}\U{A5}\U{2C6}"
    else if index == 2 then "\U{F0}\U{178}\U{A5}\U{2030}"
    else NatToString(index + 1) + "."
  }

  /** Lines from the fourth on carry their position: the digits before the dot read
      back as index + 1; the first three start with an emoji, not a digit. */
  lemma MedalNumbering(index: nat)
    ensures index < 3 ==> |Medal(index)| > 0 && !IsDigit(Medal(index)[0])
    ensures index >= 3 ==> var m := Medal(index);
                           |m| >= 2 && m[|m| - 1] == '.' && AllDigits(m[..|m| - 1]) &&
                           ParseNat(m[..|m| - 1]) == index + 1
  {
    if index >= 3 {
      var m := Medal(index);
      assert m[..|m| - 1] == NatToString(index + 1);
      ParseNatToString(index + 1);
    }
  }

  /** `${percentage}` for each kind of percentage. */
  function PercentText(p: Percent): string
  {
    match p
    case Finite(v) => IntToString(v)
    case NotANumber => "NaN"
    case PlusInfinity => "Infinity"
    case MinusInfinity => "-Infinity"
  }

  /** The line for the entry at `index`. */
  function ShareLine(entry: LeaderboardEntry, index: nat): string
  {
    Medal(index) + " " + entry.userName + " - " + PercentText(entry.percentage) + "% (" +
    IntToString(entry.record.score) + "/" + IntToString(entry.totalQuestions) + ")\n"
  }

  /** The concatenation of the lines. */
  function Concat(lines: seq<string>): string
  {
    if lines == [] then "" else Concat(lines[..|lines| - 1]) + lines[|lines| - 1]
  }

  /** `leaderboard.slice(0, 10)`. */
  function Top(leaderboard: seq<LeaderboardEntry>): (top: seq<LeaderboardEntry>)
    ensures |top| <= ShareLimit && |top| == (if |leaderboard| < ShareLimit then |leaderboard| else ShareLimit)
    ensures forall i :: 0 <= i < |top| ==> top[i] == leaderboard[i]
  {
    if |leaderboard| <= ShareLimit then leaderboard else leaderboard[..ShareLimit]
  }

  /** One line per shared entry, in leaderboard order. */
  function ShareLines(leaderboard: seq<LeaderboardEntry>): (lines: seq<string>)
    ensures |lines| == |Top(leaderboard)|
    ensures forall i :: 0 <= i < |lines| ==> lines[i] == ShareLine(leaderboard[i], i)
  {
    var top := Top(leaderboard);
    seq(|top|, i requires 0 <= i < |top| => ShareLine(top[i], i))
  }

  /** The shared text: the header, the lines of the first ten entries, the footer. */
  function ShareText(leaderboard: seq<LeaderboardEntry>, origin: string): string
  {
    ShareHeader + Concat(ShareLines(leaderboard)) + ShareFooter(origin)
  }

  lemma ConcatStep(header: string, lines: seq<string>, k: nat)
    requires k < |lines|
    ensures header + Concat(lines[..k + 1]) == header + Concat(lines[..k]) + lines[k]
  {
    assert lines[..k + 1][..k] == lines[..k];
  }

  /** The share button's text building: `+=` of one line per entry of `top10`. */
  method BuildShareText(leaderboard: seq<LeaderboardEntry>, origin: string) returns (leaderboardText: string)
    ensures leaderboardText == ShareText(leaderboard, origin)
  {
    var top10 := Top(leaderboard);
    ghost var lines := ShareLines(leaderboard);
    leaderboardText := ShareHeader;
    var index := 0;
    while index < |top10|
      invariant 0 <= index <= |top10|
      invariant leaderboardText == ShareHeader + Concat(lines[..index])
    {
      leaderboardText := leaderboardText + ShareLine(top10[index], index);
      ConcatStep(ShareHeader, lines, index);
      index := index + 1;
    }
    assert lines[..index] == lines;
    ghost var body := leaderboardText;
    leaderboardText := leaderboardText + ShareFooter(origin);
    assert leaderboardText == ShareHeader + Concat(lines) + ShareFooter(origin) by {
      assert body == ShareHeader + Concat(lines);
    }
  }

  lemma {:induction false} ConcatAppend(a: seq<string>, b: seq<string>)
    ensures Concat(a + b) == Concat(a) + Concat(b)
    decreases |b|
  {
    if b != [] {
      ConcatAppend(a, b[..|b| - 1]);
      assert (a + b)[..|a + b| - 1] == a + b[..|b| - 1];
    } else {
      assert a + b == a;
    }
  }

  lemma {:induction false} ContainsInMiddle(a: string, b: string, c: string)
    ensures Contains(a + b + c, b)
  {
    if a == [] {
      assert (a + b + c)[..|b|] == b;
    } else {
      ContainsInMiddle(a[1..], b, c);
      assert (a + b + c)[1..] == a[1..] + b + c;
    }
  }

  /** Text made of a header, lines and a footer contains each of the lines. */
  lemma ConcatContainsLine(header: string, lines: seq<string>, footer: string, i: nat)
    requires i < |lines|
    ensures Contains(header + Concat(lines) + footer, lines[i])
  {
    var before := header + Concat(lines[..i]);
    var after := Concat(lines[i + 1..]) + footer;
    assert Concat(lines) == Concat(lines[..i]) + lines[i] + Concat(lines[i + 1..]) by {
      assert lines == lines[..i] + [lines[i]] + lines[i + 1..];
      ConcatAppend(lines[..i] + [lines[i]], lines[i + 1..]);
      ConcatAppend(lines[..i], [lines[i]]);
      assert Concat([lines[i]]) == lines[i] by {
        assert [lines[i]][..0] == [];
      }
    }
    assert header + Concat(lines) + footer == before + lines[i] + after;
    ContainsInMiddle(before, lines[i], after);
  }

  /** The shared text lists each of the first ten entries on its own line, with its
      medal or number, name, percentage and score. */
  lemma ShareTextListsTopTen(leaderboard: seq<LeaderboardEntry>, origin: string, i: nat)
    requires i < |leaderboard| && i < ShareLimit
    ensures Contains(ShareText(leaderboard, origin), ShareLine(leaderboard[i], i))
  {
    ConcatContainsLine(ShareHeader, ShareLines(leaderboard), ShareFooter(origin), i);
  }
}
