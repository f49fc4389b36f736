/** The quiz list page: narrowing the quiz catalogue by category and difficulty,
    and the "Clear Filters" control. */
module QuizListPage {
  import opened Seqs

  /** A quiz of the catalogue. */
  datatype Quiz = Quiz(
    Id: int, title: string, description: string, category: string, difficulty: string,
    question_count: int, duration: int, icon: string, featured: bool)

  /** The value of either select that applies no filter. */
  const All := "all"

  function HasCategory(category: string): Quiz -> bool
  {
    (quiz: Quiz) => quiz.category == category
  }

  function HasDifficulty(difficulty: string): Quiz -> bool
  {
    (quiz: Quiz) => quiz.difficulty == difficulty
  }

  /** The quiz passes both selections. */
  predicate Matches(selectedCategory: string, selectedDifficulty: string, quiz: Quiz)
  {
    (selectedCategory == All || quiz.category == selectedCategory) &&
    (selectedDifficulty == All || quiz.difficulty == selectedDifficulty)
  }

  /** The quizzes the two selections let through, in one test. */
  function Shown(selectedCategory: string, selectedDifficulty: string): Quiz -> bool
  {
    (quiz: Quiz) => Matches(selectedCategory, selectedDifficulty, quiz)
  }

  lemma BothNarrowingSteps(quizzes: seq<Quiz>, selectedCategory: string, selectedDifficulty: string)
    requires selectedCategory != All && selectedDifficulty != All
    ensures Filter(Filter(quizzes, HasCategory(selectedCategory)), HasDifficulty(selectedDifficulty)) ==
            Filter(quizzes, Shown(selectedCategory, selectedDifficulty))
  {
    var p, q := HasCategory(selectedCategory), HasDifficulty(selectedDifficulty);
    FilterTwice(quizzes, p, q);
    FilterSameTest(quizzes, x => p(x) && q(x), Shown(selectedCategory, selectedDifficulty));
  }

  lemma CategoryStepOnly(quizzes: seq<Quiz>, selectedCategory: string)
    requires selectedCategory != All
    ensures Filter(quizzes, HasCategory(selectedCategory)) == Filter(quizzes, Shown(selectedCategory, All))
  {
    FilterSameTest(quizzes, HasCategory(selectedCategory), Shown(selectedCategory, All));
  }

  lemma DifficultyStepOnly(quizzes: seq<Quiz>, selectedDifficulty: string)
    requires selectedDifficulty != All
    ensures Filter(quizzes, HasDifficulty(selectedDifficulty)) == Filter(quizzes, Shown(All, selectedDifficulty))
  {
    FilterSameTest(quizzes, HasDifficulty(selectedDifficulty), Shown(All, selectedDifficulty));
  }

  /** `filterQuizzes`: `filtered` starts as every quiz and is narrowed by category,
      then by difficulty, each only when its selection is not "all". */
  method FilterQuizzes(quizzes: seq<Quiz>, selectedCategory: string, selectedDifficulty: string)
    returns (filtered: seq<Quiz>)
    ensures filtered == Filter(quizzes, Shown(selectedCategory, selectedDifficulty))
  {
    filtered := quizzes;
    if selectedCategory != All {
      filtered := Filter(filtered, HasCategory(selectedCategory));
    }
    if selectedDifficulty != All {
      filtered := Filter(filtered, HasDifficulty(selectedDifficulty));
    }
    if selectedCategory != All && selectedDifficulty != All {
      BothNarrowingSteps(quizzes, selectedCategory, selectedDifficulty);
    } else if selectedCategory != All {
      CategoryStepOnly(quizzes, selectedCategory);
    } else if selectedDifficulty != All {
      DifficultyStepOnly(quizzes, selectedDifficulty);
    } else {
      FilterKeepsAll(quizzes, Shown(All, All));
    }
  }

  /** The filtered list keeps exactly the quizzes passing both selections, in
      catalogue order, so "Showing X of Y" never has X above Y; with both selections
      "all" it is the whole catalogue. */
  lemma ShownQuizzes(quizzes: seq<Quiz>, selectedCategory: string, selectedDifficulty: string)
    ensures var filtered := Filter(quizzes, Shown(selectedCategory, selectedDifficulty));
            (forall i :: 0 <= i < |filtered| ==> Matches(selectedCategory, selectedDifficulty, filtered[i])) &&
            (forall i :: 0 <= i < |quizzes| && Matches(selectedCategory, selectedDifficulty, quizzes[i]) ==>
               quizzes[i] in filtered) &&
            IsSubsequence(filtered, quizzes) && |filtered| <= |quizzes| &&
            (selectedCategory == All && selectedDifficulty == All ==> filtered == quizzes)
  {
    var shown := Shown(selectedCategory, selectedDifficulty);
    var filtered := Filter(quizzes, shown);
    assert forall i :: 0 <= i < |filtered| ==> shown(filtered[i]);
    FilterMembers(quizzes, shown);
    FilterSubsequence(quizzes, shown);
    if selectedCategory == All && selectedDifficulty == All {
      FilterKeepsAll(quizzes, shown);
    }
  }

  /** The "Clear Filters" button is shown when either selection is not "all". */
  predicate ShowsClearButton(selectedCategory: string, selectedDifficulty: string)
  {
    selectedCategory != All || selectedDifficulty != All
  }

  /** The two selections after "Clear Filters". */
  datatype Selection = Selection(category: string, difficulty: string)

  function ClearFilters(): (s: Selection)
    ensures !ShowsClearButton(s.category, s.difficulty)
  {
    Selection(All, All)
  }

  /** After clearing, the whole catalogue is listed again, and the count line reads
      "Showing N of N". */
  lemma ClearingShowsEverything(quizzes: seq<Quiz>)
    ensures Filter(quizzes, Shown(ClearFilters().category, ClearFilters().difficulty)) == quizzes
  {
    FilterKeepsAll(quizzes, Shown(All, All));
  }
}
