/** A quiz answer button: its style by result and selection, its letter and
    whether it is disabled. */
module QuizOption {
  import opened Seqs
  import QuizPage

  const CorrectStyle := "bg-green-50 border-green-500 text-green-800"
  const WrongStyle := "bg-red-50 border-red-500 text-red-800"
  const RevealedStyle := "bg-gray-50 border-gray-300 text-gray-600"
  const SelectedStyle := "bg-saffron-50 border-saffron-500 text-saffron-800"
  const DefaultStyle := "bg-white border-gray-300 text-gray-700 hover:bg-saffron-50 hover:border-saffron-300"

  /** `getOptionStyles()`. */
  function OptionStyles(showResult: bool, isCorrect: bool, selected: bool): string
  {
    if showResult then
      if isCorrect then CorrectStyle
      else if selected then WrongStyle
      else RevealedStyle
    else if selected then SelectedStyle
    else DefaultStyle
  }

  /** The five styles, by case: with the result shown the correct option is green
      whether selected or not, a selected wrong one red and the rest gray; before
      that only the selection matters. A button is disabled exactly while it shows
      one of the three result styles. */
  lemma StyleTable(showResult: bool, isCorrect: bool, selected: bool)
    ensures OptionStyles(true, true, selected) == CorrectStyle
    ensures OptionStyles(true, false, true) == WrongStyle
    ensures OptionStyles(true, false, false) == RevealedStyle
    ensures OptionStyles(false, isCorrect, true) == SelectedStyle
    ensures OptionStyles(false, isCorrect, false) == DefaultStyle
    ensures OptionStyles(false, isCorrect, selected) == OptionStyles(false, !isCorrect, selected)
    ensures Disabled(showResult) <==>
              OptionStyles(showResult, isCorrect, selected) in {CorrectStyle, WrongStyle, RevealedStyle}
  {
  }

  /** `disabled={showResult}`. */
  predicate Disabled(showResult: bool)
  {
    showResult
  }

  /** `String.fromCharCode(65 + index)`, for the indices whose code is a character. */
  function OptionLetter(index: nat): (c: char)
    requires 65 + index < 0xD800
    ensures c as int == 65 + index
    ensures index < 26 ==> 'A' <= c <= 'Z'
  {
    (65 + index) as char
  }

  /** The option a letter stands for. */
  function LetterIndex(c: char): int
  {
    c as int - 65
  }

  /** Each letter names its own option: 'A' is the first, and the letter gives the
      index back. */
  lemma LetterRoundTrip(index: nat)
    requires 65 + index < 0xD800
    ensures LetterIndex(OptionLetter(index)) == index
    ensures index == 0 ==> OptionLetter(index) == 'A'
  {
  }

  /** The quiz page passes `selected={selectedAnswer === index}`. */
  predicate IsSelected(selectedAnswer: Option<int>, index: int)
  {
    selectedAnswer == Some(index)
  }

  /** Returning to a question answered with the first option shows that option
      unhighlighted, though the answer is still stored and still scored. */
  lemma FirstOptionLosesHighlight(answers: map<int, int>, i: int)
    requires i in answers && answers[i] == 0
    ensures OptionStyles(false, false, IsSelected(QuizPage.RestoredSelection(answers, i), 0)) == DefaultStyle
    ensures QuizPage.AnswerAt(answers, i) == Some(0)
  {
  }
}
