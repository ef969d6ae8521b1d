/** The hint rule `determine_response`, shared word for word by both socket servers. */
module Hints {
  import opened Json

  /** The three answers `determine_response` can give. */
  datatype Hint = YouDidIt | TooSmall | TooHigh

  /** `determine_response(guess, number)`: equality wins, otherwise the guess is too small or too high. */
  function DetermineResponse(guess: int, number: int): (h: Hint)
    ensures h == YouDidIt <==> guess == number
    ensures h == TooSmall <==> guess < number
    ensures h == TooHigh <==> guess > number
  {
    if guess == number then YouDidIt else if guess < number then TooSmall else TooHigh
  }

  /** The text `determine_response` returns. */
  function HintText(h: Hint): string {
    match h
    case YouDidIt => "Congratulations, you did it!"
    case TooSmall => "Hint: You guessed too small! Guess again: "
    case TooHigh => "Hint: You guessed too high! Guess again: "
  }

  /** The callers' test `response.startswith("Congratulations")` singles out the winning hint. */
  lemma CongratulationsOnlyOnWin(h: Hint)
    ensures StartsWith(HintText(h), "Congratulations") <==> h == YouDidIt
  {
    var t, p := HintText(h), "Congratulations";
    if h != YouDidIt {
      assert t[0] == 'H' && p[0] == 'C';
      assert |p| <= |t| ==> t[..|p|][0] != p[0];
    }
  }
}
