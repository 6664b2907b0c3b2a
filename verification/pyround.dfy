/** Python's `round(x, -2)` on integers, and the rating target of `challenge`. */
module PyRound {
  import opened Wrappers

  /** The duel-rating offset below the weaker participant's rounded rating. */
  const RatingDelta: int := -400
  /** The least suggested rating. */
  const SuggestedFloor: int := 500

  /** m is a correct result of rounding x to hundreds with ties to the even multiple. */
  predicate IsRoundHalfEven(x: int, m: int) {
    && m % 100 == 0
    && -50 <= x - m <= 50
    && ((x - m == 50 || x - m == -50) ==> (m / 100) % 2 == 0)
  }

  /** `round(x, -2)` for a Python int: the nearest multiple of 100, ties to the even one. */
  function RoundHundreds(x: int): (m: int)
    ensures IsRoundHalfEven(x, m)
  {
    var q := x / 100;
    var rem := x % 100;
    if rem < 50 then q * 100
    else if rem > 50 then (q + 1) * 100
    else if q % 2 == 0 then q * 100
    else (q + 1) * 100
  }

  /** The rounding relation has exactly one solution, so `RoundHundreds` is the
      rounding and not merely one candidate. */
  lemma RoundHalfEvenUnique(x: int, m: int)
    requires IsRoundHalfEven(x, m)
    ensures m == RoundHundreds(x)
  {
  }

  /** The suggested rating: the weaker rating rounded to hundreds, minus 400, and never below 500. */
  function SuggestedRating(lowest: int): (r: int)
    ensures r >= SuggestedFloor && r % 100 == 0
    ensures r >= RoundHundreds(lowest) + RatingDelta
    ensures r == SuggestedFloor || r == RoundHundreds(lowest) + RatingDelta
  {
    var s := RoundHundreds(lowest) + RatingDelta;
    if s > SuggestedFloor then s else SuggestedFloor
  }

  /** The rating the problem search starts from. A missing argument and an argument of 0
      (falsy in Python) fall back to the suggestion; any other argument is rounded. */
  function TargetRating(arg: Option<int>, lowest: int): (r: int)
    ensures (arg.None? || arg == Some(0)) ==> r == SuggestedRating(lowest)
    ensures arg.Some? && arg.value != 0 ==> IsRoundHalfEven(arg.value, r)
    ensures r % 100 == 0
  {
    match arg
    case Some(x) => if x != 0 then RoundHundreds(x) else SuggestedRating(lowest)
    case None => SuggestedRating(lowest)
  }

  /** Only an explicit argument can start the search at or below 400: the suggestion
      always starts it at 500 or more. */
  lemma LowTargetNeedsArgument(arg: Option<int>, lowest: int)
    requires TargetRating(arg, lowest) <= 400
    ensures arg.Some? && arg.value != 0 && arg.value <= 450
  {
  }

  /** Worked examples: lowest rating 1500 suggests 1100; ties round to the even hundred. */
  lemma RoundingExamples()
    ensures SuggestedRating(1500) == 1100
    ensures RoundHundreds(1250) == 1200 && RoundHundreds(1350) == 1400
    ensures RoundHundreds(-150) == -200 && RoundHundreds(450) == 400
    ensures SuggestedRating(600) == 500
  {
  }
}
