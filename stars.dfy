/** The five-star rating display shared by the landing page (src/App.tsx) and
    the title page (src/pages/ContentPage.tsx): which of the stars 0..4 are
    drawn filled for a rating. */
module Stars {

  /** Number of stars drawn. */
  const TotalStars := 5

  /** The integer part of `x`, rounding toward zero as JavaScript's `%`
      does: the nearest integer at or below a non-negative `x`, and at or above
      a negative one. */
  function Trunc(x: real): (t: int)
    ensures 0.0 <= x ==> 0 <= t && t as real <= x < t as real + 1.0
    ensures x < 0.0 ==> t <= 0 && t as real - 1.0 < x <= t as real
  {
    if x >= 0.0 then x.Floor else -((-x).Floor)
  }

  /** `x % 1` in JavaScript: the fractional part, carrying the sign of `x`. */
  function JsFraction(x: real): (f: real)
    ensures -1.0 < f < 1.0
    ensures 0.0 <= x ==> f == x - x.Floor as real
    ensures x < 0.0 ==> -1.0 < f <= 0.0
  {
    x - Trunc(x) as real
  }

  /** The star at `index` is drawn filled when it lies below the rating's
      integer part, or sits at it with a fractional part of at least 0.25: the
      "half" star (0.25 to 0.75) and the "last full" star (from 0.75 on) are
      drawn alike, so the three flags collapse to one test. */
  predicate StarFilled(rating: real, index: int)
    ensures StarFilled(rating, index) <==>
            index < rating.Floor || (index == rating.Floor && JsFraction(rating) >= 0.25)
  {
    var filledStars := rating.Floor;
    var fraction := JsFraction(rating);
    var hasHalfStar := fraction >= 0.25 && fraction < 0.75;
    var hasFullStar := fraction >= 0.75;
    var isFilled := index < filledStars;
    var isHalfFilled := !isFilled && index == filledStars && hasHalfStar;
    var isLastFilled := !isFilled && !isHalfFilled && index == filledStars && hasFullStar;
    isFilled || isHalfFilled || isLastFilled
  }

  /** How many of the stars 0..k-1 are drawn filled. */
  function FilledAmong(rating: real, k: nat): (n: nat)
    ensures n <= k
  {
    if k == 0 then 0 else FilledAmong(rating, k - 1) + (if StarFilled(rating, k - 1) then 1 else 0)
  }

  function Min(a: int, b: int): (m: int) { if a <= b then a else b }
  function Max(a: int, b: int): (m: int) { if a >= b then a else b }

  /** The filled stars form a prefix of the row, of length
      floor(rating) + [fraction >= 0.25], kept within 0..k. */
  lemma {:induction false} FilledAmongIsPrefix(rating: real, k: nat)
    ensures FilledAmong(rating, k) ==
            Min(k, Max(0, rating.Floor + (if JsFraction(rating) >= 0.25 then 1 else 0)))
  {
    if k > 0 {
      FilledAmongIsPrefix(rating, k - 1);
      if rating < 0.0 {
        assert JsFraction(rating) <= 0.0 || rating.Floor <= -1;
      }
    }
  }

  /** The whole row: min(5, floor(rating) + [fraction >= 0.25]) stars are
      filled for a rating of at least 0, none for a negative one. */
  lemma FilledStarCount(rating: real)
    ensures 0.0 <= rating ==>
              FilledAmong(rating, TotalStars) ==
              Min(TotalStars, rating.Floor + (if rating - rating.Floor as real >= 0.25 then 1 else 0))
    ensures rating < 0.0 ==> FilledAmong(rating, TotalStars) == 0
  {
    FilledAmongIsPrefix(rating, TotalStars);
    if rating < 0.0 {
      assert rating.Floor <= -1;
      assert JsFraction(rating) <= 0.0 || rating.Floor <= -1;
    }
  }
}
