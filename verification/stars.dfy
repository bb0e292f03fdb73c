/**
 * The mini-program's five-star rating display: the list page's
 * per-star status and the detail page's star array.
 */
module Stars {
  /** One star: filled, half, or (neither) empty. */
  datatype Star = Star(filled: bool, half: bool)

  const FullStar: Star := Star(true, false)
  const HalfStar: Star := Star(false, true)
  const EmptyStar: Star := Star(false, false)

  const StarCount: nat := 5

  /**
   * The list page's `getStarStatus`: a zero rating shows nothing; star
   * `index` is filled when the rating reaches it and half when the rating
   * is within half a point below it.
   */
  function StarStatus(index: int, rating: real): (s: Star)
    ensures !(s.filled && s.half)
    ensures s.filled <==> rating != 0.0 && rating >= index as real
    ensures s.half <==> rating != 0.0 && index as real - 0.5 <= rating < index as real
  {
    if rating == 0.0 then EmptyStar
    else if rating >= index as real then FullStar
    else if rating >= index as real - 0.5 then HalfStar
    else EmptyStar
  }

  /** One step of the detail page's loop, which has no zero test. */
  function StarAt(index: int, rating: real): Star {
    if rating >= index as real then FullStar
    else if rating >= index as real - 0.5 then HalfStar
    else EmptyStar
  }

  /** The star array as a sequence: star i + 1 at position i. */
  function StarsOf(rating: real): (stars: seq<Star>)
    ensures |stars| == StarCount
    ensures forall i :: 0 <= i < StarCount ==> stars[i] == StarAt(i + 1, rating)
  {
    seq(StarCount, i requires 0 <= i < StarCount => StarAt(i + 1, rating))
  }

  /** The detail page's `getStarsArray`: stars 1 to 5 pushed in order. */
  method StarsArray(rating: real) returns (stars: seq<Star>)
    ensures |stars| == StarCount
    ensures forall i :: 0 <= i < |stars| ==> (stars[i].filled <==> rating >= (i + 1) as real)
    ensures forall i :: 0 <= i < |stars| ==> (stars[i].half <==> (i + 1) as real - 0.5 <= rating < (i + 1) as real)
    ensures stars == StarsOf(rating)
  {
    stars := [];
    var i := 1;
    while i <= StarCount
      invariant 1 <= i <= StarCount + 1 && |stars| == i - 1
      invariant forall j :: 0 <= j < |stars| ==> stars[j] == StarAt(j + 1, rating)
    {
      if rating >= i as real {
        stars := stars + [FullStar];
      } else if rating >= i as real - 0.5 {
        stars := stars + [HalfStar];
      } else {
        stars := stars + [EmptyStar];
      }
      i := i + 1;
    }
  }

  /** The two pages agree star by star, for every rating, zero and negative ones included. */
  lemma PagesAgree(rating: real)
    ensures forall i :: 0 <= i < StarCount ==> StarsOf(rating)[i] == StarStatus(i + 1, rating)
  {
    forall i | 0 <= i < StarCount
      ensures StarsOf(rating)[i] == StarStatus(i + 1, rating)
    {
      if rating == 0.0 {
        assert StarAt(i + 1, rating) == EmptyStar;
      }
    }
  }

  /**
   * Filled stars come first, then at most one half star, then empty
   * ones: a star after a half or empty one is never filled, and two
   * stars are never both half.
   */
  lemma StarsInOrder(rating: real, i: nat, j: nat)
    requires i < j < StarCount
    ensures var s := StarsOf(rating);
            (s[j].filled ==> s[i].filled) && (s[i].half ==> s[j] == EmptyStar) && !(s[i].half && s[j].half)
  {
  }
}
