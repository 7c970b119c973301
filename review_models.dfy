/**
 * Review.RatingScore (ggongsul/review/models.py): the rating a review carries is
 * one of the choices 1 to 5, each labelled with as many stars.
 */
module ReviewModels {
  import opened Wrappers

  const STAR: char := '⭐'

  /** The choices of rating_score, in declaration order. */
  const RATING_CHOICES: seq<int> := [1, 2, 3, 4, 5]

  /** The label of choice n: n stars. */
  function Stars(n: nat): (stars: string)
    ensures |stars| == n && forall i :: 0 <= i < n ==> stars[i] == STAR
  {
    if n == 0 then "" else Stars(n - 1) + [STAR]
  }

  /**
   * The label of a submitted rating_score: Some for a declared choice, None for a
   * value the choices field rejects.
   */
  function RatingLabel(score: int): (r: Option<string>)
    ensures r.Some? <==> score in RATING_CHOICES
    ensures r.Some? ==> 1 <= score <= 5 && r.value == Stars(score)
  {
    if 1 <= score <= 5 then Some(Stars(score)) else None
  }

  /** Labels tell the choices apart: the label of a valid score gives the score back. */
  lemma RatingLabelInjective(a: int, b: int)
    requires RatingLabel(a).Some? && RatingLabel(a) == RatingLabel(b)
    ensures a == b
  {
    assert |Stars(a)| == a && |Stars(b)| == b;
  }
}
