/** The colour bands of the metric bars: an integer threshold classifier for
    metrics where one direction is better, and one for metrics with an
    optimal range. */
module PreviewColors {

  datatype Color = Green | Yellow | Red

  /** Badness of a colour: green 0, yellow 1, red 2. */
  function Badness(c: Color): nat
  {
    match c
    case Green => 0
    case Yellow => 1
    case Red => 2
  }

  /** Higher is better unless isInverse, in which case lower is better. */
  function ColorForMetric(value: int, isInverse: bool := false): (c: Color)
    ensures !isInverse ==> (c == Green <==> value >= 70)
    ensures !isInverse ==> (c == Yellow <==> 40 <= value < 70)
    ensures !isInverse ==> (c == Red <==> value < 40)
    ensures isInverse ==> (c == Green <==> value <= 30)
    ensures isInverse ==> (c == Yellow <==> 30 < value <= 60)
    ensures isInverse ==> (c == Red <==> value > 60)
  {
    if !isInverse then
      if value >= 70 then Green
      else if value >= 40 then Yellow
      else Red
    else
      if value <= 30 then Green
      else if value <= 60 then Yellow
      else Red
  }

  /** Green inside [minOptimal, maxOptimal], yellow within 15 of it, red beyond. */
  function ColorForOptimalRange(value: int, minOptimal: int := 40, maxOptimal: int := 60): (c: Color)
    ensures c == Green <==> minOptimal <= value <= maxOptimal
    ensures c == Yellow <==> !(minOptimal <= value <= maxOptimal)
                             && minOptimal - 15 <= value <= maxOptimal + 15
    ensures c == Red <==> !(minOptimal - 15 <= value <= maxOptimal + 15)
  {
    if value >= minOptimal && value <= maxOptimal then Green
    else if value >= minOptimal - 15 && value <= maxOptimal + 15 then Yellow
    else Red
  }

  /** A better value never gets a worse colour. */
  lemma MetricColorMonotone(lo: int, hi: int)
    requires lo <= hi
    ensures Badness(ColorForMetric(hi)) <= Badness(ColorForMetric(lo))
    ensures Badness(ColorForMetric(lo, true)) <= Badness(ColorForMetric(hi, true))
  {
  }

  /** Moving a value towards the optimal range never worsens its colour. */
  lemma OptimalRangeTowardsBand(value: int, closer: int, minOptimal: int, maxOptimal: int)
    requires minOptimal <= maxOptimal
    requires (value <= closer <= minOptimal) || (maxOptimal <= closer <= value)
    ensures Badness(ColorForOptimalRange(closer, minOptimal, maxOptimal))
            <= Badness(ColorForOptimalRange(value, minOptimal, maxOptimal))
  {
  }

  /** With the default range [40, 60]: green on 40..60, yellow on 25..39 and 61..75. */
  lemma DefaultOptimalRange(value: int)
    ensures ColorForOptimalRange(value) == Green <==> 40 <= value <= 60
    ensures ColorForOptimalRange(value) == Yellow <==> 25 <= value < 40 || 60 < value <= 75
  {
  }
}
