/** The progress review page: the colour of a past quiz's score, its result
    badge and label, and the rounded percentages it displays
    (src/components/ReviewPage.tsx). */
module Review {
  import opened Common

  /** The four bands, named by the colour the page gives them. */
  datatype Tier = Green | Blue | Yellow | Red

  /** The colour of the `score/total` figure, from the percentage. */
  function ScoreColor(score: int, total: int): Tier
  {
    if AtLeastPercent(score, total, 90) then Green
    else if AtLeastPercent(score, total, 80) then Blue
    else if AtLeastPercent(score, total, 70) then Yellow
    else Red
  }

  /** The colour of the result badge, from the ratio compared with 0.9, 0.8
      and 0.7. */
  function BadgeTier(score: int, total: int): Tier
  {
    if RatioAtLeast(score, total, 9) then Green
    else if RatioAtLeast(score, total, 8) then Blue
    else if RatioAtLeast(score, total, 7) then Yellow
    else Red
  }

  /** The text of the result badge, from the same ratio comparisons. */
  function ResultLabel(score: int, total: int): string
  {
    if RatioAtLeast(score, total, 9) then "Excellent"
    else if RatioAtLeast(score, total, 8) then "Great"
    else if RatioAtLeast(score, total, 7) then "Good"
    else "Needs Work"
  }

  function LabelOf(t: Tier): string
  {
    match t
    case Green => "Excellent"
    case Blue => "Great"
    case Yellow => "Good"
    case Red => "Needs Work"
  }

  /** The score colour, the badge colour and the label always pick the same
      band: green with Excellent, blue with Great, yellow with Good, red
      with Needs Work. */
  lemma {:induction false} TiersAgree(score: int, total: int)
    ensures BadgeTier(score, total) == ScoreColor(score, total)
    ensures ResultLabel(score, total) == LabelOf(ScoreColor(score, total))
  {
    RatioMatchesPercent(score, total, 9);
    RatioMatchesPercent(score, total, 8);
    RatioMatchesPercent(score, total, 7);
  }

  /** Over a positive total the bands are the percentage ranges [90, ...),
      [80, 90), [70, 80) and below 70. */
  lemma {:induction false} ScoreColorBands(score: int, total: int)
    requires total > 0
    ensures ScoreColor(score, total) == Green <==> 100 * score >= 90 * total
    ensures ScoreColor(score, total) == Blue <==> 80 * total <= 100 * score < 90 * total
    ensures ScoreColor(score, total) == Yellow <==> 70 * total <= 100 * score < 80 * total
    ensures ScoreColor(score, total) == Red <==> 100 * score < 70 * total
  {
  }

  /** A green score always displays at least 90%, but the displayed
      percentage is rounded while the colour is not: 179 out of 200 shows
      "90%" in blue. */
  lemma {:induction false} GreenDisplaysAtLeastNinety(score: int, total: int)
    requires total > 0
    requires ScoreColor(score, total) == Green
    ensures RoundedPercent(score, total).value >= 90
  {
    var r := RoundedPercent(score, total).value;
    if r < 90 {
      assert 2 * r + 1 <= 180;
      MulMonotone(2 * r + 1, 180, total);
    }
  }

  lemma RoundingCrossesTheBand()
    ensures RoundedPercent(179, 200) == Some(90)
    ensures ScoreColor(179, 200) == Blue
  {
  }

  /** The chapter completion figure lies between 0% and 100%, is 0% with
      nothing completed and 100% with everything completed. */
  lemma {:induction false} ChapterCompletionPercent(completed: int, total: int)
    requires 0 <= completed <= total && total > 0
    ensures 0 <= RoundedPercent(completed, total).value <= 100
    ensures completed == 0 ==> RoundedPercent(completed, total).value == 0
    ensures completed == total ==> RoundedPercent(completed, total).value == 100
  {
    RoundedPercentInRange(completed, total);
    var r := RoundedPercent(completed, total).value;
    if completed == 0 && r != 0 {
      MulMonotone(1, 2 * r - 1, total);
    }
    if completed == total && r != 100 {
      if r < 100 {
        MulMonotone(2 * r + 1, 199, total);
      }
    }
  }

  /** The page's sample figures: 2 of 5 chapters is 40%; the sample quiz
      results 5/5, 2/3, 9/10 and 7/8 show 100% Excellent, 67% Needs Work,
      90% Excellent and 88% Great. */
  lemma SampleFigures()
    ensures RoundedPercent(2, 5) == Some(40)
    ensures ResultLabel(5, 5) == "Excellent" && RoundedPercent(5, 5) == Some(100)
    ensures ResultLabel(2, 3) == "Needs Work" && RoundedPercent(2, 3) == Some(67)
    ensures ResultLabel(9, 10) == "Excellent" && RoundedPercent(9, 10) == Some(90)
    ensures ResultLabel(7, 8) == "Great" && RoundedPercent(7, 8) == Some(88)
  {
  }
}
