/** The statistics of app/dashboard/profile/page.jsx: the computation in
    `fetchUserStats` and the thresholds the page applies to its result.
    Unlike the dashboard, the profile pools every answer's rating and reads
    a missing rating as "0". */
module Profile {
  import opened Wrappers
  import opened JsNumbers
  import opened Seqs
  import opened Records

  /** Line 46: `parseInt(answer.rating || '0', 10)`. A missing or empty
      rating reads as 0; a present one is read as the dashboard reads it. */
  function ProfileRating(a: Answer): (r: Option<int>)
    ensures !Truthy(a.rating) ==> r == Some(0)
    ensures Truthy(a.rating) ==> r == RatingScore(a)
  {
    ParseIntRoundTrip(0);
    assert Show(0) == "0";
    ParseInt(if Truthy(a.rating) then a.rating.value else "0")
  }

  /** Lines 45-47: the parsed ratings, `NaN` filtered out. Every score
      is the reading of some answer, and every answer that reads as a
      number contributes its score. */
  function ProfileScores(answers: seq<Answer>): (scores: seq<int>)
    ensures |scores| <= |answers|
    ensures forall x :: x in scores ==> exists i :: 0 <= i < |answers| && ProfileRating(answers[i]) == Some(x)
    ensures forall i :: 0 <= i < |answers| && ProfileRating(answers[i]).Some? ==> ProfileRating(answers[i]).value in scores
  {
    if answers == [] then []
    else
      var pre, a := answers[..|answers| - 1], answers[|answers| - 1];
      var rest := ProfileScores(pre);
      var last := match ProfileRating(a) case Some(v) => [v] case None => [];
      assert forall i :: 0 <= i < |pre| ==> answers[i] == pre[i];
      rest + last
  }

  /** The ratings the dashboard can read, pooled over all interviews. */
  function PresentRatings(answers: seq<Answer>): seq<int>
  {
    if answers == [] then []
    else
      PresentRatings(answers[..|answers| - 1])
        + match RatingScore(answers[|answers| - 1]) case Some(v) => [v] case None => []
  }

  /** How many answers have no rating at all. */
  function MissingRatings(answers: seq<Answer>): nat
  {
    if answers == [] then 0
    else MissingRatings(answers[..|answers| - 1]) + if Truthy(answers[|answers| - 1].rating) then 0 else 1
  }

  /** The profile's list is the readable ratings plus one 0 per missing
      rating: same sum, longer by the number of missing ratings. */
  lemma {:induction false} ProfileScoresPool(answers: seq<Answer>)
    ensures Sum(ProfileScores(answers)) == Sum(PresentRatings(answers))
    ensures |ProfileScores(answers)| == |PresentRatings(answers)| + MissingRatings(answers)
  {
    if answers != [] {
      var pre, a := answers[..|answers| - 1], answers[|answers| - 1];
      ProfileScoresPool(pre);
      var extra := match ProfileRating(a) case Some(v) => [v] case None => [];
      var kept := match RatingScore(a) case Some(v) => [v] case None => [];
      SumAppend(ProfileScores(pre), extra);
      SumAppend(PresentRatings(pre), kept);
      if !Truthy(a.rating) {
        assert extra == [0] && kept == [];
      } else {
        assert extra == kept;
      }
    }
  }

  /** The three numbers of the stats grid. */
  datatype Stats = Stats(totalInterviews: nat, avgScore: int, totalTime: nat)

  /** Lines 48-50 and 57: `Math.round` of the pooled mean, or of 0 when
      no rating can be read. */
  function PooledAverage(scores: seq<int>): (avg: int)
    ensures scores == [] ==> avg == 0
    ensures scores != [] ==> (avg as real) - 0.5 <= Mean(scores) < (avg as real) + 0.5
    ensures scores != [] ==> Min(scores) <= avg <= Max(scores)
  {
    if scores != [] then RoundedMean(scores) else MathRound(0.0)
  }

  /** Lines 42-57. The time is an estimate of 15 minutes per interview;
      the interview count does not depend on the answers. */
  function UserStats(interviews: seq<Interview>, answers: seq<Answer>): (s: Stats)
    ensures s.totalInterviews == |interviews|
    ensures s.totalTime == 15 * |interviews|
    ensures s.avgScore == PooledAverage(ProfileScores(answers))
  {
    Stats(|interviews|, PooledAverage(ProfileScores(answers)), |interviews| * 15)
  }

  /** Line 181: the "Level" card. */
  function Level(totalInterviews: nat): (level: string)
    ensures level == "Advanced" || level == "Beginner"
    ensures level == "Advanced" <==> totalInterviews >= 10
  {
    if totalInterviews >= 10 then "Advanced" else "Beginner"
  }

  /** Line 131: the "Experienced" badge. It uses the level's threshold,
      so a user is "Experienced" exactly when the level reads "Advanced". */
  predicate ExperiencedBadge(totalInterviews: nat)
    ensures ExperiencedBadge(totalInterviews) <==> Level(totalInterviews) == "Advanced"
  {
    totalInterviews >= 10
  }

  /** Line 136: the "Top Performer" badge, on the rounded average. It is
      shown exactly when every mean that `Math.round` turns into this
      average is at least 79.5. */
  predicate TopPerformerBadge(avgScore: int)
    ensures TopPerformerBadge(avgScore) <==> forall x: real :: MathRound(x) == avgScore ==> x >= 79.5
  {
    assert MathRound(avgScore as real) == avgScore;
    avgScore >= 80
  }

  /** Because the badge looks at the rounded average, it is shown exactly
      when the pooled mean is at least 79.5; without any readable rating
      it is never shown. */
  lemma TopPerformerThreshold(scores: seq<int>)
    ensures scores == [] ==> !TopPerformerBadge(PooledAverage(scores))
    ensures scores != [] ==> (TopPerformerBadge(PooledAverage(scores)) <==> Mean(scores) >= 79.5)
  {
  }
}
