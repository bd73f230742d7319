/** The statistics cards of the dashboard: the computation inside
    `fetchAnalytics` of app/dashboard/_components/DashboardAnalytics.jsx,
    from the fetched interviews and answers to the four metrics and their
    trends. */
module Dashboard {
  import opened Wrappers
  import opened JsNumbers
  import opened Seqs
  import opened Records
  import opened Grouping

  /** The answers that reach `push`, as grouping entries. */
  function ScoredEntries(answers: seq<Answer>): seq<Entry<()>>
  {
    if answers == [] then []
    else
      ScoredEntries(answers[..|answers| - 1]) + EntryOf(answers[|answers| - 1])
  }

  /** The entry an answer adds, if any. */
  function EntryOf(a: Answer): seq<Entry<()>>
  {
    match RatingScore(a)
    case Some(v) => [Entry(a.mockIdRef, v, ())]
    case None => []
  }

  lemma ScoredEntriesStep(answers: seq<Answer>, i: nat)
    requires i < |answers|
    ensures ScoredEntries(answers[..i + 1]) == ScoredEntries(answers[..i]) + EntryOf(answers[i])
  {
    assert answers[..i + 1][..i] == answers[..i];
  }

  /** Some answer for interview `k` has a usable rating. */
  ghost predicate HasScoredAnswer(answers: seq<Answer>, k: string)
  {
    exists i :: 0 <= i < |answers| && answers[i].mockIdRef == k && RatingScore(answers[i]).Some?
  }

  /** An interview reference gets a group exactly when one of its answers
      has a usable rating; one whose answers all lack one gets none. */
  lemma ScoredEntriesKeys(answers: seq<Answer>, k: string)
    ensures k in Keys(ScoredEntries(answers)) <==> HasScoredAnswer(answers, k)
  {
    if k in Keys(ScoredEntries(answers)) {
      KeyHasScoredAnswer(answers, k);
    }
    if HasScoredAnswer(answers, k) {
      var i :| 0 <= i < |answers| && answers[i].mockIdRef == k && RatingScore(answers[i]).Some?;
      ScoredAnswerHasKey(answers, i);
    }
  }

  lemma {:induction false} KeyHasScoredAnswer(answers: seq<Answer>, k: string)
    requires k in Keys(ScoredEntries(answers))
    ensures HasScoredAnswer(answers, k)
  {
    var n := |answers| - 1;
    var pre, a := answers[..n], answers[n];
    assert answers[..n + 1] == answers;
    ScoredEntriesStep(answers, n);
    var es := ScoredEntries(pre);
    KeysAppend(es, EntryOf(a));
    if k in Keys(es) {
      KeyHasScoredAnswer(pre, k);
      var i :| 0 <= i < |pre| && pre[i].mockIdRef == k && RatingScore(pre[i]).Some?;
      assert answers[i] == pre[i];
    } else {
      assert a.mockIdRef == k && RatingScore(a).Some?;
    }
  }

  lemma {:induction false} ScoredAnswerHasKey(answers: seq<Answer>, i: nat)
    requires i < |answers| && RatingScore(answers[i]).Some?
    ensures answers[i].mockIdRef in Keys(ScoredEntries(answers))
  {
    var n := |answers| - 1;
    var pre, a := answers[..n], answers[n];
    assert answers[..n + 1] == answers;
    ScoredEntriesStep(answers, n);
    var es := ScoredEntries(pre);
    KeysAppend(es, EntryOf(a));
    if i < n {
      assert pre[i] == answers[i];
      ScoredAnswerHasKey(pre, i);
    } else {
      var v := RatingScore(a).value;
      assert EntryOf(a) == [Entry(a.mockIdRef, v, ())];
      assert Keys(EntryOf(a)) == [a.mockIdRef];
    }
  }

  /** Lines 70-81: the `forEach` that fills the `interviewScores` map. */
  method GroupAnswerScores(answers: seq<Answer>) returns (g: Grouped<()>)
    ensures g == GroupAll(ScoredEntries(answers))
    ensures Describes(g, ScoredEntries(answers))
  {
    var order: seq<string> := [];
    var groups: map<string, Group<()>> := map[];
    var i := 0;
    assert answers[..i] == [];
    while i < |answers|
      invariant 0 <= i <= |answers|
      invariant Grouped(order, groups) == GroupAll(ScoredEntries(answers[..i]))
    {
      var answer := answers[i];
      ghost var before := ScoredEntries(answers[..i]);
      ghost var g0 := Grouped(order, groups);
      ScoredEntriesStep(answers, i);
      var parsed := RatingScore(answer);
      if parsed.Some? {
        ghost var e := Entry(answer.mockIdRef, parsed.value, ());
        assert EntryOf(answer) == [e];
        GroupAllSnoc(before, e);
        order, groups := AddScore(order, groups, answer.mockIdRef, parsed.value, ());
      } else {
        assert before + EntryOf(answer) == before;
      }
      assert Grouped(order, groups) == GroupAll(ScoredEntries(answers[..i + 1]));
      i := i + 1;
    }
    assert answers[..i] == answers;
    g := Grouped(order, groups);
    GroupAllDescribes(ScoredEntries(answers));
  }

  /** Lines 90-91: the mean of the per-interview scores, 0 when there are
      none. */
  function AvgScore(scores: seq<int>): (avg: real)
    ensures scores == [] ==> avg == 0.0
    ensures scores != [] ==> Min(scores) as real <= avg <= Max(scores) as real
  {
    if scores == [] then 0.0
    else
      MeanBetween(scores);
      Mean(scores)
  }

  /** Line 93: the highest per-interview score, 0 when there are none. */
  function BestPerformance(scores: seq<int>): (best: int)
    ensures scores == [] ==> best == 0
    ensures scores != [] ==> best in scores && forall i :: 0 <= i < |scores| ==> scores[i] <= best
  {
    if scores == [] then 0 else Max(scores)
  }

  /** What `improvement` holds after lines 96-101: the percentage by
      which the mean of the three latest scores exceeds the mean of the
      three before them, when there are six scores and the earlier mean
      is positive; 0 otherwise. */
  ghost predicate IsImprovement(scores: seq<int>, improvement: real)
  {
    if |scores| >= 6 && Mean(scores[3..6]) > 0.0 then
      Mean(scores[3..6]) * (1.0 + improvement / 100.0) == Mean(scores[..3])
    else
      improvement == 0.0
  }

  /** Lines 96-101. */
  method ComputeImprovement(scores: seq<int>) returns (improvement: real)
    ensures IsImprovement(scores, improvement)
    ensures |scores| < 6 ==> improvement == 0.0
    ensures |scores| >= 6 && Mean(scores[3..6]) > 0.0 ==>
              (improvement > 0.0 <==> Mean(scores[..3]) > Mean(scores[3..6]))
              && (improvement < 0.0 <==> Mean(scores[..3]) < Mean(scores[3..6]))
  {
    improvement := 0.0;
    if |scores| >= 6 {
      var recent := (Sum(scores[0..3]) as real) / 3.0;
      var previous := (Sum(scores[3..6]) as real) / 3.0;
      assert scores[0..3] == scores[..3];
      improvement := if previous > 0.0 then ((recent - previous) / previous) * 100.0 else 0.0;
      if previous > 0.0 {
        ChangeRecovers(recent, previous);
      }
    }
  }

  /** `((current - previous) / previous) * 100` is the percentage that,
      applied to `previous`, gives back `current`; its sign is that of
      `current - previous` when `previous` is positive. */
  lemma ChangeRecovers(current: real, previous: real)
    requires previous != 0.0
    ensures var change := ((current - previous) / previous) * 100.0;
            && previous * (1.0 + change / 100.0) == current
            && (previous > 0.0 ==> (change > 0.0 <==> current > previous) && (change < 0.0 <==> current < previous))
            && (previous < 0.0 ==> (change >= 0.0 <==> current <= previous))
  {
    var q := (current - previous) / previous;
    assert q * previous == current - previous;
    if previous > 0.0 {
      if current > previous { assert q > 0.0; }
      if current < previous { assert q < 0.0; }
    } else {
      if current <= previous { assert q >= 0.0; }
      if current > previous { assert q < 0.0; }
    }
  }

  /** Latest scores 90, 85, 88 against 70, 72, 68 give an improvement of 530/21 per cent, about 25.2%. */
  lemma ImprovementExample(improvement: real)
    requires IsImprovement([90, 85, 88, 70, 72, 68], improvement)
    ensures improvement == 530.0 / 21.0
  {
    var s := [90, 85, 88, 70, 72, 68];
    assert s[3..6] == [70, 72, 68] && s[..3] == [90, 85, 88];
    assert Sum([70, 72, 68]) == 210 by {
      assert [70, 72, 68][..2] == [70, 72] && [70, 72][..1] == [70] && [70][..0] == [];
    }
    assert Sum([90, 85, 88]) == 263 by {
      assert [90, 85, 88][..2] == [90, 85] && [90, 85][..1] == [90] && [90][..0] == [];
    }
    assert 70.0 * (1.0 + improvement / 100.0) == 263.0 / 3.0;
  }

  datatype Direction = Up | Down

  /** What a trend shows next to its arrow: the literal "+0%" when there is
      no baseline, a signed percentage change, or an unsigned magnitude. */
  datatype TrendLabel = PlusZero | Signed(change: real) | Unsigned(magnitude: real)

  datatype Trend = Trend(direction: Direction, shown: TrendLabel)

  /** Lines 104-111, `getTrend(current, previous)`. A zero baseline gives
      an upward trend shown as "+0%"; otherwise the shown value is the
      percentage change from `previous` to `current` and the arrow points
      up when that change is not negative. */
  function GetTrend(current: real, previous: real): (t: Trend)
    ensures previous == 0.0 ==> t == Trend(Up, PlusZero)
    ensures previous != 0.0 ==> t.shown.Signed? && previous * (1.0 + t.shown.change / 100.0) == current
    ensures previous != 0.0 ==> (t.direction == Up <==> t.shown.change >= 0.0)
    ensures previous > 0.0 ==> (t.direction == Up <==> current >= previous)
    ensures previous < 0.0 ==> (t.direction == Up <==> current <= previous)
  {
    if previous == 0.0 then Trend(Up, PlusZero)
    else
      var change := ((current - previous) / previous) * 100.0;
      ChangeRecovers(current, previous);
      Trend(if change >= 0.0 then Up else Down, Signed(change))
  }

  /** `scores.slice(1)`: every score but the latest, so that putting the
      latest back in front restores the list; empty stays empty. */
  function Earlier(scores: seq<int>): (rest: seq<int>)
    ensures scores == [] ==> rest == []
    ensures scores != [] ==> scores == [scores[0]] + rest
  {
    if scores == [] then [] else scores[1..]
  }

  /** Line 115: the earlier mean divides by `Math.max(1, n - 1)`, so it
      is the same statistic as `AvgScore` taken over `scores.slice(1)`,
      and is 0 rather than undefined when fewer than two scores exist. */
  function PrevAvgScore(scores: seq<int>): (prev: real)
    ensures prev == AvgScore(Earlier(scores))
    ensures |scores| <= 1 ==> prev == 0.0
  {
    var rest := Earlier(scores);
    var divisor := if |scores| - 1 > 1 then |scores| - 1 else 1;
    (Sum(rest) as real) / (divisor as real)
  }

  /** Line 114: `Math.max(0, totalInterviews - 1)`. */
  function PrevTotalInterviews(total: nat): (prev: nat)
    ensures total > 0 ==> prev + 1 == total
    ensures total == 0 ==> prev == 0
  {
    if total - 1 > 0 then total - 1 else 0
  }

  /** The interview-count card never shows a downward trend. */
  lemma TotalTrendUp(total: nat)
    ensures GetTrend(total as real, PrevTotalInterviews(total) as real).direction == Up
  {
  }

  /** The four cards (lines 118-134). */
  datatype Summary = Summary(
    totalInterviews: nat, totalTrend: Trend,
    avgScore: real, avgTrend: Trend,
    bestPerformance: int, bestTrend: Trend,
    improvement: real, improvementTrend: Trend)

  /** The scores the cards are computed from: one rounded mean per
      interview that has a usable rating, in first-seen order. */
  function InterviewScores(answers: seq<Answer>): (scores: seq<int>)
    ensures var es := ScoredEntries(answers);
            var order := GroupAll(es).order;
            && |scores| == |order|
            && (forall k :: k in order <==> HasScoredAnswer(answers, k))
            && forall i :: 0 <= i < |scores| ==>
                 ScoresOf(es, order[i]) != [] && scores[i] == RoundedMean(ScoresOf(es, order[i]))
  {
    var es := ScoredEntries(answers);
    GroupAllDescribes(es);
    GroupedKeys(answers);
    GroupScores(GroupAll(es))
  }

  /** The keys of the grouped map are the interviews with a readable
      rating. */
  lemma GroupedKeys(answers: seq<Answer>)
    ensures forall k :: k in GroupAll(ScoredEntries(answers)).order <==> HasScoredAnswer(answers, k)
  {
    var es := ScoredEntries(answers);
    GroupAllDescribes(es);
    forall k ensures k in GroupAll(es).order <==> HasScoredAnswer(answers, k) {
      ScoredEntriesKeys(answers, k);
    }
  }

  /** `fetchAnalytics` from line 58 on. With no interview the code returns
      before computing anything, so there is no summary. */
  method ComputeSummary(interviews: seq<Interview>, answers: seq<Answer>) returns (summary: Option<Summary>)
    ensures summary.None? <==> interviews == []
    ensures summary.Some? ==>
              var s := summary.value;
              var scores := InterviewScores(answers);
              && s.totalInterviews == |interviews|
              && s.totalTrend == GetTrend(|interviews| as real, PrevTotalInterviews(|interviews|) as real)
              && s.totalTrend.direction == Up
              && s.avgScore == AvgScore(scores)
              && s.avgTrend == GetTrend(s.avgScore, AvgScore(Earlier(scores)))
              && s.bestPerformance == BestPerformance(scores)
              && s.bestTrend == GetTrend(s.bestPerformance as real, BestPerformance(Earlier(scores)) as real)
              && IsImprovement(scores, s.improvement)
              && (s.improvementTrend.direction == Up <==> s.improvement >= 0.0)
              && s.improvementTrend.shown == Unsigned(if s.improvement >= 0.0 then s.improvement else -s.improvement)
  {
    if |interviews| == 0 {
      return None;
    }
    var totalInterviews := |interviews|;
    var g := GroupAnswerScores(answers);
    var scores := GroupScores(g);
    assert scores == InterviewScores(answers);
    var avgScore := AvgScore(scores);
    var bestPerformance := BestPerformance(scores);
    var improvement := ComputeImprovement(scores);
    var prevTotalInterviews := PrevTotalInterviews(totalInterviews);
    var prevAvgScore := PrevAvgScore(scores);
    var prevBestPerformance := BestPerformance(Earlier(scores));
    TotalTrendUp(totalInterviews);
    summary := Some(Summary(
      totalInterviews, GetTrend(totalInterviews as real, prevTotalInterviews as real),
      avgScore, GetTrend(avgScore, prevAvgScore),
      bestPerformance, GetTrend(bestPerformance as real, prevBestPerformance as real),
      improvement,
      Trend(if improvement >= 0.0 then Up else Down,
            Unsigned(if improvement >= 0.0 then improvement else -improvement))));
  }
}
