/** The performance charts of app/dashboard/analytics/page.jsx: one score
    point per interview, sorted by date, and the number of interviews per
    date label. The locale formatting of `formatDate` and the `Date`
    parsing behind the sort comparator are parameters: `formatDate` maps
    a stored `createdAt` to its label, `dateKey` maps a label to the time
    `new Date(label)` stands for. */
module Analytics {
  import opened Wrappers
  import opened Seqs
  import opened Records
  import opened Grouping
  import opened Sorting

  /** Lines 41-44: the entry an answer adds, keeping its `createdAt` for
      the group's date. An answer without a rating, without a date, or
      whose rating `parseInt` cannot read adds nothing. */
  function DatedEntry(a: Answer): (r: seq<Entry<string>>)
    ensures r != [] <==> Truthy(a.createdAt) && RatingScore(a).Some?
    ensures r != [] ==> r == [Entry(a.mockIdRef, RatingScore(a).value, a.createdAt.value)]
  {
    if !Truthy(a.rating) || !Truthy(a.createdAt) then []
    else match RatingScore(a)
      case Some(v) => [Entry(a.mockIdRef, v, a.createdAt.value)]
      case None => []
  }

  function DatedEntries(answers: seq<Answer>): seq<Entry<string>>
  {
    if answers == [] then []
    else DatedEntries(answers[..|answers| - 1]) + DatedEntry(answers[|answers| - 1])
  }

  lemma DatedEntriesStep(answers: seq<Answer>, i: nat)
    requires i < |answers|
    ensures DatedEntries(answers[..i + 1]) == DatedEntries(answers[..i]) + DatedEntry(answers[i])
  {
    assert answers[..i + 1][..i] == answers[..i];
  }

  /** Lines 39-53: the `forEach` that fills `performanceByInterview`. A
      group's date is the `createdAt` of its first kept answer; later
      answers only add scores. */
  method GroupByInterview(answers: seq<Answer>) returns (g: Grouped<string>)
    ensures g == GroupAll(DatedEntries(answers))
    ensures Describes(g, DatedEntries(answers))
  {
    var order: seq<string> := [];
    var groups: map<string, Group<string>> := map[];
    var i := 0;
    assert answers[..i] == [];
    while i < |answers|
      invariant 0 <= i <= |answers|
      invariant Grouped(order, groups) == GroupAll(DatedEntries(answers[..i]))
    {
      var answer := answers[i];
      ghost var before := DatedEntries(answers[..i]);
      DatedEntriesStep(answers, i);
      if Truthy(answer.rating) && Truthy(answer.createdAt) {
        var parsed := RatingScore(answer);
        if parsed.Some? {
          ghost var e := Entry(answer.mockIdRef, parsed.value, answer.createdAt.value);
          assert DatedEntry(answer) == [e];
          GroupAllSnoc(before, e);
          order, groups := AddScore(order, groups, answer.mockIdRef, parsed.value, answer.createdAt.value);
        } else {
          assert before + DatedEntry(answer) == before;
        }
      } else {
        assert before + DatedEntry(answer) == before;
      }
      i := i + 1;
    }
    assert answers[..i] == answers;
    g := Grouped(order, groups);
    GroupAllDescribes(DatedEntries(answers));
  }

  /** A point of the "Performance Over Time" chart. */
  datatype Point = Point(date: string, score: int, mockId: string)

  /** Lines 56-61: one point per group, in the map's order, labelled with
      the formatted first date and scored with the rounded mean. */
  function Points(g: Grouped<string>, formatDate: string -> string): (ps: seq<Point>)
    requires WellFormed(g)
    ensures |ps| == |g.order|
    ensures forall i :: 0 <= i < |ps| ==>
              && ps[i].mockId == g.order[i]
              && ps[i].date == formatDate(g.groups[g.order[i]].first)
              && ps[i].score == GroupScores(g)[i]
  {
    var scores := GroupScores(g);
    seq(|g.order|, i requires 0 <= i < |g.order| =>
      Point(formatDate(g.groups[g.order[i]].first), scores[i], g.order[i]))
  }

  /** Line 62: the comparator `new Date(a.date) - new Date(b.date)`. It
      reads a point's formatted label and nothing else, so two points with
      the same label always compare as equal. */
  function PointKey(dateKey: string -> int): (key: Point -> int)
    ensures forall p: Point, q: Point :: p.date == q.date ==> key(p) == key(q)
  {
    (p: Point) => dateKey(p.date)
  }

  /** `performanceData`, lines 56-62: the points of the interviews, one
      each, ascending by the key of their date label. */
  function PerformanceData(answers: seq<Answer>, formatDate: string -> string, dateKey: string -> int): (perf: seq<Point>)
    ensures var g := GroupAll(DatedEntries(answers));
            && |perf| == |g.order|
            && SortedByKey(perf, PointKey(dateKey))
            && forall p :: p in perf <==> p in Points(g, formatDate)
  {
    var g := GroupAll(DatedEntries(answers));
    var ps := Points(g, formatDate);
    SortByKeyFacts(ps, PointKey(dateKey));
    var perf := SortByKey(ps, PointKey(dateKey));
    assert |perf| == |multiset(perf)| == |multiset(ps)| == |ps|;
    assert forall p :: p in perf <==> p in multiset(perf);
    perf
  }

  /** `performanceData` holds exactly the per-interview points, one per
      interview with a kept answer, ascending by date; points with equal
      dates keep the map's order. */
  lemma PerformanceDataFacts(answers: seq<Answer>, formatDate: string -> string, dateKey: string -> int)
    ensures var g := GroupAll(DatedEntries(answers));
            var perf := PerformanceData(answers, formatDate, dateKey);
            && |perf| == |g.order|
            && multiset(perf) == multiset(Points(g, formatDate))
            && SortedByKey(perf, PointKey(dateKey))
            && forall k :: WithKey(perf, PointKey(dateKey), k) == WithKey(Points(g, formatDate), PointKey(dateKey), k)
  {
    var g := GroupAll(DatedEntries(answers));
    var ps := Points(g, formatDate);
    SortByKeyFacts(ps, PointKey(dateKey));
    var perf := SortByKey(ps, PointKey(dateKey));
    assert |perf| == |multiset(perf)| == |multiset(ps)| == |ps|;
    forall k ensures WithKey(perf, PointKey(dateKey), k) == WithKey(ps, PointKey(dateKey), k) {
      SortByKeyStable(ps, PointKey(dateKey), k);
    }
  }

  /** A bar of the "Interviews by Day" chart. */
  datatype DayCount = DayCount(date: string, count: nat)

  /** The date label of a chart point, and that of a bar. */
  const PointDate: Point -> string := (p: Point) => p.date
  const BucketDate: DayCount -> string := (d: DayCount) => d.date

  /** The date labels of a sequence of points or bars, in order. */
  function Dates<T>(s: seq<T>, date: T -> string): (ls: seq<string>)
    ensures |ls| == |s|
    ensures forall i :: 0 <= i < |s| ==> ls[i] == date(s[i])
  {
    seq(|s|, i requires 0 <= i < |s| => date(s[i]))
  }

  /** The sum of the counts. */
  function TotalCount(days: seq<DayCount>): nat
  {
    if days == [] then 0 else TotalCount(days[..|days| - 1]) + days[|days| - 1].count
  }

  /** `days` tallies `labels`: each label that occurs has exactly one
      bucket, every bucket counts the occurrences of its label (so at least
      one), the counts add up to the number of labels, and the buckets come
      in the order the labels first occur. */
  ghost predicate Tallies(days: seq<DayCount>, labels: seq<string>)
  {
    && Distinct(Dates(days, BucketDate))
    && (forall d :: d in Dates(days, BucketDate) <==> d in labels)
    && (forall i :: 0 <= i < |days| ==> days[i].count == Count(labels, days[i].date) && days[i].count >= 1)
    && TotalCount(days) == |labels|
    && (forall i, j :: 0 <= i < j < |days| ==>
          FirstIndex(labels, days[i].date) < FirstIndex(labels, days[j].date))
  }

  /** A label list has only one tally: the buckets, their order and their
      counts are all determined by the labels. */
  lemma TalliesUnique(days: seq<DayCount>, other: seq<DayCount>, labels: seq<string>)
    requires Tallies(days, labels) && Tallies(other, labels)
    ensures days == other
  {
    var a, b := Dates(days, BucketDate), Dates(other, BucketDate);
    forall i, j | 0 <= i < j < |a| ensures FirstIndex(labels, a[i]) < FirstIndex(labels, a[j]) {
      assert a[i] == days[i].date && a[j] == days[j].date;
    }
    forall i, j | 0 <= i < j < |b| ensures FirstIndex(labels, b[i]) < FirstIndex(labels, b[j]) {
      assert b[i] == other[i].date && b[j] == other[j].date;
    }
    FirstOccurrenceOrderUnique(a, b, labels);
    forall i | 0 <= i < |days| ensures days[i] == other[i] {
      assert days[i].date == a[i] == b[i] == other[i].date;
    }
  }

  /** Two interviews whose points carry the same date label fall into one
      bucket counting 2. */
  lemma SameDayBucket(days: seq<DayCount>, date: string)
    requires Tallies(days, [date, date])
    ensures days == [DayCount(date, 2)]
  {
    var labels := [date, date];
    var expected := [DayCount(date, 2)];
    assert labels[..1] == [date] && [date][..0] == [];
    assert Count([date], date) == 1;
    assert Count(labels, date) == 2;
    assert Dates(expected, BucketDate) == [date];
    assert TotalCount(expected) == 2 by {
      assert expected[..0] == [];
    }
    assert Tallies(expected, labels);
    TalliesUnique(days, expected, labels);
  }

  /** Lines 65-73: the `reduce` that builds `interviewsByDay`, finding the
      bucket with `acc.find` and either incrementing its count in place or
      pushing a new bucket. */
  method InterviewsByDay(points: seq<Point>) returns (days: seq<DayCount>)
    ensures Tallies(days, Dates(points, PointDate))
  {
    days := [];
    var n := 0;
    assert Dates(points[..n], PointDate) == [];
    while n < |points|
      invariant 0 <= n <= |points|
      invariant Tallies(days, Dates(points[..n], PointDate))
    {
      var curr := points[n];
      assert Dates(points[..n + 1], PointDate) == Dates(points[..n], PointDate) + [curr.date];
      var j := 0;
      while j < |days| && days[j].date != curr.date
        invariant 0 <= j <= |days|
        invariant forall m :: 0 <= m < j ==> days[m].date != curr.date
      {
        j := j + 1;
      }
      if j < |days| {
        TalliesBump(days, Dates(points[..n], PointDate), j);
        days := days[j := days[j].(count := days[j].count + 1)];
      } else {
        assert curr.date !in Dates(days, BucketDate);
        TalliesPush(days, Dates(points[..n], PointDate), curr.date);
        days := days + [DayCount(curr.date, 1)];
      }
      n := n + 1;
    }
    assert points[..n] == points;
  }

  lemma CountSnoc(labels: seq<string>, x: string, y: string)
    ensures Count(labels + [x], y) == Count(labels, y) + (if x == y then 1 else 0)
  {
    assert (labels + [x])[..|labels|] == labels;
  }

  lemma {:induction false} TotalCountBump(days: seq<DayCount>, j: nat)
    requires j < |days|
    ensures TotalCount(days[j := days[j].(count := days[j].count + 1)]) == TotalCount(days) + 1
  {
    var days' := days[j := days[j].(count := days[j].count + 1)];
    var n := |days| - 1;
    assert days'[..n] == if j < n then days[..n][j := days[j].(count := days[j].count + 1)] else days[..n];
    if j < n {
      TotalCountBump(days[..n], j);
    }
  }

  /** An existing label: its bucket's count goes up by one. */
  lemma TalliesBump(days: seq<DayCount>, labels: seq<string>, j: nat)
    requires Tallies(days, labels) && j < |days|
    ensures Tallies(days[j := days[j].(count := days[j].count + 1)], labels + [days[j].date])
  {
    var x := days[j].date;
    var days' := days[j := days[j].(count := days[j].count + 1)];
    var labels' := labels + [x];
    assert Dates(days', BucketDate) == Dates(days, BucketDate);
    assert x in labels by { assert Dates(days, BucketDate)[j] == x; }
    FirstIndexSnoc(labels, x);
    forall i | 0 <= i < |days'|
      ensures days'[i].count == Count(labels', days'[i].date)
    {
      CountSnoc(labels, x, days'[i].date);
    }
    TotalCountBump(days, j);
    forall i, k | 0 <= i < k < |days'|
      ensures FirstIndex(labels', days'[i].date) < FirstIndex(labels', days'[k].date)
    {
      assert Dates(days, BucketDate)[i] in labels && Dates(days, BucketDate)[k] in labels;
    }
  }

  /** A new label: a bucket with count 1 goes at the end. */
  lemma TalliesPush(days: seq<DayCount>, labels: seq<string>, x: string)
    requires Tallies(days, labels) && x !in Dates(days, BucketDate)
    ensures Tallies(days + [DayCount(x, 1)], labels + [x])
  {
    var days', labels' := days + [DayCount(x, 1)], labels + [x];
    assert Dates(days', BucketDate) == Dates(days, BucketDate) + [x];
    assert x !in labels;
    FirstIndexSnoc(labels, x);
    CountPositive(labels, x);
    CountSnoc(labels, x, x);
    forall i | 0 <= i < |days|
      ensures days'[i].count == Count(labels', days'[i].date)
    {
      CountSnoc(labels, x, days'[i].date);
    }
    assert days'[..|days|] == days;
    forall i, k | 0 <= i < k < |days'|
      ensures FirstIndex(labels', days'[i].date) < FirstIndex(labels', days'[k].date)
    {
      assert Dates(days, BucketDate)[i] in labels;
      if k < |days| { assert Dates(days, BucketDate)[k] in labels; }
    }
  }

  /** `fetchAnalytics` of the analytics page from line 38 on. */
  method ComputeCharts(answers: seq<Answer>, formatDate: string -> string, dateKey: string -> int)
    returns (performanceData: seq<Point>, interviewsByDay: seq<DayCount>)
    ensures performanceData == PerformanceData(answers, formatDate, dateKey)
    ensures Tallies(interviewsByDay, Dates(performanceData, PointDate))
    ensures TotalCount(interviewsByDay) == |performanceData|
  {
    var g := GroupByInterview(answers);
    performanceData := SortByKey(Points(g, formatDate), PointKey(dateKey));
    interviewsByDay := InterviewsByDay(performanceData);
  }
}
