# Interview performance statistics — a Dafny model

The model covers the client-side statistics of the mock-interview web app. It turns the fetched interview records (`MockInterview` rows) and answer records (`UserAnswer` rows) into the numbers the user sees. There are three places that do this:

* **Dashboard cards** (`app/dashboard/_components/DashboardAnalytics.jsx`):
  * The answers with a readable rating are grouped per interview, in first-seen order.
  * Each interview's ratings are averaged and rounded.
  * From those per-interview scores the code derives the average, the best score, the improvement of the three latest interviews over the three before them, and a trend for each card.
  * With no interview at all, the code stops before computing anything.
* **Analytics charts** (`app/dashboard/analytics/page.jsx`):
  * The same grouping is done, remembering each interview's first answer date.
  * The result is one chart point per interview, stably sorted by a date key.
  * The points are then counted per date label.
* **Profile stats** (`app/dashboard/profile/page.jsx`):
  * Every answer's rating is pooled, and a missing rating reads as "0".
  * The rounded mean and the interview count decide the "Advanced" level and the badges.

Module layout:

| module | holds |
|---|---|
| `Wrappers` | `Option` |
| `JsNumbers` | JavaScript's `parseInt(s, 10)` and `Math.round` |
| `Seqs` | sums, means, rounded means, first occurrences |
| `Records` | the answer and interview records and the "readable rating" rule |
| `Grouping` | the insertion-ordered `Map` from interview reference to scores |
| `Sorting` | a stable sort by an integer key, the `Array.prototype.sort` the charts use |
| `Dashboard`, `Analytics`, `Profile` | the three computations |

Loops that update variables are modelled as methods with loop invariants:
* the `forEach` over answers: `GroupAnswerScores`, `GroupByInterview`;
* the `reduce` that counts days: `InterviewsByDay`.

Each of these methods is proved to compute a function or satisfy a predicate that states the loop's result without the loop. The properties of that function or predicate are proved as lemmas. Expression-only code is modelled as functions.

Two behaviours of the code are worth stating plainly:

* With no interviews, the dashboard code returns early and sets no statistics (`DashboardAnalytics.jsx:58-64`). The cards keep their initial values. `ComputeSummary` returns `None` there.
* `getTrend` points up when `(current - previous) / previous >= 0` (`DashboardAnalytics.jsx:106-108`):
  * For a positive baseline, that means `current >= previous`.
  * For a negative baseline, it means `current <= previous`. So it differs from "current is at least previous" exactly when `current != previous`.
  * `parseInt` accepts negative ratings, so a negative baseline is possible. `GetTrend` states both cases.

## Model

| member | source | states |
|---|---|---|
| JsNumbers.ParseInt | app/dashboard/_components/DashboardAnalytics.jsx:74-75 | `parseInt(s, 10)` is NaN (`None`) exactly when, after leading white space and one optional sign, no decimal digit follows |
| JsNumbers.ParseIntShow | app/dashboard/_components/DashboardAnalytics.jsx:74 | reading the decimal text of any integer, followed by any non-digit suffix, gives that integer back |
| JsNumbers.ParseIntRoundTrip | app/dashboard/analytics/page.jsx:43 | `parseInt` inverts decimal printing for every integer |
| JsNumbers.ParseIntSkipsWhitespace | app/dashboard/analytics/page.jsx:43 | leading JavaScript white space does not change what `parseInt` reads |
| JsNumbers.MathRound | app/dashboard/_components/DashboardAnalytics.jsx:86 | `Math.round(x)` is the integer within half a unit of `x`, with halves rounded up |
| JsNumbers.MathRoundBetween | app/dashboard/_components/DashboardAnalytics.jsx:84-87 | rounding a value that lies between two integers stays between them |
| Records.RatingScore | app/dashboard/_components/DashboardAnalytics.jsx:72-75 | an answer contributes a score exactly when its rating is truthy and parses to a number, and the score is the parsed value |
| Seqs.RoundedMean | app/dashboard/_components/DashboardAnalytics.jsx:84-87 | an interview's score is its mean rating rounded to the nearest integer, and lies between its lowest and highest rating |
| Seqs.RoundedMeanExample | app/dashboard/_components/DashboardAnalytics.jsx:84-87 | ratings 80, 90 and 85 give the interview score 85 |
| Seqs.MeanBetween | app/dashboard/_components/DashboardAnalytics.jsx:90-91 | the mean of a non-empty list lies between its minimum and maximum |
| Seqs.MeanTimesLength | app/dashboard/_components/DashboardAnalytics.jsx:90-91 | the mean times the length gives back the sum |
| Seqs.Max | app/dashboard/_components/DashboardAnalytics.jsx:93 | `Math.max(...scores)` is an element of the list and no element exceeds it |
| Grouping.Insert | app/dashboard/_components/DashboardAnalytics.jsx:77-80 | a new key joins the end of the iteration order with a group holding this entry's data and score; a known key keeps its place and data and gets the score appended; no other group changes |
| Grouping.AddScore | app/dashboard/_components/DashboardAnalytics.jsx:77-80 | one `has`/`set`/`push` step: a new key gets a group and goes to the end of the key order, a known key gets the score appended, no other group changes |
| Grouping.GroupAll | app/dashboard/_components/DashboardAnalytics.jsx:70-81 | the map built by the loop has distinct keys in its order, a group exactly for each key in the order, and no empty group |
| Grouping.GroupAllDescribes | app/dashboard/_components/DashboardAnalytics.jsx:70-81 | the map has a key exactly for each interview among the entries; each key's scores are that interview's scores in input order; its remembered data comes from its first entry; keys are ordered by first appearance |
| Grouping.InsertDescribes | app/dashboard/analytics/page.jsx:46-52 | adding one entry to a map that describes a prefix gives a map that describes the longer prefix |
| Grouping.GroupScores | app/dashboard/_components/DashboardAnalytics.jsx:84-87 | one score per map key, in key order, each the rounded mean of that key's ratings and within their range |
| Dashboard.ScoredEntriesKeys | app/dashboard/_components/DashboardAnalytics.jsx:71-81 | an interview gets a group if and only if at least one of its answers has a readable rating |
| Dashboard.GroupAnswerScores | app/dashboard/_components/DashboardAnalytics.jsx:70-81 | the loop over the answers builds exactly `GroupAll` of the answers with a readable rating, so the map has every property `Describes` lists |
| Dashboard.AvgScore | app/dashboard/_components/DashboardAnalytics.jsx:90-91 | the average card is 0 with no scores, and otherwise a value between the lowest and highest per-interview score |
| Dashboard.BestPerformance | app/dashboard/_components/DashboardAnalytics.jsx:93 | the best card is 0 with no scores, and otherwise the highest per-interview score, which is one of them |
| Dashboard.ComputeImprovement | app/dashboard/_components/DashboardAnalytics.jsx:96-101 | improvement is 0 with fewer than six scores or a non-positive earlier mean; otherwise it is the percentage that, applied to the mean of scores 4-6, gives the mean of scores 1-3, and it is positive or negative exactly when the latest mean is higher or lower |
| Dashboard.ChangeRecovers | app/dashboard/_components/DashboardAnalytics.jsx:106 | the percentage change applied to the baseline gives back the current value, and its sign follows the comparison of the two values |
| Dashboard.ImprovementExample | app/dashboard/_components/DashboardAnalytics.jsx:96-101 | for scores 90, 85, 88, 70, 72, 68 the improvement is 530/21 per cent (about 25.2%) |
| Dashboard.GetTrend | app/dashboard/_components/DashboardAnalytics.jsx:104-111 | a zero baseline gives "up, +0%"; otherwise the shown change recovers the current value from the baseline, and the arrow is up exactly when the change is not negative, which for a positive baseline means the current value is at least the baseline |
| Dashboard.PrevTotalInterviews | app/dashboard/_components/DashboardAnalytics.jsx:114 | the previous interview count is one less than the current count, and never negative |
| Dashboard.TotalTrendUp | app/dashboard/_components/DashboardAnalytics.jsx:114-121 | the interview-count trend always points up |
| Dashboard.Earlier | app/dashboard/_components/DashboardAnalytics.jsx:115-116 | `scores.slice(1)` is what remains after the latest score: putting that score back in front restores the list, and an empty list stays empty |
| Dashboard.PrevAvgScore | app/dashboard/_components/DashboardAnalytics.jsx:115 | the previous-period average, with its `max(1, n - 1)` divisor, equals the average over every score but the latest, and is 0 with fewer than two scores |
| Dashboard.InterviewScores | app/dashboard/_components/DashboardAnalytics.jsx:84-87 | one score per interview that has a readable rating, in first-seen order, each the rounded mean of that interview's readable ratings |
| Dashboard.ComputeSummary | app/dashboard/_components/DashboardAnalytics.jsx:58-137 | no summary exactly when there are no interviews; otherwise each card and trend is the stated function of the per-interview scores, and the improvement trend's magnitude is the absolute value of the improvement |
| Analytics.DatedEntry | app/dashboard/analytics/page.jsx:41-44 | an answer feeds the chart exactly when it has a truthy rating that parses and a truthy creation date |
| Analytics.GroupByInterview | app/dashboard/analytics/page.jsx:39-53 | the loop builds the grouped map described above; each interview keeps the creation date of its first dated, rated answer |
| Analytics.Points | app/dashboard/analytics/page.jsx:56-61 | one chart point per interview, in map order, carrying its formatted first date, its rounded mean score and its reference |
| Analytics.PointKey | app/dashboard/analytics/page.jsx:62 | the sort key reads only a point's formatted date label, so points with the same label always compare as equal |
| Analytics.PerformanceData | app/dashboard/analytics/page.jsx:56-62 | one point per interview, ascending by date key, and a point is in the chart exactly when it is one of the interviews' points |
| Sorting.SortByKeyFacts | app/dashboard/analytics/page.jsx:62 | the sort returns its input ascending by key and as a permutation of it |
| Sorting.SortByKeyStable | app/dashboard/analytics/page.jsx:62 | points with equal keys keep their relative order |
| Analytics.PerformanceDataFacts | app/dashboard/analytics/page.jsx:56-62 | the chart data has one point per interview, is a permutation of the unsorted points, is ascending by date key, and is stable |
| Analytics.InterviewsByDay | app/dashboard/analytics/page.jsx:65-73 | one bucket per distinct date label, in order of first appearance; each count is the number of points with that label; the counts add up to the number of points |
| Analytics.TalliesUnique | app/dashboard/analytics/page.jsx:65-73 | a list of date labels has exactly one tally, so the buckets, their order and their counts are fully determined by the points |
| Analytics.SameDayBucket | app/dashboard/analytics/page.jsx:65-73 | two points with the same date label give a single bucket with count 2 |
| Analytics.TalliesBump | app/dashboard/analytics/page.jsx:67-68 | incrementing the bucket of an already seen label keeps the tally exact for the longer label list |
| Analytics.TalliesPush | app/dashboard/analytics/page.jsx:69-70 | appending a bucket with count 1 for an unseen label keeps the tally exact |
| Analytics.ComputeCharts | app/dashboard/analytics/page.jsx:39-73 | the two chart series are the sorted points and their exact per-label tally, whose total is the number of points |
| Profile.ProfileRating | app/dashboard/profile/page.jsx:46 | a missing or empty rating reads as 0; a present one is parsed as on the dashboard |
| Profile.ProfileScores | app/dashboard/profile/page.jsx:45-47 | at most one score per answer; every score is some answer's reading, and every answer that reads as a number contributes its score |
| Profile.ProfileScoresPool | app/dashboard/profile/page.jsx:45-47 | the pooled list has the same sum as the readable ratings and is longer by one 0 per missing rating |
| Profile.PooledAverage | app/dashboard/profile/page.jsx:48-57 | the average is 0 with no ratings, and otherwise the pooled mean rounded, within half a point of it and within the ratings' range |
| Profile.UserStats | app/dashboard/profile/page.jsx:42-57 | the interview count, 15 minutes per interview, and the rounded pooled average |
| Profile.Level | app/dashboard/profile/page.jsx:181 | the level is "Advanced" exactly when there are at least 10 interviews, and "Beginner" otherwise |
| Profile.ExperiencedBadge | app/dashboard/profile/page.jsx:131 | the "Experienced" badge is shown exactly when the level is "Advanced" |
| Profile.TopPerformerBadge | app/dashboard/profile/page.jsx:136 | the "Top Performer" badge is shown exactly when every mean that `Math.round` turns into the displayed average is at least 79.5 |
| Profile.TopPerformerThreshold | app/dashboard/profile/page.jsx:136 | the "Top Performer" badge never shows without ratings; with ratings it shows exactly when the pooled mean is at least 79.5 |

## Left out

- React state, effects, rendering and loading flags are left out. So are the Clerk user lookup and the database queries. The fetched rows are inputs, in the order the queries return them.
- The `catch` branches are left out. They cover failures of the queries, which are not modelled.
- Display strings are left out: `toString`, `toFixed`, and the `%` and `+` decorations. Trends carry the numeric change and not its formatted text.
- `formatDate` and the `new Date(label)` sort key are parameters of the chart computation. Invalid dates, which give a `NaN` key, are not modelled: sorting with a NaN-returning comparator is implementation-defined.
- The date key is computed from the formatted label "Mon D", which has no year. The model keeps that shape: the key is a function of the label only. It does not prove the chart chronological across years, because the code does not make it so.
- Arithmetic is exact: integers are unbounded and means are exact rationals. The model does not capture IEEE double rounding, or `parseInt` losing precision above 2^53.
- Dashboard.AvgScore: states the range of the average but not `avg * n == sum`. That identity is proved separately for the mean in `Seqs.MeanTimesLength`.
- The settings page, the settings API route, the header, the interview pages and the database schema are not part of this model.
