/** The rows the statistics are computed from, as the database returns
    them (`userAnswer` and `mockInterview` tables), and JavaScript's
    truthiness test on their nullable text columns. */
module Records {
  import opened Wrappers
  import opened JsNumbers

  /** A row of `userAnswer`; `rating` and `createdAt` are nullable text. */
  datatype Answer = Answer(mockIdRef: string, rating: Option<string>, createdAt: Option<string>)

  /** A row of `mockInterview`; only how many there are matters here. */
  datatype Interview = Interview(mockId: string, createdBy: string, createdAt: Option<string>)

  /** `!!v` for a nullable string: false for `null` and for "". */
  predicate Truthy(v: Option<string>)
  {
    v.Some? && v.value != []
  }

  /** The score an answer's rating gives, as both the dashboard and the
      analytics page read it: none when the rating is null or empty
      (`!answer.rating`), none when `parseInt` gives `NaN`. */
  function RatingScore(a: Answer): (r: Option<int>)
    ensures r.Some? <==> Truthy(a.rating) && ParseInt(a.rating.value).Some?
    ensures r.Some? ==> r == ParseInt(a.rating.value)
  {
    if !Truthy(a.rating) then None else ParseInt(a.rating.value)
  }
}
