/**
 * The movie request schemas: the range check on a movie id and the
 * listing query with its enumerated `sort_by` tokens.
 */
module MovieSchemas {
  import opened Wrappers
  import opened Validation

  const MinId: int := 1
  const MaxId: int := 1000000000

  /**
   * A route id after `parseInt`: `NaN` when no digits lead, an integer,
   * or an infinity when the digits overflow a double (309 or more).
   */
  datatype ParsedId = NotANumber | Finite(n: int) | Infinite(negative: bool)

  /**
   * Checks a parsed movie id. The number checks all run, in declaration
   * order: an infinity fails the integer check and then the bound on its
   * side, so it gets two issues.
   */
  function ValidateId(p: ParsedId): (r: Result<int, seq<Issue>>)
    ensures r.Ok? <==> p.Finite? && MinId <= p.n <= MaxId
    ensures r.Ok? ==> r.value == p.n
    ensures r.Err? ==> r.error != []
    ensures p.NotANumber? ==> r == Err([Issue("", InvalidType)])
    ensures p.Finite? && p.n < MinId ==> r == Err([Issue("", TooSmall(MinId))])
    ensures p.Finite? && p.n > MaxId ==> r == Err([Issue("", TooBig(MaxId))])
    ensures p.Infinite? && p.negative ==> r == Err([Issue("", NotInteger), Issue("", TooSmall(MinId))])
    ensures p.Infinite? && !p.negative ==> r == Err([Issue("", NotInteger), Issue("", TooBig(MaxId))])
  {
    match p
    case NotANumber => Err([Issue("", InvalidType)])
    case Infinite(negative) =>
      if negative then Err([Issue("", NotInteger), Issue("", TooSmall(MinId))])
      else Err([Issue("", NotInteger), Issue("", TooBig(MaxId))])
    case Finite(v) =>
      if v < MinId then Err([Issue("", TooSmall(MinId))])
      else if v > MaxId then Err([Issue("", TooBig(MaxId))])
      else Ok(v)
  }

  /** The sort orders the provider's discovery endpoint accepts, in the schema's order. */
  const SortTokens: seq<string> := [
    "popularity.asc", "popularity.desc",
    "release_date.asc", "release_date.desc",
    "revenue.asc", "revenue.desc",
    "primary_release_date.asc", "primary_release_date.desc",
    "title.asc", "title.desc",
    "vote_average.asc", "vote_average.desc",
    "vote_count.asc", "vote_count.desc"]

  /** The message a rejected `sort_by` carries, exactly as the schema writes it. */
  const SortByMessage: string :=
    "sort_by must be one of popularity.asc, popularity.desc, release_date.asc, release_date.desc, revenue.asc, revenue.desc, primary_release_date.asc, primary_release_date.desc, title.asc, title.desc, vote_average.asc, vote_average.desc, vote_count.asc, vote_count.desc"

  /** The listing query as it arrives, one field per declared key. */
  datatype QueryBody = QueryBody(page: Field, year: Field, sortBy: Field)

  /**
   * The listing query once validated. Keys the schema does not declare
   * are dropped, so these three are all that is forwarded upstream.
   */
  datatype MovieQuery = MovieQuery(page: string, year: string, sortBy: string)

  function SortByIssues(f: Field): (r: seq<Issue>)
  {
    if !f.Text? then TypeIssues("sort_by", f)
    else if f.s in SortTokens then []
    else [Issue("sort_by", Mismatch(SortByMessage))]
  }

  /**
   * Validates the listing query: all three keys are required strings,
   * and `sort_by` must be one of the tokens. Issues are reported for
   * every rejected field, in declaration order.
   */
  function ValidateQuery(q: QueryBody): (r: Result<MovieQuery, seq<Issue>>)
    ensures r.Ok? <==> q.page.Text? && q.year.Text? && q.sortBy.Text? && q.sortBy.s in SortTokens
    ensures r.Ok? ==> r.value == MovieQuery(q.page.s, q.year.s, q.sortBy.s)
    ensures r.Err? ==> r.error != []
    ensures q.sortBy.Text? && q.sortBy.s !in SortTokens ==>
              r.Err? && Issue("sort_by", Mismatch(SortByMessage)) in r.error
    ensures q.page.Absent? ==> r.Err? && Issue("page", Required) in r.error
    ensures q.year.Absent? ==> r.Err? && Issue("year", Required) in r.error
    ensures q.sortBy.Absent? ==> r.Err? && Issue("sort_by", Required) in r.error
  {
    var issues := TypeIssues("page", q.page) + TypeIssues("year", q.year) + SortByIssues(q.sortBy);
    if issues == [] then Ok(MovieQuery(q.page.s, q.year.s, q.sortBy.s)) else Err(issues)
  }

  /** `page` and `year` are taken as any strings: no numeric or positivity check applies. */
  lemma AnyPageAndYear(page: string, year: string, i: nat)
    requires i < |SortTokens|
    ensures ValidateQuery(QueryBody(Text(page), Text(year), Text(SortTokens[i])))
            == Ok(MovieQuery(page, year, SortTokens[i]))
  {
  }
}
