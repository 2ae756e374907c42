/**
 * The movie controller: the detail path merges a movie, its credits and
 * the local review rows into one payload; the listing path reshapes a
 * discovery page and resolves its genre ids against the genre catalog.
 *
 * Both paths are total functions of the request and of a `Backend` that
 * answers the upstream fetches and the review query. A reply also lists
 * the external calls the path made, in order. A JavaScript exception
 * thrown while reshaping is caught by the controller and answered as a
 * failure carrying the exception's message; those failures are explicit
 * here, with the wording of the V8 engine. Every failure of both paths is
 * sent with HTTP status 400.
 */
module MoviesController {
  import opened Wrappers
  import opened Validation
  import opened Tmdb
  import opened MovieSchemas

  /** One row of the review join query: a review, its author, and the local media id. */
  datatype ReviewRow = ReviewRow(
    reviewId: int,
    content: string,
    userEmail: string,
    userFirstname: string,
    userLastname: string,
    id: int)

  /** The answers of the provider and of the local store, as functions of what is asked. */
  datatype Backend = Backend(
    movie: int -> Outcome<Movie>,
    credits: int -> Outcome<Credits>,
    reviews: int -> Outcome<seq<ReviewRow>>,
    discover: MovieQuery -> Outcome<DiscoverPage>,
    genres: Outcome<GenreCatalog>)

  /** An external call a controller path makes. */
  datatype Call =
    | FetchMovie(movieId: int)
    | FetchCredits(movieId: int)
    | QueryReviews(movieId: int)
    | FetchDiscover(query: MovieQuery)
    | FetchGenres

  datatype FailBody = Message(text: string) | Invalid(issues: seq<Issue>)

  /** The JSON envelope: `{status: "success", data}` or `{status: "fail", error}`. */
  datatype Response<+T> = Success(data: T) | Fail(error: FailBody)

  datatype Reply<+T> = Reply(response: Response<T>, calls: seq<Call>)

  const DetailPosterPrefix: string := "https://image.tmdb.org/t/p/w300_and_h450_bestv2/"
  const ListingPosterPrefix: string := "https://image.tmdb.org/t/p/w300_and_h450_bestv2"
  const ProfilePrefix: string := "https://image.tmdb.org/t/p/w300_and_h300_bestv2"

  const NoPageFound: string := "No page found"
  /** Reading `.cast.map` of a credits error object, which has no `cast`. */
  const CastMapError: string := "Cannot read properties of undefined (reading 'map')"
  /** Reading `.genres.find` of a catalog error object, which has no `genres`. */
  const GenreFindError: string := "Cannot read properties of undefined (reading 'find')"
  /** Reading `.id` of the `undefined` a catalog lookup gives for an unknown genre. */
  const GenreIdError: string := "Cannot read properties of undefined (reading 'id')"

  const Director: string := "Director"

  /**
   * An image path made absolute. A missing or empty path is falsy in
   * JavaScript and gives `null`; any other path is appended to the prefix.
   */
  function ImageUrl(prefix: string, path: Option<string>): (r: Option<string>)
    ensures r.None? <==> path.None? || path.value == ""
    ensures r.Some? ==> |prefix| < |r.value| && r.value[..|prefix|] == prefix && r.value[|prefix|..] == path.value
  {
    if path.None? || path.value == "" then None else Some(prefix + path.value)
  }

  /**
   * The detail poster prefix ends in a slash the listing one lacks, so the
   * same poster gets two different addresses; profile pictures use a
   * third size.
   */
  lemma PosterPrefixes(path: string)
    requires path != ""
    ensures DetailPosterPrefix == ListingPosterPrefix + "/"
    ensures ImageUrl(DetailPosterPrefix, Some(path)) == Some(ListingPosterPrefix + "/" + path)
    ensures ImageUrl(DetailPosterPrefix, Some(path)) != ImageUrl(ListingPosterPrefix, Some(path))
    ensures ProfilePrefix != ListingPosterPrefix && ProfilePrefix != DetailPosterPrefix
    ensures ListingPosterPrefix[|ListingPosterPrefix| - 1] != '/' && ProfilePrefix[|ProfilePrefix| - 1] != '/'
  {
  }

  // ---------------------------------------------------------------------
  // Detail path

  datatype CastEntry = CastEntry(id: int, name: string, character: string, profilePath: Option<string>)
  datatype CrewEntry = CrewEntry(id: int, name: string, job: string, profilePath: Option<string>)

  /** The merged detail payload; every key is present, and a missing or empty poster path becomes `None` (`null`). */
  datatype MovieDetail = MovieDetail(
    tmdbId: int,
    id: Option<int>,
    titleFr: string,
    status: string,
    originalTitle: string,
    adult: bool,
    originalLanguage: string,
    releaseDate: string,
    runtime: int,
    budget: int,
    popularity: real,
    rating: real,
    country: seq<string>,
    genres: seq<Genre>,
    tagline: string,
    overview: string,
    posterPath: Option<string>,
    cast: seq<CastEntry>,
    crew: seq<CrewEntry>,
    reviews: seq<ReviewRow>)

  function CastEntryOf(c: CastCredit): (e: CastEntry)
  {
    CastEntry(c.castId, c.name, c.character, ImageUrl(ProfilePrefix, c.profilePath))
  }

  function CrewEntryOf(c: CrewCredit): (e: CrewEntry)
  {
    CrewEntry(c.id, c.name, c.job, ImageUrl(ProfilePrefix, c.profilePath))
  }

  function Min(a: int, b: int): (m: int) { if a <= b then a else b }

  /** The cast, reshaped and cut to its first five entries in the provider's order. */
  function ShapeCast(cast: seq<CastCredit>): (r: seq<CastEntry>)
    ensures |r| == Min(5, |cast|)
    ensures forall i | 0 <= i < |r| ::
              && r[i].id == cast[i].castId
              && r[i].name == cast[i].name
              && r[i].character == cast[i].character
              && r[i].profilePath == ImageUrl(ProfilePrefix, cast[i].profilePath)
  {
    var all := seq(|cast|, i requires 0 <= i < |cast| => CastEntryOf(cast[i]));
    all[..Min(5, |all|)]
  }

  /** Credits past the fifth never reach the payload. */
  lemma CastIgnoresTail(first: seq<CastCredit>, rest: seq<CastCredit>)
    requires |first| >= 5
    ensures ShapeCast(first + rest) == ShapeCast(first)
  {
  }

  /** The crew members whose job is "Director", reshaped, in the provider's order. */
  function Directors(crew: seq<CrewCredit>): (r: seq<CrewEntry>)
    ensures |r| <= |crew|
    ensures forall k | 0 <= k < |r| :: r[k].job == Director
    ensures forall i | 0 <= i < |crew| && crew[i].job == Director :: CrewEntryOf(crew[i]) in r
    ensures forall e | e in r :: exists c | c in crew :: c.job == Director && e == CrewEntryOf(c)
  {
    if crew == [] then []
    else
      var rest := Directors(crew[1..]);
      assert forall i | 1 <= i < |crew| :: crew[i] == crew[1..][i - 1];
      if crew[0].job == Director then [CrewEntryOf(crew[0])] + rest else rest
  }

  /** Filtering the crew distributes over concatenation. */
  lemma {:induction false} DirectorsAppend(a: seq<CrewCredit>, b: seq<CrewCredit>)
    ensures Directors(a + b) == Directors(a) + Directors(b)
  {
    if a == [] {
      assert a + b == b;
    } else {
      assert (a + b)[1..] == a[1..] + b;
      DirectorsAppend(a[1..], b);
    }
  }

  /**
   * Together with `DirectorsAppend`, this pins `Directors` down to "keep
   * exactly the directors, in order": a single credit is kept, reshaped,
   * iff its job is "Director".
   */
  lemma DirectorsSingle(c: CrewCredit)
    ensures Directors([c]) == if c.job == Director then [CrewEntryOf(c)] else []
  {
  }

  /**
   * The merge of the three answers. Scalar fields of the movie are copied
   * under their payload names; the local `id` is the first review row's
   * media id, present iff some review exists; the rows are kept as they are.
   */
  function Merge(movie: Movie, credits: Credits, rows: seq<ReviewRow>): (d: MovieDetail)
    ensures d.id.Some? <==> |rows| > 0
    ensures d.id.Some? ==> d.id.value == rows[0].id
    ensures d.reviews == rows
    ensures d.tmdbId == movie.id && d.titleFr == movie.title && d.rating == movie.voteAverage
    ensures d.country == movie.originCountry && d.genres == movie.genres
    ensures d.posterPath.None? <==> movie.posterPath.None? || movie.posterPath.value == ""
    ensures d.posterPath.Some? ==> d.posterPath.value == DetailPosterPrefix + movie.posterPath.value
    ensures d.status == movie.status && d.originalTitle == movie.originalTitle
    ensures d.adult == movie.adult && d.originalLanguage == movie.originalLanguage
    ensures d.releaseDate == movie.releaseDate && d.runtime == movie.runtime && d.budget == movie.budget
    ensures d.popularity == movie.popularity && d.tagline == movie.tagline && d.overview == movie.overview
    ensures d.cast == ShapeCast(credits.cast) && |d.cast| <= 5
    ensures d.crew == Directors(credits.crew)
    ensures forall k | 0 <= k < |d.crew| :: d.crew[k].job == Director
  {
    MovieDetail(
      tmdbId := movie.id,
      id := if |rows| > 0 then Some(rows[0].id) else None,
      titleFr := movie.title,
      status := movie.status,
      originalTitle := movie.originalTitle,
      adult := movie.adult,
      originalLanguage := movie.originalLanguage,
      releaseDate := movie.releaseDate,
      runtime := movie.runtime,
      budget := movie.budget,
      popularity := movie.popularity,
      rating := movie.voteAverage,
      country := movie.originCountry,
      genres := movie.genres,
      tagline := movie.tagline,
      overview := movie.overview,
      posterPath := ImageUrl(DetailPosterPrefix, movie.posterPath),
      cast := ShapeCast(credits.cast),
      crew := Directors(credits.crew),
      reviews := rows)
  }

  /** A call that concerns the movie `id`. */
  predicate ForMovie(c: Call, id: int)
  {
    (c.FetchMovie? || c.FetchCredits? || c.QueryReviews?) && c.movieId == id
  }

  /**
   * The detail request for the route's id, already through `parseInt`.
   * The id is validated before anything is fetched; a
   * failed movie fetch ends the request before the credits fetch and the
   * review query. The credits error object is only read while the payload
   * is built, after the review query, so a review query failure is the one
   * reported when both fail, and a credits failure fails the whole request.
   */
  function GetMovieById(idParam: ParsedId, b: Backend): (r: Reply<MovieDetail>)
    ensures ValidateId(idParam).Err? ==> r == Reply(Fail(Invalid(ValidateId(idParam).error)), [])
    ensures ValidateId(idParam).Ok? ==>
              |r.calls| > 0 && forall k | 0 <= k < |r.calls| :: ForMovie(r.calls[k], ValidateId(idParam).value)
    ensures ValidateId(idParam).Ok? && b.movie(ValidateId(idParam).value).Error? ==>
              r == Reply(Fail(Message(b.movie(ValidateId(idParam).value).message)), [FetchMovie(ValidateId(idParam).value)])
    ensures ValidateId(idParam).Ok? && b.movie(ValidateId(idParam).value).Data? ==>
              r.calls == [FetchMovie(ValidateId(idParam).value), FetchCredits(ValidateId(idParam).value), QueryReviews(ValidateId(idParam).value)]
    ensures ValidateId(idParam).Ok? && b.movie(ValidateId(idParam).value).Data? && b.reviews(ValidateId(idParam).value).Error? ==>
              r.response == Fail(Message(b.reviews(ValidateId(idParam).value).message))
    ensures ValidateId(idParam).Ok? && b.movie(ValidateId(idParam).value).Data? && b.reviews(ValidateId(idParam).value).Data?
            && b.credits(ValidateId(idParam).value).Error? ==>
              r.response == Fail(Message(CastMapError))
    ensures r.response.Success? <==>
              ValidateId(idParam).Ok? && b.movie(ValidateId(idParam).value).Data?
              && b.credits(ValidateId(idParam).value).Data? && b.reviews(ValidateId(idParam).value).Data?
    ensures r.response.Success? ==>
              r.response.data == Merge(b.movie(ValidateId(idParam).value).body, b.credits(ValidateId(idParam).value).body, b.reviews(ValidateId(idParam).value).body)
  {
    match ValidateId(idParam)
    case Err(issues) => Reply(Fail(Invalid(issues)), [])
    case Ok(id) =>
      match b.movie(id)
      case Error(m) => Reply(Fail(Message(m)), [FetchMovie(id)])
      case Data(movie) =>
        var calls := [FetchMovie(id), FetchCredits(id), QueryReviews(id)];
        match b.reviews(id)
        case Error(m) => Reply(Fail(Message(m)), calls)
        case Data(rows) =>
          match b.credits(id)
          case Error(_) => Reply(Fail(Message(CastMapError)), calls)
          case Data(credits) => Reply(Success(Merge(movie, credits, rows)), calls)
  }

  // ---------------------------------------------------------------------
  // Listing path

  /** One movie of the listing payload; `genres` is `null` when the provider sent no genre ids. */
  datatype MovieSummary = MovieSummary(
    tmdbId: int,
    titleFr: string,
    releaseDate: string,
    posterPath: Option<string>,
    genres: Option<seq<Genre>>,
    voteAverage: real,
    voteCount: int)

  /** Some genre of the catalog has this id. */
  predicate Known(catalog: seq<Genre>, id: int)
  {
    exists g | g in catalog :: g.id == id
  }

  /** The first genre of the catalog with this id, as `Array.prototype.find` returns it. */
  function FindGenre(catalog: seq<Genre>, id: int): (r: Option<Genre>)
    ensures r.None? <==> !Known(catalog, id)
    ensures r.Some? ==> r.value.id == id
    ensures r.Some? ==> exists i | 0 <= i < |catalog| ::
              catalog[i] == r.value && forall j | 0 <= j < i :: catalog[j].id != id
  {
    if catalog == [] then None
    else if catalog[0].id == id then Some(catalog[0])
    else
      var r := FindGenre(catalog[1..], id);
      assert forall j | 1 <= j < |catalog| :: catalog[j] == catalog[1..][j - 1];
      r
  }

  /**
   * Whether a listing entry's genre ids can be resolved: no ids, an empty
   * list (the lookup never runs), or every id known to an available catalog.
   */
  predicate Resolvable(ids: Option<seq<int>>, catalog: Option<seq<Genre>>)
  {
    ids.None? || ids.value == []
    || (catalog.Some? && forall k | 0 <= k < |ids.value| :: Known(catalog.value, ids.value[k]))
  }

  /** The message of the exception a failed resolution throws. */
  function ResolutionError(catalog: Option<seq<Genre>>): (message: string)
  {
    if catalog.None? then GenreFindError else GenreIdError
  }

  /**
   * Each genre id looked up in the catalog, in order; `catalog` is `None`
   * when the catalog fetch failed. The first id that cannot be looked up
   * throws, which fails the resolution.
   */
  function ResolveGenres(ids: seq<int>, catalog: Option<seq<Genre>>): (r: Result<seq<Genre>, string>)
    ensures r.Ok? <==> Resolvable(Some(ids), catalog)
    ensures r.Ok? ==> |r.value| == |ids|
    ensures r.Ok? ==> forall k | 0 <= k < |ids| ::
              catalog.Some? && r.value[k].id == ids[k] && FindGenre(catalog.value, ids[k]) == Some(r.value[k])
    ensures r.Err? ==> r.error == ResolutionError(catalog)
  {
    if ids == [] then Ok([])
    else if catalog.None? then Err(GenreFindError)
    else
      match FindGenre(catalog.value, ids[0])
      case None => Err(GenreIdError)
      case Some(g) =>
        match ResolveGenres(ids[1..], catalog)
        case Err(e) => Err(e)
        case Ok(rest) =>
          assert forall k | 1 <= k < |ids| :: ids[k] == ids[1..][k - 1];
          Ok([g] + rest)
  }

  /** One discovery entry reshaped for the listing. */
  function ShapeSummary(m: ListedMovie, catalog: Option<seq<Genre>>): (r: Result<MovieSummary, string>)
    ensures r.Ok? <==> Resolvable(m.genreIds, catalog)
    ensures r.Err? ==> r.error == ResolutionError(catalog)
  {
    var genres: Result<Option<seq<Genre>>, string> :=
      match m.genreIds
      case None => Ok(None)
      case Some(ids) =>
        match ResolveGenres(ids, catalog)
        case Err(e) => Err(e)
        case Ok(gs) => Ok(Some(gs));
    match genres
    case Err(e) => Err(e)
    case Ok(gs) =>
      Ok(MovieSummary(
        tmdbId := m.id,
        titleFr := m.title,
        releaseDate := m.releaseDate,
        posterPath := ImageUrl(ListingPosterPrefix, m.posterPath),
        genres := gs,
        voteAverage := m.voteAverage,
        voteCount := m.voteCount))
  }

  /** What a summary keeps of its discovery entry once genres resolved. */
  predicate Summarizes(s: MovieSummary, m: ListedMovie, catalog: Option<seq<Genre>>)
  {
    && s.tmdbId == m.id
    && s.titleFr == m.title
    && s.releaseDate == m.releaseDate
    && s.voteAverage == m.voteAverage
    && s.voteCount == m.voteCount
    && s.posterPath == ImageUrl(ListingPosterPrefix, m.posterPath)
    && (s.genres.None? <==> m.genreIds.None?)
    && (s.genres.Some? ==>
          && |s.genres.value| == |m.genreIds.value|
          && forall k | 0 <= k < |s.genres.value| ::
               catalog.Some? && s.genres.value[k].id == m.genreIds.value[k]
               && FindGenre(catalog.value, m.genreIds.value[k]) == Some(s.genres.value[k]))
  }

  lemma ShapeSummaryKeepsEntry(m: ListedMovie, catalog: Option<seq<Genre>>)
    requires ShapeSummary(m, catalog).Ok?
    ensures Summarizes(ShapeSummary(m, catalog).value, m, catalog)
  {
  }

  /** The discovery results reshaped in order; any entry whose genres cannot be resolved fails them all. */
  function ShapeResults(results: seq<ListedMovie>, catalog: Option<seq<Genre>>): (r: Result<seq<MovieSummary>, string>)
    ensures r.Ok? <==> forall i | 0 <= i < |results| :: Resolvable(results[i].genreIds, catalog)
    ensures r.Ok? ==> |r.value| == |results|
    ensures r.Ok? ==> forall i | 0 <= i < |results| :: Summarizes(r.value[i], results[i], catalog)
    ensures r.Err? ==> r.error == ResolutionError(catalog)
  {
    if results == [] then Ok([])
    else
      match ShapeSummary(results[0], catalog)
      case Err(e) => Err(e)
      case Ok(s) =>
        ShapeSummaryKeepsEntry(results[0], catalog);
        assert forall i | 1 <= i < |results| :: results[i] == results[1..][i - 1];
        match ShapeResults(results[1..], catalog)
        case Err(e) => Err(e)
        case Ok(rest) => Ok([s] + rest)
  }

  /**
   * The listing request. The query is validated before anything is
   * fetched. A failed discovery fetch has no `results`, like a missing
   * page, and both end the request before the catalog is fetched; an
   * empty page is a success. The catalog is fetched whenever a page
   * exists, and a failed catalog fetch only matters to entries with
   * genre ids.
   */
  function GetMovies(q: QueryBody, b: Backend): (r: Reply<seq<MovieSummary>>)
    ensures ValidateQuery(q).Err? ==> r == Reply(Fail(Invalid(ValidateQuery(q).error)), [])
    ensures ValidateQuery(q).Ok? ==> |r.calls| > 0 && r.calls[0] == FetchDiscover(ValidateQuery(q).value)
    ensures ValidateQuery(q).Ok? && !HasPage(b.discover(ValidateQuery(q).value)) ==>
              r == Reply(Fail(Message(NoPageFound)), [FetchDiscover(ValidateQuery(q).value)])
    ensures ValidateQuery(q).Ok? && HasPage(b.discover(ValidateQuery(q).value)) ==>
              r.calls == [FetchDiscover(ValidateQuery(q).value), FetchGenres]
    ensures r.response.Success? ==>
              && ValidateQuery(q).Ok? && HasPage(b.discover(ValidateQuery(q).value))
              && var results := b.discover(ValidateQuery(q).value).body.results.value;
                 && |r.response.data| == |results|
                 && forall i | 0 <= i < |results| :: Summarizes(r.response.data[i], results[i], CatalogOf(b.genres))
    ensures ValidateQuery(q).Ok? && HasPage(b.discover(ValidateQuery(q).value)) ==>
              var results := b.discover(ValidateQuery(q).value).body.results.value;
              && (r.response.Success? <==> forall i | 0 <= i < |results| :: Resolvable(results[i].genreIds, CatalogOf(b.genres)))
              && (r.response.Fail? ==> r.response == Fail(Message(ResolutionError(CatalogOf(b.genres)))))
  {
    match ValidateQuery(q)
    case Err(issues) => Reply(Fail(Invalid(issues)), [])
    case Ok(query) =>
      var page := b.discover(query);
      if !HasPage(page) then Reply(Fail(Message(NoPageFound)), [FetchDiscover(query)])
      else
        var calls := [FetchDiscover(query), FetchGenres];
        match ShapeResults(page.body.results.value, CatalogOf(b.genres))
        case Err(e) => Reply(Fail(Message(e)), calls)
        case Ok(movies) => Reply(Success(movies), calls)
  }

  /** A discovery answer with a `results` collection, possibly empty. */
  predicate HasPage(page: Outcome<DiscoverPage>)
  {
    page.Data? && page.body.results.Some?
  }

  /** The genres of the catalog answer; an error object has none. */
  function CatalogOf(answer: Outcome<GenreCatalog>): (genres: Option<seq<Genre>>)
  {
    match answer
    case Data(c) => Some(c.genres)
    case Error(_) => None
  }
}
