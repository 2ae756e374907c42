/**
 * The shapes of the movie provider's answers, as far as the controllers
 * read them, and the outcome of one upstream fetch. The fetch helper
 * catches every failure and returns the error object instead of the
 * body, so an upstream answer is a value either way.
 */
module Tmdb {
  import opened Wrappers

  /** The body the provider returned, or the message of the error the fetch helper caught. */
  datatype Outcome<+T> = Data(body: T) | Error(message: string)

  datatype Genre = Genre(id: int, name: string)

  /**
   * A movie's detail (`/movie/{id}`). `popularity` and `voteAverage` are
   * floating point upstream; they are only copied, so any value type serves.
   */
  datatype Movie = Movie(
    id: int,
    title: string,
    status: string,
    originalTitle: string,
    adult: bool,
    originalLanguage: string,
    releaseDate: string,
    runtime: int,
    budget: int,
    popularity: real,
    voteAverage: real,
    originCountry: seq<string>,
    genres: seq<Genre>,
    tagline: string,
    overview: string,
    posterPath: Option<string>)

  /** One cast credit; `castId` is the wire key `cast_id`. */
  datatype CastCredit = CastCredit(castId: int, name: string, character: string, profilePath: Option<string>)

  datatype CrewCredit = CrewCredit(id: int, name: string, job: string, profilePath: Option<string>)

  /** A movie's credits (`/movie/{id}/credits`). */
  datatype Credits = Credits(cast: seq<CastCredit>, crew: seq<CrewCredit>)

  /** One movie of a discovery page; `genreIds` is missing when the provider sends none. */
  datatype ListedMovie = ListedMovie(
    id: int,
    title: string,
    releaseDate: string,
    posterPath: Option<string>,
    genreIds: Option<seq<int>>,
    voteAverage: real,
    voteCount: int)

  /** A discovery page (`/discover/movie`); `results` is missing when the page does not exist. */
  datatype DiscoverPage = DiscoverPage(results: Option<seq<ListedMovie>>)

  /** The genre catalog (`/genre/movie/list`). */
  datatype GenreCatalog = GenreCatalog(genres: seq<Genre>)
}
