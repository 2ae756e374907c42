# filmovies-back: the movie proxy's reshaping and decision logic, in Dafny

This project models the small pure core of a backend that serves movie
data from a third-party catalog provider (TMDB). It also keeps per-user
"viewed" markers and reviews in a local relational store. Five pieces
of the backend are modelled:

- **Movie detail** (`MoviesController.GetMovieById`). It validates the id. Then it fetches the movie
  and its credits and runs the review join query. It merges the three
  answers into one payload: the cast is cut to five entries, the crew is
  filtered to directors, image paths become absolute URLs or `null`, and the
  local id is set only when a review exists.
- **Movie listing** (`MoviesController.GetMovies`). It validates the query and fetches a discovery
  page. A missing page is a "No page found" failure. Otherwise the genre
  catalog is fetched and each movie's genre ids are resolved against it.
- **Request schemas** (`MovieSchemas`, `UserSchemas`). These cover the id range check,
  the 14 `sort_by` tokens, the password regex, and the length bounds on names and
  birthdate.
- **Error handler** (`ErrorMiddleware.HandleError`). It maps an error's fields to an
  HTTP status and message.
- **Viewed markers** (`ViewsController`). Create and delete are transitions on an
  abstract store: a media table plus a view table.

Modelling choices:

- Upstream answers are `Tmdb.Outcome` values: the body, or the message of the
  error the fetch helper caught (the helper returns the error instead of throwing).
- The provider and the review query are the fields of a `Backend` record of total
  functions.
- Each controller reply also lists the external calls it made, in order. This is what
  lets the contracts say "before any upstream call" and "every call concerns the
  requested id".
- The controllers catch JavaScript exceptions thrown while a payload is being built.
  These become explicit failures carrying V8's message text.
- A `char` is a Unicode scalar value. JavaScript counts string lengths in UTF-16
  code units; the two agree for characters of the Basic Multilingual Plane.

Modules, one per file: `Wrappers` (Option, Result), `Validation` (the
fields and issues shared by the schemas), `MovieSchemas`, `UserSchemas`,
`ErrorMiddleware`, `Tmdb` (provider payload shapes), `MoviesController`,
`ViewsController`.

In these places the model follows the code exactly:

- `page` and `year` are accepted as any string. No positive-integer check exists.
- An empty `genre_ids` array is truthy in JavaScript. So it gives `genres: []`, not
  `null`, and not a non-empty list.
- An unknown genre id is not a typed error. The lookup yields `undefined`, reading its
  `id` throws, and the whole listing fails with that exception's message.
- The detail path is sequential: movie, then credits, then the review query. If the
  review query fails, its message is reported even when the credits also failed,
  because the credits error object is only read later, while the payload is built.
  A credits failure always fails the whole request (no degraded payload).
- A failed discovery fetch returns an error object without `results`. So it is
  reported as "No page found", like a missing page.

## Model

| member | source | states |
|---|---|---|
| MovieSchemas.ValidateId | app/validation/movieSchemas.js:4 | an id is accepted iff it is a finite integer with 1 ≤ n ≤ 1000000000; `NaN` gets a type issue, an out-of-range integer the issue for the bound it crosses, and an infinity (from an id of 309 or more digits) both the not-an-integer issue and the bound issue, in that order |
| MovieSchemas.ValidateQuery | app/validation/movieSchemas.js:5-15 | accepted iff `page`, `year`, `sort_by` are all present strings and `sort_by` is one of the 14 tokens; the parsed query is exactly those three strings; a bad `sort_by` carries the schema's fixed message listing the tokens; each missing key is reported as required |
| MovieSchemas.AnyPageAndYear | app/validation/movieSchemas.js:5-8 | any strings for `page` and `year` pass with any listed token: no numeric check |
| Validation.LengthIssues | app/validation/userSchemas.js:10-12 | a required string with length bounds has no issue iff it is a string whose length is within the bounds; a too short or too long one gets the matching issue |
| UserSchemas.RegexIffPolicy | app/validation/userSchemas.js:4 | the password regex, read construct by construct, accepts exactly the strings of length ≥ 8 with no line terminator that contain a digit, a lowercase letter, an uppercase letter and one of `@$!%*?&,.<>^|+_-` |
| UserSchemas.LetterLookaheadRedundant | app/validation/userSchemas.js:4 | removing the `(?=.*[a-zA-Z])` lookahead does not change the accepted set |
| UserSchemas.PasswordExtends | app/validation/userSchemas.js:4 | appending characters other than line terminators to an accepted password keeps it accepted |
| UserSchemas.CheckPassword | app/validation/userSchemas.js:4 | a one-pass scan decides the regex exactly; an accepted password has at least 8 characters and no line terminator |
| UserSchemas.PasswordIssues | app/validation/userSchemas.js:9 | a password field has no issue iff it is a string meeting the password policy |
| UserSchemas.EmailIssues | app/validation/userSchemas.js:8 | an e-mail field has no issue iff it is a string passing the library's e-mail test |
| UserSchemas.ValidateRegister | app/validation/userSchemas.js:7-13 | registration is accepted iff e-mail, password, names of length 2..30 and a birthdate of length exactly 10 are all present and valid; a bad password is reported with the schema's message |
| UserSchemas.ValidateSignIn | app/validation/userSchemas.js:14-17 | sign-in is accepted iff the e-mail passes and the password meets the same policy as at registration |
| UserSchemas.ValidateChangePassword | app/validation/userSchemas.js:18-21 | accepted iff both the old and the new password meet the policy |
| ErrorMiddleware.HandleError | app/middlewares/errorMiddleware.js:2-29 | code 23505 gives 400 "Resource already exists"; a missing or zero status gives 500; any 500 reply says "Internal Server Error"; in JSON an expired token gives 401 "Token expired"; the HTML branch never gives 401 unless the status already was 401; otherwise status and message pass through; the JSON body's status is always "fail" |
| MoviesController.ImageUrl | app/controllers/moviesController.js:61 | the URL is `null` iff the path is missing or empty; otherwise it is the prefix followed by the path |
| MoviesController.PosterPrefixes | app/controllers/moviesController.js:102 | the listing poster prefix lacks the trailing slash of the detail one (line 55), so one poster gets two different URLs; the profile prefix differs from both poster prefixes; neither the listing poster prefix nor the profile prefix (lines 61, 70) ends in `/` |
| MoviesController.ShapeCast | app/controllers/moviesController.js:56-61 | the cast has min(5, n) entries; entry i comes from credit i, with `id` the credit's `cast_id`, the same name and character, and its profile URL |
| MoviesController.CastIgnoresTail | app/controllers/moviesController.js:61 | credits after the fifth never reach the payload |
| MoviesController.Directors | app/controllers/moviesController.js:62-72 | every output entry has job "Director"; every director in the input appears in the output; every output entry is a reshaped director of the input |
| MoviesController.DirectorsAppend | app/controllers/moviesController.js:62-64 | filtering the crew distributes over concatenation, so the order of the input is kept |
| MoviesController.DirectorsSingle | app/controllers/moviesController.js:64-71 | a single credit is kept, reshaped, iff its job is "Director" |
| MoviesController.Merge | app/controllers/moviesController.js:38-74 | the local `id` is present iff some review row exists, and is then the first row's media id; review rows are kept unchanged; every scalar field of the movie is copied under its payload name; the poster follows the URL rule with the detail prefix; the cast is the reshaped first five credits (`ShapeCast`) and the crew the reshaped directors (`Directors`) |
| MoviesController.GetMovieById | app/controllers/moviesController.js:9-80 | an invalid id fails with its issues before any call; every call concerns the requested id; a failed movie fetch fails with its message before the credits fetch and the review query; a failed review query fails with its message; a failed credits fetch fails the whole request; success iff all three answers are values, and then the payload is their merge |
| MoviesController.FindGenre | app/controllers/moviesController.js:106 | finds nothing iff no catalog genre has the id; otherwise returns the first genre with that id |
| MoviesController.ResolveGenres | app/controllers/moviesController.js:104-108 | succeeds iff there are no ids or the catalog is available and knows every id; then output k has id `genre_ids[k]` and is the catalog's first genre with it; a failure carries the message of the exception thrown |
| MoviesController.ShapeSummary | app/controllers/moviesController.js:98-111 | one discovery entry is reshaped iff its genre ids can be resolved |
| MoviesController.ShapeSummaryKeepsEntry | app/controllers/moviesController.js:98-111 | a reshaped entry copies id, title, release date, vote average and count; its poster follows the listing URL rule; its genres are `null` iff the entry had no genre ids, and otherwise match them pointwise |
| MoviesController.ShapeResults | app/controllers/moviesController.js:97-112 | all entries are reshaped, in order and with the same count, iff every entry's genres can be resolved; any unresolvable entry fails the whole listing |
| MoviesController.GetMovies | app/controllers/moviesController.js:82-117 | an invalid query fails with its issues before any call; a failed discovery fetch or a page without `results` fails with "No page found" before the catalog is fetched; otherwise the catalog is fetched and the listing succeeds iff every entry's genres resolve, with the same length and order as the page |
| ViewsController.FindOrCreateMedia | app/controllers/viewsController.js:9-18 | a known provider id leaves the store unchanged; an unknown one adds exactly one media row, whose id, in a consistent store, is not yet in use |
| ViewsController.CreateViewed | app/controllers/viewsController.js:6-33 | after the call the media table knows the provider id; an existing view of the pair is refused with 400 "Media already marked as viewed by this user" and the views unchanged; otherwise exactly that pair is added and its new id returned |
| ViewsController.DeleteViewed | app/controllers/viewsController.js:34-56 | an unknown provider id is refused with 400 "Media not found", a missing view with 400 "Media not marked as viewed by this user", both changing nothing; otherwise exactly that pair is removed and the media table is unchanged |
| ViewsController.FindOrCreatePreservesValid | app/controllers/viewsController.js:9-18 | finding or creating a media row keeps the store consistent |
| ViewsController.AddViewPreservesValid | app/controllers/viewsController.js:28-31 | adding a view of an existing media row under the next id keeps the store consistent |
| ViewsController.CreatePreservesValid | app/controllers/viewsController.js:9-32 | a create keeps the store consistent: ids unique and below their counters, every view referring to a media row |
| ViewsController.NewViewIdUnused | app/controllers/viewsController.js:28-31 | in a consistent store, a created view's id is not used by any other view |
| ViewsController.DeletePreservesValid | app/controllers/viewsController.js:45-55 | a delete keeps the store consistent |
| ViewsController.RejectedCreateChangesNothing | app/controllers/viewsController.js:14-27 | in a consistent store, a refused create changes nothing, because a freshly created media row has no views |
| ViewsController.CreateThenDelete | app/controllers/viewsController.js:28-55 | deleting a view just created succeeds and gives back the original view table |
| ViewsController.RejectionsReachClient | app/middlewares/errorMiddleware.js:3-28 | a controller's 400 error reaches the client as a JSON failure with status 400 and the controller's own message |

## Left out

- The cache gateway (`app/services/axios.js`): the request cache, its keys and its
  time-to-live live in the HTTP cache library and its Redis storage module.
  Only what the fetch helper returns is modelled: the body, or the caught
  error (`Tmdb.Outcome`).
- URL construction and `querystring.stringify`: the model names each call by
  its arguments (`Call`), not by its URL. The fixed `language` parameters are not
  modelled either.
- The review join query's SQL and every ORM call: the query is a function from
  the movie id to rows or an error. The views store is the abstract `State`.
- Non-HTTP errors from the fetch helper: every error it returns is treated as the
  HTTP client's error object (`axios.isAxiosError` holds), as the helper only
  wraps a request.
- `parseInt` on the route parameter: the model starts from its result:
  `NaN`, an integer, or an infinity when the digits overflow a double. It does
  not model the rounding of integers too large for a double to hold exactly.
  Such ids are far above the maximum and are rejected either way.
- The validation library: its e-mail test is a parameter (`isEmail`), and its
  issue wording becomes abstract issue kinds. Only the messages the schemas
  supply themselves are kept. `validation/validator.js`, which formats the
  issues, is not part of this model.
- `errors/ApiError.js` is not part of this model. `RejectionsReachClient` assumes an
  `ApiError` carries its status and message, has no database `code`, and is
  not named `TokenExpiredError`.
- The HTML rendering in the error handler: only status and message are kept.
  The branch is chosen by a parameter. In Express, `res.format` is normally a
  function, so the test `res.format === "html"` is false unless other code
  replaced it.
- `console.error` logging, `res`/`next` mechanics, routers, application bootstrap,
  CORS, Swagger and the rate limiter: these are wiring and library configuration.
- Strings with characters outside the Basic Multilingual Plane: JavaScript
  stores each as a surrogate pair of two UTF-16 code units, and Dafny's `char`
  cannot represent a lone surrogate. So the length bounds of the password,
  names and birthdate are stated on Unicode scalar values. They count such a
  character once where JavaScript counts it twice.
- Concurrency in the viewed-marker controller: requests are applied to the
  store one at a time. In the source, find-then-create spans several awaits and
  is not atomic. Two concurrent creates could insert two views of one pair, or
  two media rows for one provider id, which the map-shaped `State` cannot
  represent. ORM exceptions are not modelled either, such as a lookup failing
  when the body has no `tmdb_id`.
- Floating-point fields (`popularity`, `vote_average`): modelled as `real`
  and only copied.
- Non-numeric error statuses in the error handler: `status` is an optional integer,
  and only missing and zero are falsy.
- `MovieSchemas.ValidateQuery`: proves that a rejected `sort_by` carries the schema's
  message. It does not prove that this message lists the 14 tokens. The two are
  written out separately, each exactly as in the schema.
