/**
 * The route handlers of src/index.js. A handler's outcome is a status, the
 * two CORS headers it may set, and a body value. The read-only handlers are
 * functions of the current store; PATCH and DELETE mutate the shared
 * `movies` array and are methods of `App`, which owns it.
 */
module MovieRoutes {
  import opened Wrappers
  import opened JsValues
  import opened MovieSchema
  import opened MovieStore
  import opened OriginPolicy

  datatype Body =
    | MovieList(movies: seq<Movie>)
    | MovieRecord(movie: Movie)
    | Message(text: string)
    | ValidationErrors(issues: Issues)
    | StatusText(text: string)

  datatype Response = Response(
    status: int, allowOrigin: Option<string>, allowMethods: Option<string>, body: Body)

  const NotFound: string := "Movie not found"
  const NoParameter: string := "No hay parámetro"
  const Deleted: string := "Movie deleted"
  const AllowedMethods: string := "GET, POST, PATCH, DELETE"

  /** A JSON body with status 200 and no CORS header. */
  function Ok(b: Body): Response
  {
    Response(200, None, None, b)
  }

  /** GET `/api/movies`: the whole store, the origin echoed only when the handler list holds it. */
  function ListMovies(s: seq<Movie>, origin: Option<string>): (r: Response)
    ensures r.status == 200 && r.body == MovieList(s) && r.allowMethods.None?
    ensures r.allowOrigin.Some? <==> Includes(HandlerOrigins, origin)
    ensures r.allowOrigin.Some? ==> r.allowOrigin == origin
  {
    Response(200, ListAllowOrigin(origin), None, MovieList(s))
  }

  /**
   * GET `/api/movies/search?genre=...`: 400 for a missing or empty query,
   * otherwise the records with a genre equal to the query up to case.
   */
  function SearchMovies(s: seq<Movie>, genre: Option<string>): (r: Response)
    ensures IsFalsy(genre) ==> r == Response(400, None, None, Message(NoParameter))
    ensures !IsFalsy(genre) ==> r.status == 200 && r.body.MovieList?
    ensures !IsFalsy(genre) ==> forall m :: m in r.body.movies <==> m in s && MatchesGenre(m, genre.value)
  {
    if IsFalsy(genre) then Response(400, None, None, Message(NoParameter))
    else Ok(MovieList(FilterByGenre(s, genre.value)))
  }

  /** GET `/api/movies/:id`: the first record with that id, or 404. */
  function GetMovie(s: seq<Movie>, id: string): (r: Response)
    ensures r.status == 404 <==> !HasId(s, id)
    ensures !HasId(s, id) ==> r.body == Message(NotFound)
    ensures HasId(s, id) ==>
              r.status == 200 && r.body.MovieRecord?
              && exists k: nat :: FirstAt(s, id, k) && r.body.movie == s[k]
  {
    match FindById(s, id)
    case None => Response(404, None, None, Message(NotFound))
    case Some(m) => Ok(MovieRecord(m))
  }

  /**
   * POST `/api/movies` as written: 400 with the issues for an invalid body,
   * otherwise 201 with the validated record under the new id. The store
   * is not an argument because the handler never writes to it.
   */
  function PostMovie(newId: string, body: Json, isUrl: string -> bool): (r: Response)
    ensures r.status == 201 <==> AcceptsMovie(body, isUrl)
    ensures r.status == 201 ==>
              r.body.MovieRecord? && r.body.movie.id == newId
              && Describes(body.fields, r.body.movie.data)
              && ValidData(r.body.movie.data, isUrl)
    ensures r.status != 201 ==>
              ValidateMovie(body, isUrl).Failure?
              && r == Response(400, None, None, ValidationErrors(ValidateMovie(body, isUrl).error))
              && r.body.issues != []
    ensures r.allowOrigin.None? && r.allowMethods.None?
  {
    ValidateMovieAccepts(body, isUrl);
    match ValidateMovie(body, isUrl)
    case Failure(issues) => Response(400, None, None, ValidationErrors(issues))
    case Success(d) =>
      Response(201, None, None, MovieRecord(Movie(newId, d)))
  }

  /**
   * OPTIONS `/api/movies/:id`: always 200 with the text `res.send(200)`
   * produces; both headers are set together, for a listed or falsy origin.
   */
  function Preflight(origin: Option<string>): (r: Response)
    ensures r.status == 200 && r.body == StatusText("OK")
    ensures r.allowOrigin.Some? <==> Includes(HandlerOrigins, origin) || IsFalsy(origin)
    ensures r.allowMethods == if r.allowOrigin.Some? then Some(AllowedMethods) else None
    ensures r.allowOrigin.Some? && origin.Some? ==> r.allowOrigin == origin
  {
    var header := PreflightAllowOrigin(origin);
    Response(200, header, if header.Some? then Some(AllowedMethods) else None, StatusText("OK"))
  }

  /** Search leaves the order of the store: it is not sorted or regrouped. */
  lemma SearchKeepsOrder(a: seq<Movie>, b: seq<Movie>, genre: string)
    requires genre != ""
    ensures SearchMovies(a + b, Some(genre)).body.movies
         == SearchMovies(a, Some(genre)).body.movies + SearchMovies(b, Some(genre)).body.movies
  {
    FilterAppend(a, b, genre);
  }

  /** Queries that differ only in case answer alike. */
  lemma SearchIgnoresCase(s: seq<Movie>, q1: string, q2: string)
    requires Lower(q1) == Lower(q2)
    ensures SearchMovies(s, Some(q1)) == SearchMovies(s, Some(q2))
  {
    FilterIgnoresCase(s, q1, q2);
    assert q1 == "" <==> q2 == "";
  }

  /** A POST never reaches the store: the id it reports cannot be fetched afterwards. */
  lemma PostNotStored(s: seq<Movie>, newId: string, body: Json, isUrl: string -> bool)
    requires !HasId(s, newId) && AcceptsMovie(body, isUrl)
    ensures PostMovie(newId, body, isUrl).status == 201
    ensures GetMovie(s, PostMovie(newId, body, isUrl).body.movie.id).status == 404
  {
  }

  /** Once the record is appended, as the corrected POST does, a GET finds it. */
  lemma CreatedIsFound(s: seq<Movie>, newId: string, d: MovieData)
    requires !HasId(s, newId)
    ensures GetMovie(s + [Movie(newId, d)], newId) == Ok(MovieRecord(Movie(newId, d)))
  {
    var t := s + [Movie(newId, d)];
    assert t[|s|].id == newId;
    assert FirstAt(t, newId, |s|) by {
      assert forall j :: 0 <= j < |s| ==> t[j] == s[j];
    }
    FirstAtUnique(t, newId, FindIndex(t, newId).value, |s|);
  }

  /** With unique ids, a GET after a DELETE of the same id answers 404. */
  lemma DeleteThenGet(s: seq<Movie>, id: string)
    requires UniqueIds(s) && HasId(s, id)
    ensures GetMovie(RemoveAt(s, FindIndex(s, id).value), id).status == 404
  {
    RemoveFoundLeavesNone(s, id);
  }

  /** A GET after a PATCH of the same id answers with the merged record. */
  lemma PatchThenGet(s: seq<Movie>, id: string, p: PartialMovie)
    requires HasId(s, id)
    ensures GetMovie(UpdateAt(s, FindIndex(s, id).value, p), id)
         == Ok(MovieRecord(Movie(id, Merge(FindById(s, id).value.data, p))))
  {
    FindAfterUpdate(s, id, p);
  }

  /** The server: the shared `movies` array and the handlers that change it. */
  class App {
    var movies: seq<Movie>

    constructor(seed: seq<Movie>)
      ensures movies == seed
    {
      movies := seed;
    }

    /**
     * PATCH `/api/movies/:id`: the body is validated before any lookup; a
     * valid body for a known id overwrites that record with the merge and
     * answers the stored result.
     */
    method Patch(id: string, body: Json, isUrl: string -> bool) returns (r: Response)
      modifies this
      ensures !AcceptsPartial(body, isUrl) ==>
                ValidatePartialMovie(body, isUrl).Failure?
                && r == Response(400, None, None, ValidationErrors(ValidatePartialMovie(body, isUrl).error))
                && r.body.issues != [] && movies == old(movies)
      ensures AcceptsPartial(body, isUrl) && !HasId(old(movies), id) ==>
                r == Response(404, None, None, Message(NotFound)) && movies == old(movies)
      ensures AcceptsPartial(body, isUrl) && HasId(old(movies), id) ==>
                var i := FindIndex(old(movies), id).value;
                movies == UpdateAt(old(movies), i, ValidatePartialMovie(body, isUrl).value)
                && r == Ok(MovieRecord(movies[i]))
      ensures UniqueIds(old(movies)) ==> UniqueIds(movies)
      ensures AllValid(old(movies), isUrl) ==> AllValid(movies, isUrl)
    {
      ValidatePartialAccepts(body, isUrl);
      var result := ValidatePartialMovie(body, isUrl);
      if result.Failure? {
        return Response(400, None, None, ValidationErrors(result.error));
      }
      var index := FindIndex(movies, id);
      if index.None? {
        return Response(404, None, None, Message(NotFound));
      }
      var i := index.value;
      UpdateKeepsLookups(movies, i, result.value, id);
      if AllValid(movies, isUrl) {
        UpdateKeepsValid(movies, i, body, isUrl);
      }
      var updated := Movie(movies[i].id, Merge(movies[i].data, result.value));
      assert movies[i := updated] == UpdateAt(movies, i, result.value);
      movies := movies[i := updated];
      return Ok(MovieRecord(updated));
    }

    /**
     * DELETE `/api/movies/:id`: the allow-origin header is decided first, so
     * a 404 carries it too; a known id loses its first record.
     */
    method Delete(origin: Option<string>, id: string) returns (r: Response)
      modifies this
      ensures r.allowOrigin == PreflightAllowOrigin(origin) && r.allowMethods.None?
      ensures !HasId(old(movies), id) ==> r.status == 404 && r.body == Message(NotFound) && movies == old(movies)
      ensures HasId(old(movies), id) ==>
                movies == RemoveAt(old(movies), FindIndex(old(movies), id).value)
                && r.status == 200 && r.body == Message(Deleted)
      ensures UniqueIds(old(movies)) ==> UniqueIds(movies) && !HasId(movies, id)
      ensures forall k :: 0 <= k < |movies| ==> movies[k] in old(movies)
      ensures forall isUrl :: AllValid(old(movies), isUrl) ==> AllValid(movies, isUrl)
    {
      var header := PreflightAllowOrigin(origin);
      var index := FindIndex(movies, id);
      if index.None? {
        return Response(404, header, None, Message(NotFound));
      }
      if UniqueIds(movies) {
        RemoveKeepsUnique(movies, index.value);
        RemoveFoundLeavesNone(movies, id);
      }
      movies := movies[..index.value] + movies[index.value + 1..];
      return Response(200, header, None, Message(Deleted));
    }

    /**
     * POST `/api/movies` as evidently intended: the same response as the
     * handler, and a created record is appended to the store.
     */
    method Create(newId: string, body: Json, isUrl: string -> bool) returns (r: Response)
      requires !HasId(movies, newId)
      modifies this
      ensures r == PostMovie(newId, body, isUrl)
      ensures r.status == 201 ==> movies == old(movies) + [r.body.movie]
      ensures r.status != 201 ==> movies == old(movies)
      ensures r.status == 201 ==> GetMovie(movies, newId) == Ok(r.body)
      ensures UniqueIds(old(movies)) ==> UniqueIds(movies)
      ensures AllValid(old(movies), isUrl) ==> AllValid(movies, isUrl)
    {
      r := PostMovie(newId, body, isUrl);
      if r.status == 201 {
        var created := r.body.movie;
        assert created == Movie(newId, created.data);
        CreatedIsFound(movies, newId, created.data);
        if UniqueIds(movies) {
          AppendKeepsUnique(movies, created);
        }
        if AllValid(movies, isUrl) {
          AppendKeepsValid(movies, created, isUrl);
        }
        movies := movies + [created];
      }
    }
  }
}
