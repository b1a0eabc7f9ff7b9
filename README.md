# Movie catalogue REST service, modelled in Dafny

The service is a small Express application. It keeps an in-memory array of
movie records and serves it under `/api/movies`:

- list all records, search them by genre, get one by id;
- create a record (POST), update one in part (PATCH), delete one (DELETE);
- answer the CORS preflight (OPTIONS).

Request bodies are checked by a zod schema, with a full form for POST and a
partial form for PATCH. Cross-origin requests are screened twice: first by
the `cors` middleware's origin callback, then by explicit checks in some
handlers. The two checks use different allow-lists.

The model has six modules:

- `Wrappers`: `Option` and `Result`.
- `JsValues`: decoded JSON values, plus the JavaScript string operations the
  code relies on (`trim`, and `toLowerCase` on ASCII).
- `MovieSchema`: the zod schema.
  - Per-field parsing with zod's issue list, for full and partial validation.
  - What each validation accepts, returns and reports.
  - The JSON round trip of a validated record.
- `OriginPolicy`: the middleware's decision and the two handler-level header
  decisions, over an optional `Origin` header.
- `MovieStore`: the list operations the handlers perform on the shared array
  (`find`, `findIndex`, the genre `filter`, the PATCH spread, `splice`), with
  their frame properties.
- `MovieRoutes`: each handler's outcome as a `Response`.
  - The read-only handlers are functions of the store.
  - PATCH and DELETE are methods of the class `App`, which owns the array and
    updates it in place.
  - `App.Create` is the POST handler as evidently intended (see Findings).

The model follows the code: POST does not store the new record (see
Findings), and a title is only trimmed, so it may be empty.

## Model

| member | source | states |
|---|---|---|
| JsValues.Trim | src/schema/movies.js:16-21 | the trimmed title neither starts nor ends with whitespace and is no longer than the input |
| JsValues.TrimCutsWhitespace | src/schema/movies.js:21 | the trimmed title is a contiguous piece of the input, and everything cut off either side is whitespace |
| JsValues.TrimIdempotent | src/schema/movies.js:21 | trimming an already trimmed title changes nothing |
| JsValues.Lower | src/index.js:123 | the result has the input's length and no ASCII capital; capitals move down by 32 and every other character is kept |
| JsValues.LowerIdempotent | src/index.js:123 | lower-casing twice equals lower-casing once, so a lowered query matches like the original |
| MovieSchema.NumberIssues | src/schema/movies.js:22-24 | the number checks produce no issue exactly when every check passes; each failing check is reported on its field |
| MovieSchema.NumberChecksAgree | src/schema/movies.js:22-31 | the listed checks hold exactly when the rule holds: year is an integer in [1900, 2025], duration an integer above 0, rate in [0, 10] |
| MovieSchema.ElementIssues | src/schema/movies.js:26-29 | genre elements give no issue exactly when all are strings; each non-string is reported at its index |
| MovieSchema.ParseField | src/schema/movies.js:16-31 | a field parses exactly when its value has the right type and meets the rule; success yields the normalised value, and failure reports issues on that field only |
| MovieSchema.FullField | src/schema/movies.js:15-32 | under full validation a missing field is an error except rate, which defaults to 0; present fields follow ParseField |
| MovieSchema.PartialField | src/schema/movies.js:38-40 | under partial validation a missing field is no error and stays absent, rate included |
| MovieSchema.FieldIssues | src/schema/movies.js:15-32 | a field contributes issues exactly when it is rejected, and those issues name only that field |
| MovieSchema.CollectIssues | src/schema/movies.js:15 | walking the schema keys finds no issue exactly when no walked field has one |
| MovieSchema.BuildMovie | src/schema/movies.js:34-36 | an issue-free body builds a record that the body describes and that meets every field rule |
| MovieSchema.BuildPartial | src/schema/movies.js:38-40 | an issue-free body builds a partial record holding exactly the schema keys that were sent |
| MovieSchema.ValidateMovieAccepts | src/schema/movies.js:34-36 | validateMovie succeeds if and only if the body is an object and no field is rejected |
| MovieSchema.ValidateMovie | src/schema/movies.js:34-36 | a failure carries a non-empty issue list; on success the record is the body normalised (title trimmed, other fields as sent, rate 0 when not sent) and meets every field rule. ValidateMovieAccepts and ValidateMovieReports state when it succeeds and what a failure reports |
| MovieSchema.ValidateMovieReports | src/schema/movies.js:34-36 | a failed validation of an object reports a field if and only if that field is rejected |
| MovieSchema.CollectReports | src/schema/movies.js:15 | the collected issues mention a field exactly when it is walked and rejected |
| MovieSchema.CollectContains | src/schema/movies.js:15 | every issue of a walked field appears among the collected issues |
| MovieSchema.NoIssuesAt | src/schema/movies.js:15 | when the whole walk finds no issue, no single field has one |
| MovieSchema.CollectedAt | src/schema/movies.js:15 | an issue of one field appears among the issues of the whole walk |
| MovieSchema.YearIssue | src/schema/movies.js:22 | an integer year outside [1900, 2025] gives a too-small or too-big issue on year |
| MovieSchema.PosterIssue | src/schema/movies.js:25 | a poster that is not a URL gives a URL issue on poster |
| MovieSchema.NonObjectRejected | src/schema/movies.js:15 | a body that is not an object fails both validations with one root type issue |
| MovieSchema.YearOutOfRangeRejected | src/schema/movies.js:22 | an integer year below 1900 or above 2025 fails both validations with a too-small or too-big issue on year |
| MovieSchema.PosterNotUrlRejected | src/schema/movies.js:25 | a poster string that is not a URL fails both validations with a URL issue on poster |
| MovieSchema.ValidatePartialAccepts | src/schema/movies.js:38-40 | validatePartialMovie succeeds if and only if the body is an object whose present schema keys are all valid |
| MovieSchema.ValidatePartialMovie | src/schema/movies.js:38-40 | a failure carries a non-empty issue list; on success the partial record holds exactly the keys sent, normalised, and an absent rate stays absent. ValidatePartialAccepts and ValidatePartialReports state when it succeeds and what a failure reports |
| MovieSchema.ValidatePartialReports | src/schema/movies.js:38-40 | a failed partial validation reports exactly the present fields that are invalid |
| MovieSchema.EmptyPartialAccepted | src/schema/movies.js:39 | the empty object is a valid partial update that supplies no field |
| MovieSchema.YieldsUnique | src/schema/movies.js:16-31 | a field value normalises to only one result |
| MovieSchema.FullImpliesPartial | src/schema/movies.js:34-40 | a body accepted by full validation is accepted by partial validation with the same values; only a defaulted rate is missing |
| MovieSchema.PartialWithRequiredIsFull | src/schema/movies.js:34-40 | a partially valid body that sends the six required keys is fully valid |
| MovieSchema.CollectAgrees | src/schema/movies.js:15 | two bodies that agree on the schema keys collect the same issues |
| MovieSchema.ValidationSeesOnlySchemaKeys | src/schema/movies.js:15 | bodies that agree on the schema keys validate identically, so unknown keys are neither checked nor kept |
| MovieSchema.UnknownKeyIgnored | src/schema/movies.js:15 | adding a key outside the schema, such as `id`, changes neither validation |
| MovieSchema.StringsJson | src/schema/movies.js:26 | the JSON form of a genre list has one string per genre, in order |
| MovieSchema.HoldsAccepted | src/schema/movies.js:15-32 | an object holding a valid record's values under every key has no rejected field |
| MovieSchema.MovieJsonValues | src/schema/movies.js:15-32 | the JSON form of a record has exactly the schema keys, each holding that field's value |
| MovieSchema.HoldsDescribes | src/schema/movies.js:15-32 | an object holding a record's own values, with a trimmed title, describes that record |
| MovieSchema.MovieJsonAccepted | src/schema/movies.js:15-32 | a record meeting the field rules, written as JSON, passes full validation |
| MovieSchema.DescribesUnique | src/schema/movies.js:15-32 | a body describes at most one record |
| MovieSchema.MovieJsonDescribes | src/schema/movies.js:15-32 | a record with a trimmed title is described by its own JSON form |
| MovieSchema.MovieJsonValidates | src/schema/movies.js:34-36 | a valid record, written as JSON, validates back to itself |
| MovieSchema.RevalidateIsIdentity | src/schema/movies.js:34-36 | validating a validated record again returns the same record |
| MovieSchema.GenreListNotEnforced | src/schema/movies.js:26 | a genre outside the listed values is still accepted |
| MovieSchema.EmptyTitleAccepted | src/schema/movies.js:16-21 | an empty title is accepted |
| MovieStore.FirstAtUnique | src/index.js:204 | the first position holding an id is unique |
| MovieStore.FindIndex | src/index.js:204 | findIndex gives no index if and only if no record has the id; otherwise it gives the first position with that id |
| MovieStore.FindById | src/index.js:136 | find gives nothing if and only if no record has the id; otherwise it gives the record at the first match |
| MovieStore.MatchesGenre | src/index.js:123 | a record matches when one of its genres equals the query after ASCII lower-casing; FilterByGenre and FilterIgnoresCase state what that gives the search |
| MovieStore.FilterByGenre | src/index.js:122-124 | a record is in the result if and only if it is in the store and has a genre equal to the query ignoring case |
| MovieStore.FilterAppend | src/index.js:122-124 | filtering distributes over concatenation, so the result keeps the store's order |
| MovieStore.FilterCount | src/index.js:122-124 | a matching record occurs in the result as often as in the store; a non-matching one never does |
| MovieStore.FilterIdempotent | src/index.js:122-124 | filtering the result again by the same genre changes nothing |
| MovieStore.FilterIgnoresCase | src/index.js:123 | two queries with the same lower-case form select the same records in the same order |
| MovieStore.ActionAnyCase | src/index.js:123 | the queries "action" and "Action" select the same records |
| MovieStore.RemoveAt | src/index.js:233 | after splice the length drops by one; records before the index stay put and the rest shift down one |
| MovieStore.RemoveAtMultiset | src/index.js:233 | splice removes exactly the record at the index and keeps every other one |
| MovieStore.RemoveKeepsUnique | src/index.js:233 | splice keeps ids unique |
| MovieStore.RemoveFoundLeavesNone | src/index.js:228-233 | with unique ids, no record keeps the id after deleting its first match |
| MovieStore.AppendKeepsUnique | src/index.js:183-188 | appending a record with a new id keeps ids unique |
| MovieStore.Merge | src/index.js:209 | the spread `{...old, ...data}` on records; MergeIsSpread, MergeNothing, MergeIdempotent, MergeEverything and MergeKeepsValid state what it computes |
| MovieStore.MergeKeepsValid | src/index.js:198-209 | merging a valid partial result into a record that meets the field rules gives a record that still meets them |
| MovieStore.UpdateKeepsValid | src/index.js:209-210 | writing a merged record back keeps every stored record valid |
| MovieStore.AppendKeepsValid | src/index.js:183-188 | appending a valid record keeps every stored record valid |
| MovieStore.SpreadAt | src/index.js:209 | each schema key of the spread carries the supplied value when there is one, else the old value |
| MovieStore.MergeAtKey | src/index.js:209 | each key of the merged record carries the supplied value when there is one, else the old value |
| MovieStore.MergeIsSpread | src/index.js:209 | the merged record is the old object with the supplied keys written over it |
| MovieStore.PatchedRecordIsSpread | src/index.js:209 | the stored record after PATCH equals `{...old, ...data}` and keeps its id |
| MovieStore.MergeNothing | src/index.js:209 | a partial result with no fields leaves the record unchanged |
| MovieStore.MergeIdempotent | src/index.js:209 | applying the same partial result twice equals applying it once |
| MovieStore.MergeEverything | src/index.js:209 | a partial result carrying every field replaces the record outright |
| MovieStore.UpdateAt | src/index.js:209-210 | the write-back replaces only the given position with the merged record under the same id; the length is unchanged |
| MovieStore.UpdateKeepsLookups | src/index.js:209-210 | an update keeps every position's id, so lookups land where they did and unique ids stay unique |
| MovieStore.FindAfterUpdate | src/index.js:204-210 | after updating the match for an id, looking the id up returns the merged record |
| OriginPolicy.CorsCallback | src/index.js:32-51 | the middleware accepts exactly when the origin is absent, empty, or in its own list (port 53033) |
| OriginPolicy.ListAllowOrigin | src/index.js:81-89 | GET echoes the origin only when it is in the handler list (port 50426); an absent origin sets no header |
| OriginPolicy.PreflightAllowOrigin | src/index.js:224-249 | DELETE and OPTIONS set the header when the origin is in the handler list or falsy; the value is the origin, or `undefined` when none was sent |
| OriginPolicy.MiddlewareVersusHandlers | src/index.js:33-67 | the two lists differ exactly in port 53033 on the middleware side and port 50426 on the handler side |
| OriginPolicy.ListVersusPreflight | src/index.js:224-226 | GET and DELETE/OPTIONS decide differently exactly for a falsy origin |
| OriginPolicy.AbsentOrigin | src/index.js:46-47 | a request with no origin passes the middleware, gets no header on GET and gets `undefined` on DELETE/OPTIONS |
| OriginPolicy.ListedAndUnlisted | src/index.js:33-50 | a listed site is accepted and echoed; an unlisted one is refused and gets no header |
| MovieRoutes.ListMovies | src/index.js:69-92 | GET answers 200 with the whole store; the origin is echoed if and only if it is in the handler list |
| MovieRoutes.SearchMovies | src/index.js:116-127 | a missing or empty genre answers 400 "No hay parámetro"; otherwise 200 with exactly the stored records that match ignoring case |
| MovieRoutes.GetMovie | src/index.js:134-140 | the answer is 404 "Movie not found" if and only if no record has the id; otherwise 200 with the first match |
| MovieRoutes.PostMovie | src/index.js:174-189 | the answer is 201 if and only if the body validates, with the normalised record under the new id; otherwise 400 with exactly the issues validation reported, which are non-empty |
| MovieRoutes.Preflight | src/index.js:243-252 | OPTIONS always answers 200; both headers are set together for a listed or falsy origin, and allow-methods is "GET, POST, PATCH, DELETE" |
| MovieRoutes.SearchKeepsOrder | src/index.js:122-126 | search results follow the store's order |
| MovieRoutes.SearchIgnoresCase | src/index.js:123 | queries that differ only in ASCII case get identical answers |
| MovieRoutes.PostNotStored | src/index.js:183-188 | after a successful POST, a GET of the id it reported answers 404 |
| MovieRoutes.CreatedIsFound | src/index.js:183-188 | once a created record is appended, a GET of its id returns it |
| MovieRoutes.DeleteThenGet | src/index.js:228-234 | with unique ids, a GET after a DELETE of the same id answers 404 |
| MovieRoutes.PatchThenGet | src/index.js:204-212 | a GET after a PATCH of the same id answers the merged record |
| MovieRoutes.App.constructor | src/index.js:5 | the store starts as the seed records |
| MovieRoutes.App.Patch | src/index.js:196-213 | an invalid body answers 400 with exactly the issues partial validation reported, before any lookup, and changes nothing; an unknown id answers 404 and changes nothing; otherwise the first match is replaced by the merge, every other position is untouched, and the answer is the stored record; unique ids stay unique, and a store of valid records stays valid |
| MovieRoutes.App.Delete | src/index.js:220-235 | the allow-origin header follows the DELETE rule on every path; an unknown id answers 404 and changes nothing; otherwise exactly the first match is removed and the answer is "Movie deleted"; with unique ids, no record keeps the id; every remaining record was already stored, so a store of valid records stays valid |
| MovieRoutes.App.Create | src/index.js:174-189 | the corrected POST: the same answer as the handler, and on 201 the record is appended, so a GET of its id finds it; unique ids stay unique and a store of valid records stays valid |

## Left out

- Express plumbing is not modelled. This covers `express.json`, routing, the `x-powered-by` switch, the catch-all 404 at src/index.js:254-256, and the exact bytes `res.json`/`res.send` write. A handler's outcome is a status, two optional headers and a body value.
- `cors` library internals are not modelled. The model leaves out:
  - the headers the library adds itself;
  - the error path when its origin callback refuses, where Express's default error handler answers;
  - the fact that with default options the library answers OPTIONS preflights itself, so the OPTIONS handler is unreachable behind it.
  `Preflight` models the handler as written.
- `crypto.randomUUID` is replaced by an id parameter. `App.Create` requires that the id is not already in the store.
- `PORT` and `app.listen` are configuration and start-up, outside the model.
- The seed file `./data/movies.json` is not part of this model. The store starts as an arbitrary sequence whose records have the schema's fields. The methods of `App` keep every record valid (`AllValid`) once the seed is valid, which the source file does not show.
- URL well-formedness (zod's `url()`) is the parameter `isUrl`, left uninterpreted.
- zod's message texts, the `required_error`/`invalid_type_error` strings and the `JSON.parse(result.error.message)` step are not modelled. An error body is the list of issues, each a path and a kind.
- `GenreValues` is data only. The enum passed to `.array(...)` is ignored by zod, so the model does not check genre membership (see `GenreListNotEnforced`).
- JavaScript numbers are modelled as unbounded reals. Floating-point rounding is not modelled. `year` and `duration` are stored as integers once `int()` has passed.
- `Lower`: models `toLowerCase` on ASCII letters only. Unicode case mapping is not modelled.
- `SearchMovies`: takes the `genre` query value as an optional string. A non-string `genre` (an array from a repeated parameter, or an object from `genre[x]=y`, on which `toLowerCase` throws) is not modelled.
- The OPTIONS response body is the status text `OK`, which Express 4 sends for `res.send(200)`. The Express version is not pinned here, and the deprecation warning is not modelled.
- Response key order (`{id, ...data}`, and the old key positions under the PATCH spread) is not modelled, because JSON objects are maps here.
- src/page/main.js is the browser client (DOM and `fetch`), outside the model.

## Findings

| source | as written | input that shows it | evidently intended | confidence | as-written member | corrected member |
|---|---|---|---|---|---|---|
| src/index.js:183-188 | POST builds `{id, ...result.data}` and answers 201 but never pushes it onto `movies` | any valid body: the 201 answer reports an id, and a GET of that id answers 404 | the created record is appended to the store, so GET finds it | high (not executed) | MovieRoutes.PostNotStored | MovieRoutes.App.Create |
